// The canonical document structure: a tree of sections (parts, titles,
// chapters, ...) whose nodes list the articles they contain. The scripts
// walk it depth first, a node before its children and the children before
// the node's next sibling (pre-order).
module Structure {
  import opened Wrappers
  import opened Json

  /** A section: its title, the article ids it lists (strings or integers in
      the JSON file) and its sub-sections. */
  datatype Node = Node(title: string, articles: seq<Value>, children: seq<Node>)

  /** A node reached by the walk, with the titles from the top-level node
      down to it inclusive. */
  datatype Visit = Visit(node: Node, path: seq<string>)

  /** A loaded structure file, after its title and type were stamped from
      the document registry. */
  datatype Document = Document(title: string, docType: string, nodes: seq<Node>)

  /** The pre-order walk of `nodes`, whose ancestors' titles are `prefix`. */
  function PreOrder(nodes: seq<Node>, prefix: seq<string>): (vs: seq<Visit>)
    decreases nodes
  {
    if nodes == [] then []
    else
      var here := prefix + [nodes[0].title];
      [Visit(nodes[0], here)] + PreOrder(nodes[0].children, here) + PreOrder(nodes[1..], prefix)
  }

  /** The visit's path extends `prefix` and ends with the node's title. */
  predicate PathBelow(v: Visit, prefix: seq<string>) {
    |v.path| > |prefix| && v.path[..|prefix|] == prefix && v.path[|v.path| - 1] == v.node.title
  }

  /** Every path of the walk extends the ancestors' titles and ends with the
      title of the node reached. */
  lemma {:induction false} PreOrderPaths(nodes: seq<Node>, prefix: seq<string>)
    ensures forall v :: v in PreOrder(nodes, prefix) ==> PathBelow(v, prefix)
    decreases nodes
  {
    if nodes != [] {
      var here := prefix + [nodes[0].title];
      PreOrderPaths(nodes[0].children, here);
      PreOrderPaths(nodes[1..], prefix);
      forall v | v in PreOrder(nodes[0].children, here) ensures PathBelow(v, prefix) {
        assert PathBelow(v, here);
        assert v.path[..|prefix|] == v.path[..|here|][..|prefix|];
      }
    }
  }

  lemma {:induction false} PreOrderAppend(a: seq<Node>, b: seq<Node>, prefix: seq<string>)
    ensures PreOrder(a + b, prefix) == PreOrder(a, prefix) + PreOrder(b, prefix)
    decreases a
  {
    if a == [] {
      assert a + b == b;
    } else {
      assert (a + b)[0] == a[0] && (a + b)[1..] == a[1..] + b;
      PreOrderAppend(a[1..], b, prefix);
    }
  }

  /** The nodes reached by a walk that list at least one article, in walk order. */
  function Listing(vs: seq<Visit>): seq<Node> {
    if vs == [] then []
    else (if vs[0].node.articles != [] then [vs[0].node] else []) + Listing(vs[1..])
  }

  lemma {:induction false} ListingAppend(a: seq<Visit>, b: seq<Visit>)
    ensures Listing(a + b) == Listing(a) + Listing(b)
  {
    if a == [] {
      assert a + b == b;
    } else {
      assert (a + b)[1..] == a[1..] + b;
      ListingAppend(a[1..], b);
    }
  }

  /** `find_leaf_nodes` / `find_summary_nodes`: every node that lists articles,
      a node before the ones found among its children. */
  function LeafNodes(nodes: seq<Node>): (r: seq<Node>)
    ensures forall k :: 0 <= k < |r| ==> r[k].articles != []
    decreases nodes
  {
    if nodes == [] then []
    else
      (if nodes[0].articles != [] then [nodes[0]] else [])
      + LeafNodes(nodes[0].children) + LeafNodes(nodes[1..])
  }

  /** The leaf nodes are exactly the walk's nodes that list articles, in walk
      order: a node with articles is reported and its children are still
      searched. */
  lemma {:induction false} LeafNodesInPreOrder(nodes: seq<Node>, prefix: seq<string>)
    ensures LeafNodes(nodes) == Listing(PreOrder(nodes, prefix))
    decreases nodes
  {
    if nodes != [] {
      var here := prefix + [nodes[0].title];
      var head := [Visit(nodes[0], here)];
      var inner := PreOrder(nodes[0].children, here);
      var rest := PreOrder(nodes[1..], prefix);
      LeafNodesInPreOrder(nodes[0].children, here);
      LeafNodesInPreOrder(nodes[1..], prefix);
      ListingAppend(head + inner, rest);
      ListingAppend(head, inner);
      assert Listing(head) == (if nodes[0].articles != [] then [nodes[0]] else []) by {
        assert head[1..] == [];
      }
    }
  }

  /** The first visit whose node satisfies `p`, by its position. */
  function FirstWhere(vs: seq<Visit>, p: Node -> bool): (r: Option<nat>)
    ensures r.Some? ==> r.value < |vs| && p(vs[r.value].node)
    ensures r.Some? ==> forall k :: 0 <= k < r.value ==> !p(vs[k].node)
    ensures r.None? ==> forall k :: 0 <= k < |vs| ==> !p(vs[k].node)
  {
    if vs == [] then None
    else if p(vs[0].node) then Some(0)
    else match FirstWhere(vs[1..], p)
      case None => None
      case Some(k) => Some(k + 1)
  }

  /** The first satisfying visit of a concatenation lies in its first part if
      any does, and is otherwise found in the second part. */
  lemma {:induction false} FirstWhereAppend(a: seq<Visit>, b: seq<Visit>, p: Node -> bool)
    ensures FirstWhere(a + b, p) ==
      match FirstWhere(a, p)
      case Some(k) => Some(k)
      case None => match FirstWhere(b, p) case Some(k) => Some(|a| + k) case None => None
  {
    if a == [] {
      assert a + b == b;
    } else {
      assert (a + b)[0] == a[0] && (a + b)[1..] == a[1..] + b;
      FirstWhereAppend(a[1..], b, p);
    }
  }

  /** The depth-first search the resolver runs: the first node satisfying
      `p`, a node before its children and its children before its next
      sibling, with the titles of the path leading to it. */
  function Search(nodes: seq<Node>, prefix: seq<string>, p: Node -> bool): Option<Visit>
    decreases nodes
  {
    if nodes == [] then None
    else
      var here := prefix + [nodes[0].title];
      if p(nodes[0]) then Some(Visit(nodes[0], here))
      else match Search(nodes[0].children, here, p)
        case Some(v) => Some(v)
        case None => Search(nodes[1..], prefix, p)
  }

  /** The search finds the first visit of the pre-order walk whose node
      satisfies `p`, together with its path, and finds nothing only when no
      node of the tree satisfies `p`. */
  lemma {:induction false} SearchIsFirstVisit(nodes: seq<Node>, prefix: seq<string>, p: Node -> bool)
    ensures var vs := PreOrder(nodes, prefix);
      Search(nodes, prefix, p) == match FirstWhere(vs, p) case Some(k) => Some(vs[k]) case None => None
    decreases nodes
  {
    if nodes != [] {
      var here := prefix + [nodes[0].title];
      var head := [Visit(nodes[0], here)];
      var inner := PreOrder(nodes[0].children, here);
      var rest := PreOrder(nodes[1..], prefix);
      var vs := PreOrder(nodes, prefix);
      assert vs == head + inner + rest;
      SearchIsFirstVisit(nodes[0].children, here, p);
      SearchIsFirstVisit(nodes[1..], prefix, p);
      FirstWhereAppend(head + inner, rest, p);
      FirstWhereAppend(head, inner, p);
      assert head[1..] == [];
      if p(nodes[0]) {
        assert FirstWhere(head, p) == Some(0);
      } else {
        assert FirstWhere(head, p) == None;
        match FirstWhere(inner, p)
        case Some(k) =>
          assert vs[1 + k] == inner[k];
        case None =>
          match FirstWhere(rest, p)
          case Some(k) =>
            assert vs[1 + |inner| + k] == rest[k];
          case None =>
      }
    }
  }
}
