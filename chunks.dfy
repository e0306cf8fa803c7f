// Chunk assembly for the Chamber rulebook (`4_create_chunks.py`): one
// chunk per paragraph ("comma") record of the keywords file, carrying the
// hierarchy of the article it belongs to and the paragraph's semantic tags.
module Chunks {
  import opened Wrappers
  import opened Text
  import opened Json
  import opened OrderedMaps
  import opened Structure

  // ---------------------------------------------------------------------
  // Article metadata

  /** The metadata of an article listed by a node whose titles from the
      top-level node down are `path`: the document's title and type and the
      first three titles; the levels the path does not reach are absent. */
  function ArticleMetadata(docTitle: string, docType: string, path: seq<string>): Record {
    var m := map["document_title" := Str(docTitle), "document_type" := Str(docType)];
    var m := if |path| >= 1 then m["livello_1_title" := Str(path[0])] else m;
    var m := if |path| >= 2 then m["livello_2_title" := Str(path[1])] else m;
    if |path| >= 3 then m["livello_3_title" := Str(path[2])] else m
  }

  lemma ArticleMetadataFields(docTitle: string, docType: string, path: seq<string>)
    ensures var m := ArticleMetadata(docTitle, docType, path);
      && "document_title" in m && m["document_title"] == Str(docTitle)
      && "document_type" in m && m["document_type"] == Str(docType)
      && ("livello_1_title" in m <==> |path| >= 1) && (|path| >= 1 ==> m["livello_1_title"] == Str(path[0]))
      && ("livello_2_title" in m <==> |path| >= 2) && (|path| >= 2 ==> m["livello_2_title"] == Str(path[1]))
      && ("livello_3_title" in m <==> |path| >= 3) && (|path| >= 3 ==> m["livello_3_title"] == Str(path[2]))
      && |m.Keys| == 2 + (if |path| < 3 then |path| else 3)
  {
  }

  /** The (article key, metadata) pairs of the articles one node lists. */
  function ArticlePairs(articles: seq<Value>, meta: Record): (ps: seq<(string, Record)>)
    ensures |ps| == |articles|
  {
    if articles == [] then []
    else ArticlePairs(articles[..|articles| - 1], meta) + [(PyStr(articles[|articles| - 1]), meta)]
  }

  lemma {:induction false} ArticlePairsAt(articles: seq<Value>, meta: Record)
    ensures forall j :: 0 <= j < |articles| ==> ArticlePairs(articles, meta)[j] == (PyStr(articles[j]), meta)
  {
    if articles != [] {
      ArticlePairsAt(articles[..|articles| - 1], meta);
    }
  }

  /** The pairs of a walk, in walk order. */
  function MetadataPairs(vs: seq<Visit>, docTitle: string, docType: string): seq<(string, Record)> {
    if vs == [] then []
    else
      var v := vs[|vs| - 1];
      MetadataPairs(vs[..|vs| - 1], docTitle, docType) + ArticlePairs(v.node.articles, ArticleMetadata(docTitle, docType, v.path))
  }

  lemma {:induction false} MetadataPairsAppend(a: seq<Visit>, b: seq<Visit>, docTitle: string, docType: string)
    ensures MetadataPairs(a + b, docTitle, docType) == MetadataPairs(a, docTitle, docType) + MetadataPairs(b, docTitle, docType)
  {
    if b == [] {
      assert a + b == a;
    } else {
      var init := b[..|b| - 1];
      var last := b[|b| - 1];
      var here := ArticlePairs(last.node.articles, ArticleMetadata(docTitle, docType, last.path));
      assert (a + b)[..|a + b| - 1] == a + init && (a + b)[|a + b| - 1] == last;
      assert MetadataPairs(a + b, docTitle, docType) == MetadataPairs(a + init, docTitle, docType) + here;
      MetadataPairsAppend(a, init, docTitle, docType);
    }
  }

  /** The visit lists the article whose key is `key`. */
  predicate ListsKey(v: Visit, key: string) {
    exists a :: a in v.node.articles && PyStr(a) == key
  }

  /** The last visit of the walk that lists the article `key`. */
  function LastListing(vs: seq<Visit>, key: string): (r: Option<nat>)
    ensures r.Some? ==>
      && r.value < |vs| && ListsKey(vs[r.value], key)
      && forall w :: r.value < w < |vs| ==> !ListsKey(vs[w], key)
    ensures r.None? ==> forall w :: 0 <= w < |vs| ==> !ListsKey(vs[w], key)
  {
    if vs == [] then None
    else if ListsKey(vs[|vs| - 1], key) then Some(|vs| - 1)
    else LastListing(vs[..|vs| - 1], key)
  }

  /** One node binds each of its articles' keys, and only those, to its
      metadata. */
  lemma ArticlePairsMap(articles: seq<Value>, meta: Record, key: string)
    ensures var m := LastWins(ArticlePairs(articles, meta));
      && (key in m <==> exists a :: a in articles && PyStr(a) == key)
      && (key in m ==> m[key] == meta)
  {
    var ps := ArticlePairs(articles, meta);
    ArticlePairsAt(articles, meta);
    LastWinsKeys(ps);
    LastWinsFromPairs(ps);
    if exists a :: a in articles && PyStr(a) == key {
      var a :| a in articles && PyStr(a) == key;
      var j :| 0 <= j < |articles| && articles[j] == a;
      assert ps[j].0 == key;
    }
    if key in LastWins(ps) {
      var j :| 0 <= j < |ps| && ps[j].0 == key;
      assert articles[j] in articles;
    }
  }

  /** The map built over a walk binds an article's key to the metadata of the
      last visit listing it, and binds nothing else. */
  lemma {:induction false} MetadataIsLastListing(vs: seq<Visit>, docTitle: string, docType: string, key: string)
    ensures var m := LastWins(MetadataPairs(vs, docTitle, docType));
      && (key in m <==> LastListing(vs, key).Some?)
      && (key in m ==> m[key] == ArticleMetadata(docTitle, docType, vs[LastListing(vs, key).value].path))
  {
    if vs != [] {
      var init := vs[..|vs| - 1];
      var v := vs[|vs| - 1];
      MetadataIsLastListing(init, docTitle, docType, key);
      var meta := ArticleMetadata(docTitle, docType, v.path);
      LastWinsAppend(MetadataPairs(init, docTitle, docType), ArticlePairs(v.node.articles, meta));
      ArticlePairsMap(v.node.articles, meta, key);
      if !ListsKey(v, key) {
        var r := LastListing(init, key);
        if r.Some? {
          assert vs[r.value] == init[r.value];
        }
      }
    }
  }

  // ---------------------------------------------------------------------
  // Building the maps

  /** Binds the key of each listed article to `meta`, in order. */
  method AddArticles(m: map<string, Record>, articles: seq<Value>, meta: Record) returns (m': map<string, Record>)
    ensures m' == m + LastWins(ArticlePairs(articles, meta))
  {
    m' := m;
    var j := 0;
    while j < |articles|
      invariant 0 <= j <= |articles|
      invariant m' == m + LastWins(ArticlePairs(articles[..j], meta))
    {
      ghost var prior := ArticlePairs(articles[..j], meta);
      assert articles[..j + 1][..j] == articles[..j];
      assert ArticlePairs(articles[..j + 1], meta) == prior + [(PyStr(articles[j]), meta)];
      assert (prior + [(PyStr(articles[j]), meta)])[..|prior|] == prior;
      UnionUpdate(m, LastWins(prior), PyStr(articles[j]), meta);
      m' := m'[PyStr(articles[j]) := meta];
      j := j + 1;
    }
    assert articles[..|articles|] == articles;
  }

  /** The pairs one node contributes: its own articles, then its subtree's. */
  function NodePairs(node: Node, parentPath: seq<string>, docTitle: string, docType: string): seq<(string, Record)> {
    var path := parentPath + [node.title];
    ArticlePairs(node.articles, ArticleMetadata(docTitle, docType, path))
    + MetadataPairs(PreOrder(node.children, path), docTitle, docType)
  }

  /** `recursive_traverse`: adds the metadata of every article listed in the
      walk of `nodes` (whose ancestors' titles are `parentPath`) to `m`. */
  method Traverse(nodes: seq<Node>, parentPath: seq<string>, docTitle: string, docType: string,
                  m: map<string, Record>)
    returns (m': map<string, Record>)
    ensures m' == m + LastWins(MetadataPairs(PreOrder(nodes, parentPath), docTitle, docType))
    decreases nodes
  {
    m' := m;
    var i := 0;
    while i < |nodes|
      invariant 0 <= i <= |nodes|
      invariant m' == m + LastWins(MetadataPairs(PreOrder(nodes[..i], parentPath), docTitle, docType))
    {
      ghost var start := m';
      m' := VisitNode(nodes[i], parentPath, docTitle, docType, m');
      TraverseStep(nodes, i, parentPath, docTitle, docType);
      UnionAppend(m, MetadataPairs(PreOrder(nodes[..i], parentPath), docTitle, docType),
                  NodePairs(nodes[i], parentPath, docTitle, docType), start, m');
      i := i + 1;
    }
    assert nodes[..|nodes|] == nodes;
  }

  /** One iteration of `recursive_traverse`'s loop: the node's own articles,
      then (through the recursive call) its children. */
  method VisitNode(node: Node, parentPath: seq<string>, docTitle: string, docType: string,
                   m: map<string, Record>)
    returns (m': map<string, Record>)
    ensures m' == m + LastWins(NodePairs(node, parentPath, docTitle, docType))
    decreases node
  {
    var path := parentPath + [node.title];
    var meta := ArticleMetadata(docTitle, docType, path);
    ghost var here := ArticlePairs(node.articles, meta);
    ghost var below := MetadataPairs(PreOrder(node.children, path), docTitle, docType);
    m' := m;
    if node.articles != [] {
      m' := AddArticles(m', node.articles, meta);
    } else {
      assert LastWins(here) == map[];
    }
    ghost var mid := m';
    if node.children != [] {
      m' := Traverse(node.children, path, docTitle, docType, m');
    } else {
      assert LastWins(below) == map[];
    }
    UnionAppend(m, here, below, mid, m');
  }

  /** Adding the pairs `a` and then `b` adds the pairs `a + b`. */
  lemma UnionAppend(m: map<string, Record>, a: seq<(string, Record)>, b: seq<(string, Record)>,
                    mid: map<string, Record>, last: map<string, Record>)
    requires mid == m + LastWins(a) && last == mid + LastWins(b)
    ensures last == m + LastWins(a + b)
  {
    LastWinsAppend(a, b);
    UnionAssoc(m, LastWins(a), LastWins(b));
  }

  lemma TraverseStep(nodes: seq<Node>, i: nat, parentPath: seq<string>, docTitle: string, docType: string)
    requires i < |nodes|
    ensures MetadataPairs(PreOrder(nodes[..i + 1], parentPath), docTitle, docType)
      == MetadataPairs(PreOrder(nodes[..i], parentPath), docTitle, docType) + NodePairs(nodes[i], parentPath, docTitle, docType)
  {
    var node := nodes[i];
    var path := parentPath + [node.title];
    var v := Visit(node, path);
    var pre := PreOrder(nodes[..i], parentPath);
    var tail := [v] + PreOrder(node.children, path);
    assert PreOrder(nodes[..i + 1], parentPath) == pre + tail by {
      assert nodes[..i + 1] == nodes[..i] + [node];
      PreOrderAppend(nodes[..i], [node], parentPath);
      assert [node][1..] == [];
    }
    assert MetadataPairs(tail, docTitle, docType) == NodePairs(node, parentPath, docTitle, docType) by {
      MetadataPairsAppend([v], PreOrder(node.children, path), docTitle, docType);
      assert [v][..0] == [];
    }
    MetadataPairsAppend(pre, tail, docTitle, docType);
  }

  // ---------------------------------------------------------------------
  // The article metadata map

  /** A structure file: its optional title and type, and its top-level nodes
      (the "structure" list). */
  datatype StructureFile = StructureFile(title: Option<string>, docType: Option<string>, nodes: seq<Node>)

  /** `structure_data.get(key, "N/D")` */
  function OrUnknown(field: Option<string>): string {
    if field.Some? then field.value else "N/D"
  }

  /** The map `build_metadata_map` returns: the walk's pairs, the last pair of
      a key winning. */
  function MetadataMap(sf: StructureFile): map<string, Record> {
    LastWins(MetadataPairs(PreOrder(sf.nodes, []), OrUnknown(sf.title), OrUnknown(sf.docType)))
  }

  /** `build_metadata_map` */
  method BuildMetadataMap(sf: StructureFile) returns (m: map<string, Record>)
    ensures m == MetadataMap(sf)
  {
    var docTitle := if sf.title.Some? then sf.title.value else "N/D";
    var docType := if sf.docType.Some? then sf.docType.value else "N/D";
    m := Traverse(sf.nodes, [], docTitle, docType, map[]);
  }

  /** An article is in the map iff some node lists it; it is bound to the
      metadata of the last node of the walk that lists it, whose path of
      titles runs from a top-level node down to that node. */
  lemma MetadataMapSpec(sf: StructureFile, key: string)
    ensures key in MetadataMap(sf) <==>
      exists k :: 0 <= k < |PreOrder(sf.nodes, [])| && ListsKey(PreOrder(sf.nodes, [])[k], key)
    ensures key in MetadataMap(sf) ==>
      var vs := PreOrder(sf.nodes, []);
      var v := vs[LastListing(vs, key).value];
      && |v.path| >= 1 && v.path[|v.path| - 1] == v.node.title
      && MetadataMap(sf)[key] == ArticleMetadata(OrUnknown(sf.title), OrUnknown(sf.docType), v.path)
  {
    var vs := PreOrder(sf.nodes, []);
    MetadataIsLastListing(vs, OrUnknown(sf.title), OrUnknown(sf.docType), key);
    PreOrderPaths(sf.nodes, []);
    var r := LastListing(vs, key);
    if r.Some? {
      assert PathBelow(vs[r.value], []);
      assert ListsKey(vs[r.value], key);
    }
  }

  /** Every value of the map carries the document's title and type, so none
      is empty. */
  lemma MetadataNeverEmpty(sf: StructureFile, key: string)
    requires key in MetadataMap(sf)
    ensures var meta := MetadataMap(sf)[key];
      && "document_title" in meta && meta["document_title"] == Str(OrUnknown(sf.title))
      && "document_type" in meta && meta["document_type"] == Str(OrUnknown(sf.docType))
  {
    var vs := PreOrder(sf.nodes, []);
    MetadataIsLastListing(vs, OrUnknown(sf.title), OrUnknown(sf.docType), key);
    ArticleMetadataFields(OrUnknown(sf.title), OrUnknown(sf.docType), vs[LastListing(vs, key).value].path);
  }

  // ---------------------------------------------------------------------
  // The tags map

  /** `f"art_{item.get('articolo')}_comma_{item.get('comma')}"` */
  function TagKey(item: Record): string {
    "art_" + PyStr(GetOr(item, "articolo", Null)) + "_comma_" + PyStr(GetOr(item, "comma", Null))
  }

  /** The assignments `build_tags_map` makes, in order. */
  function TagPairs(items: seq<Record>): (ps: seq<(string, Value)>)
    ensures |ps| == |items|
    ensures forall i :: 0 <= i < |items| ==> ps[i] == (TagKey(items[i]), GetOr(items[i], "tags", Strs([])))
  {
    seq(|items|, i requires 0 <= i < |items| => (TagKey(items[i]), GetOr(items[i], "tags", Strs([]))))
  }

  /** `build_tags_map` */
  method BuildTagsMap(items: seq<Record>) returns (tags: map<string, Value>)
    ensures tags == LastWins(TagPairs(items))
  {
    tags := map[];
    var i := 0;
    while i < |items|
      invariant 0 <= i <= |items|
      invariant tags == LastWins(TagPairs(items[..i]))
    {
      assert TagPairs(items[..i + 1])[..i] == TagPairs(items[..i]);
      tags := tags[TagKey(items[i]) := GetOr(items[i], "tags", Strs([]))];
      i := i + 1;
    }
    assert items[..|items|] == items;
  }

  /** A key is bound iff some item has it, and it is bound to the tags of the
      last such item. */
  lemma TagsMapSpec(items: seq<Record>, i: nat)
    requires i < |items|
    ensures TagKey(items[i]) in LastWins(TagPairs(items))
    ensures (forall j :: i < j < |items| ==> TagKey(items[j]) != TagKey(items[i])) ==>
      LastWins(TagPairs(items))[TagKey(items[i])] == GetOr(items[i], "tags", Strs([]))
  {
    var ps := TagPairs(items);
    LastWinsKeys(ps);
    assert ps[i].0 == TagKey(items[i]);
    if forall j :: i < j < |items| ==> TagKey(items[j]) != TagKey(items[i]) {
      LastWinsIs(ps, i);
    }
  }

  lemma TagsMapKeys(items: seq<Record>, key: string)
    ensures key in LastWins(TagPairs(items)) <==> exists i :: 0 <= i < |items| && TagKey(items[i]) == key
  {
    LastWinsKeys(TagPairs(items));
  }

  // ---------------------------------------------------------------------
  // Chunk assembly

  /** `str(record.get("articolo"))` */
  function ArticleId(rec: Record): string {
    PyStr(GetOr(rec, "articolo", Null))
  }

  /** `str(record.get("comma", "1"))` */
  function CommaId(rec: Record): string {
    PyStr(GetOr(rec, "comma", Str("1")))
  }

  function ChunkKey(rec: Record): string {
    "art_" + ArticleId(rec) + "_comma_" + CommaId(rec)
  }

  /** The chunk of one keywords record, or None when its article has no (or
      empty) structural metadata. */
  function ChunkFor(rec: Record, metadata: map<string, Record>, tags: map<string, Value>): (r: Option<Record>)
    ensures r.Some? <==> ArticleId(rec) in metadata && metadata[ArticleId(rec)] != map[]
    ensures r.Some? ==>
      && (forall k :: k in r.value <==> k in metadata[ArticleId(rec)] || k in ChunkFieldNames)
      && (forall k :: k in metadata[ArticleId(rec)] && k !in ChunkFieldNames ==> r.value[k] == metadata[ArticleId(rec)][k])
      && r.value["articolo"] == Str(ArticleId(rec))
      && r.value["comma"] == Str(CommaId(rec))
      && r.value["testo_originale_comma"] == GetOr(rec, "testo_originale_comma", Str(""))
      && r.value["keywords"] == GetOr(rec, "keywords", Strs([]))
      && r.value["tags"] == (if ChunkKey(rec) in tags then tags[ChunkKey(rec)] else Strs([]))
  {
    var aid := ArticleId(rec);
    if aid !in metadata || metadata[aid] == map[] then None
    else
      var key := ChunkKey(rec);
      Some(metadata[aid] + map[
        "articolo" := Str(aid),
        "comma" := Str(CommaId(rec)),
        "testo_originale_comma" := GetOr(rec, "testo_originale_comma", Str("")),
        "keywords" := GetOr(rec, "keywords", Strs([])),
        "tags" := if key in tags then tags[key] else Strs([])])
  }

  const ChunkFieldNames: set<string> := {"articolo", "comma", "testo_originale_comma", "keywords", "tags"}

  /** The chunks of the records, in record order. */
  function Chunks(records: seq<Record>, metadata: map<string, Record>, tags: map<string, Value>): seq<Record> {
    if records == [] then []
    else
      var rest := Chunks(records[..|records| - 1], metadata, tags);
      var c := ChunkFor(records[|records| - 1], metadata, tags);
      if c.Some? then rest + [c.value] else rest
  }

  /** Records are dropped, never added: at most one chunk per record. */
  lemma {:induction false} ChunksBounded(records: seq<Record>, metadata: map<string, Record>, tags: map<string, Value>)
    ensures |Chunks(records, metadata, tags)| <= |records|
  {
    if records != [] {
      ChunksBounded(records[..|records| - 1], metadata, tags);
    }
  }

  /** The chunks of concatenated record lists are concatenated: the output
      keeps the record order. */
  lemma {:induction false} ChunksAppend(a: seq<Record>, b: seq<Record>, metadata: map<string, Record>, tags: map<string, Value>)
    ensures Chunks(a + b, metadata, tags) == Chunks(a, metadata, tags) + Chunks(b, metadata, tags)
  {
    if b == [] {
      assert a + b == a;
    } else {
      ChunksAppend(a, b[..|b| - 1], metadata, tags);
      assert (a + b)[..|a + b| - 1] == a + b[..|b| - 1];
    }
  }

  /** Every chunk is the chunk of some record, and every record whose
      article has metadata contributes its chunk. */
  lemma {:induction false} ChunksMembers(records: seq<Record>, metadata: map<string, Record>, tags: map<string, Value>)
    ensures forall c :: c in Chunks(records, metadata, tags) <==>
      exists rec :: rec in records && ChunkFor(rec, metadata, tags) == Some(c)
  {
    if records != [] {
      var init := records[..|records| - 1];
      ChunksMembers(init, metadata, tags);
      forall c ensures c in Chunks(records, metadata, tags) <==>
        exists rec :: rec in records && ChunkFor(rec, metadata, tags) == Some(c)
      {
        if exists rec :: rec in records && ChunkFor(rec, metadata, tags) == Some(c) {
          var rec :| rec in records && ChunkFor(rec, metadata, tags) == Some(c);
          if rec != records[|records| - 1] {
            assert rec in init;
          }
        }
      }
    }
  }

  /** The chunk-assembly loop of `main`. */
  method AssembleChunks(records: seq<Record>, metadata: map<string, Record>, tags: map<string, Value>)
    returns (chunks: seq<Record>)
    ensures chunks == Chunks(records, metadata, tags)
  {
    chunks := [];
    var i := 0;
    while i < |records|
      invariant 0 <= i <= |records|
      invariant chunks == Chunks(records[..i], metadata, tags)
    {
      assert records[..i + 1][..i] == records[..i];
      var rec := records[i];
      var articleId := PyStr(if "articolo" in rec then rec["articolo"] else Null);
      var commaId := PyStr(if "comma" in rec then rec["comma"] else Str("1"));
      var key := "art_" + articleId + "_comma_" + commaId;
      if articleId in metadata && metadata[articleId] != map[] {
        var recordTags := if key in tags then tags[key] else Strs([]);
        var chunk := metadata[articleId] + map[
          "articolo" := Str(articleId),
          "comma" := Str(commaId),
          "testo_originale_comma" := if "testo_originale_comma" in rec then rec["testo_originale_comma"] else Str(""),
          "keywords" := if "keywords" in rec then rec["keywords"] else Strs([]),
          "tags" := recordTags];
        chunks := chunks + [chunk];
      }
      i := i + 1;
    }
    assert records[..|records|] == records;
  }

  /** `main`: the metadata map, the tags map, then the chunks. */
  method CreateChunks(sf: StructureFile, records: seq<Record>, tagItems: seq<Record>) returns (chunks: seq<Record>)
    ensures chunks == Chunks(records, MetadataMap(sf), LastWins(TagPairs(tagItems)))
  {
    var metadata := BuildMetadataMap(sf);
    var tags := BuildTagsMap(tagItems);
    chunks := AssembleChunks(records, metadata, tags);
  }

  /** With the built metadata map, a record yields a chunk iff some node of
      the structure lists its article. */
  lemma ChunkIffListed(sf: StructureFile, rec: Record, tags: map<string, Value>)
    ensures ChunkFor(rec, MetadataMap(sf), tags).Some? <==>
      exists k :: 0 <= k < |PreOrder(sf.nodes, [])| && ListsKey(PreOrder(sf.nodes, [])[k], ArticleId(rec))
  {
    MetadataMapSpec(sf, ArticleId(rec));
    if ArticleId(rec) in MetadataMap(sf) {
      MetadataNeverEmpty(sf, ArticleId(rec));
    }
  }
}
