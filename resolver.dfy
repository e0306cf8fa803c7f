// The structural side of the query engine (`handle_structural_query`):
// an article is located by a depth-first search over each candidate
// document's section tree, and a section is looked up by a normalised
// title in which whole-word roman numerals i..x became digits.
module Resolver {
  import opened Wrappers
  import opened Text
  import opened Json
  import opened WordReplace
  import opened Structure
  import opened JsonExtract

  // ---------------------------------------------------------------------
  // Section titles

  /** The roman numerals rewritten in titles, in the order they are applied. */
  const RomanTable: Table := [
    ("i", "1"), ("ii", "2"), ("iii", "3"), ("iv", "4"), ("v", "5"),
    ("vi", "6"), ("vii", "7"), ("viii", "8"), ("ix", "9"), ("x", "10")
  ]

  /** The characters dropped from titles and search terms. */
  const Separators: set<char> := {' ', '-'}

  /** `normalize_title_with_romans`: lower-cased, each roman numeral i..x
      standing as a whole word replaced by its value, spaces and hyphens
      removed. */
  function NormalizeTitle(title: string): string {
    RemoveChars(ApplyTable(Lower(title), RomanTable, false), Separators)
  }

  /** The search term: lower-cased, spaces and hyphens removed; its roman
      numerals are not rewritten. */
  function NormalizeFragment(section: string): (r: string)
    ensures IsLower(r) && forall i :: 0 <= i < |r| ==> r[i] !in Separators
  {
    RemoveCharsLower(Lower(section), Separators);
    RemoveChars(Lower(section), Separators)
  }

  lemma {:induction false} RemoveCharsLower(s: string, cs: set<char>)
    requires IsLower(s)
    ensures IsLower(RemoveChars(s, cs))
  {
    if s != [] {
      RemoveCharsLower(s[1..], cs);
    }
  }

  /** Every non-empty prefix of a word of `ws` is itself in `ws`. */
  predicate PrefixClosed(ws: set<string>) {
    forall w, k :: w in ws && 0 < k < |w| ==> w[..k] in ws
  }

  /** A word outside a prefix-closed set stays outside when extended. */
  lemma ExtendOutside(p: string, q: string, ws: set<string>)
    requires PrefixClosed(ws) && p != [] && p !in ws
    ensures p + q !in ws
  {
    if q == [] {
      assert p + q == p;
    } else {
      assert (p + q)[..|p|] == p;
    }
  }

  /** A single word outside `ws` has no run in `ws`. */
  lemma SingleRun(p: string, ws: set<string>)
    requires AllWord(p) && (p == [] || p !in ws)
    ensures NoRun(p, ws, false)
  {
    if p != [] {
      RunLenConcat(p, []);
      assert p + [] == p;
      assert p[|p|..] == [];
    }
  }

  /** A word `p` followed by a non-word character: the run is `p` itself. */
  lemma RunThenSeparator(p: string, c: char, rest: string, ws: set<string>)
    requires AllWord(p) && (p == [] || p !in ws) && !IsWordChar(c)
    requires NoRun(rest, ws, false)
    ensures NoRun(p + [c] + rest, ws, false)
  {
    var t := p + [c] + rest;
    assert t == p + ([c] + rest);
    assert ([c] + rest)[1..] == rest;
    if p != [] {
      RunLenConcat(p, [c] + rest);
      assert t[..|p|] == p && t[|p|..] == [c] + rest;
    }
  }

  /** Removing separators (non-word characters) from a text whose runs all
      lie outside a prefix-closed set merges runs, and a merged run starts
      with a run that lies outside the set, so it lies outside too. The
      pending word `p` is the part of the current merged run seen so far. */
  lemma {:induction false} RemoveKeepsNoRun(p: string, x: string, ws: set<string>, cs: set<char>)
    requires PrefixClosed(ws)
    requires forall c :: c in cs ==> !IsWordChar(c)
    requires AllWord(p) && (p == [] || p !in ws)
    requires NoRun(x, ws, false)
    ensures NoRun(p + RemoveChars(x, cs), ws, false)
    decreases |x|
  {
    if x == [] {
      SingleRun(p, ws);
      assert p + RemoveChars(x, cs) == p;
    } else if !IsWordChar(x[0]) {
      assert NoRun(x[1..], ws, false);
      if x[0] in cs {
        assert RemoveChars(x, cs) == RemoveChars(x[1..], cs);
        RemoveKeepsNoRun(p, x[1..], ws, cs);
      } else {
        RemoveKeepsNoRun([], x[1..], ws, cs);
        assert [] + RemoveChars(x[1..], cs) == RemoveChars(x[1..], cs);
        KeptSeparator(p, x, ws, cs);
      }
    } else {
      var n := RunLen(x);
      var q := p + x[..n];
      assert x[..n] !in ws && NoRun(x[n..], ws, false);
      if p != [] {
        ExtendOutside(p, x[..n], ws);
      } else {
        assert q == x[..n];
      }
      RemoveKeepsNoRun(q, x[n..], ws, cs);
      MergedRun(p, x, n, cs);
    }
  }

  lemma KeptSeparator(p: string, x: string, ws: set<string>, cs: set<char>)
    requires x != [] && !IsWordChar(x[0]) && x[0] !in cs
    requires AllWord(p) && (p == [] || p !in ws)
    requires NoRun(RemoveChars(x[1..], cs), ws, false)
    ensures NoRun(p + RemoveChars(x, cs), ws, false)
  {
    var rest := RemoveChars(x[1..], cs);
    assert RemoveChars(x, cs) == [x[0]] + rest;
    RunThenSeparator(p, x[0], rest, ws);
    assert p + ([x[0]] + rest) == p + [x[0]] + rest;
  }

  lemma MergedRun(p: string, x: string, n: nat, cs: set<char>)
    requires n == RunLen(x) && n > 0
    requires forall c :: c in cs ==> !IsWordChar(c)
    ensures p + RemoveChars(x, cs) == (p + x[..n]) + RemoveChars(x[n..], cs)
  {
    assert x == x[..n] + x[n..];
    RemoveCharsAppend(x[..n], x[n..], cs);
    RemoveCharsNone(x[..n], cs);
  }

  const RomanNumerals: set<string> := {"i", "ii", "iii", "iv", "v", "vi", "vii", "viii", "ix", "x"}

  lemma RomanKeys()
    ensures Keys(RomanTable) == RomanNumerals
  {
    var t := RomanTable;
    assert t[0].0 == "i" && t[1].0 == "ii" && t[2].0 == "iii" && t[3].0 == "iv" && t[4].0 == "v";
    assert t[5].0 == "vi" && t[6].0 == "vii" && t[7].0 == "viii" && t[8].0 == "ix" && t[9].0 == "x";
  }

  /** Every prefix of a roman numeral i..x is one as well. */
  lemma RomanPrefixClosed()
    ensures PrefixClosed(RomanNumerals)
  {
    forall w, k | w in RomanNumerals && 0 < k < |w|
      ensures w[..k] in RomanNumerals
    {
      if w == "ii" || w == "iii" || w == "iv" || w == "ix" {
        assert w[..1] == "i";
        assert w == "iii" ==> w[..2] == "ii";
      } else if w == "vi" || w == "vii" {
        assert w[..1] == "v";
        assert w == "vii" ==> w[..2] == "vi";
      } else {
        assert w == "viii";
        assert w[..1] == "v" && w[..2] == "vi" && w[..3] == "vii";
      }
    }
  }

  lemma RomanTableFacts()
    ensures WellFormed(RomanTable, false)
    ensures PrefixClosed(Keys(RomanTable))
    ensures forall i :: 0 <= i < |RomanTable| ==> IsLower(RomanTable[i].1)
  {
    NumeralTableWellFormed(RomanTable, false);
    RomanKeys();
    RomanPrefixClosed();
  }

  /** A normalised title is lower case, has no separators and no whole word
      that is a roman numeral i..x. */
  lemma NormalizedTitleFacts(title: string)
    ensures var n := NormalizeTitle(title);
      IsLower(n) && NoRun(n, Keys(RomanTable), false) && forall i :: 0 <= i < |n| ==> n[i] !in Separators
  {
    RomanTableFacts();
    var a := ApplyTable(Lower(title), RomanTable, false);
    LowerIsLower(title);
    TableKeepsLower(Lower(title), RomanTable, false);
    TableClears(Lower(title), RomanTable, false);
    RemoveCharsLower(a, Separators);
    RemoveKeepsNoRun([], a, Keys(RomanTable), Separators);
    assert [] + RemoveChars(a, Separators) == RemoveChars(a, Separators);
  }

  /** Normalising a normalised title changes nothing. */
  lemma NormalizeTitleIdempotent(title: string)
    ensures NormalizeTitle(NormalizeTitle(title)) == NormalizeTitle(title)
  {
    var n := NormalizeTitle(title);
    NormalizedTitleFacts(title);
    LowerOfLower(n);
    TableIdentity(n, RomanTable, Keys(RomanTable), false);
    RemoveCharsNone(n, Separators);
  }

  // ---------------------------------------------------------------------
  // The two tree searches

  /** `[str(a) for a in node.get("articles", [])]` */
  function ArticleStrings(node: Node): seq<string> {
    seq(|node.articles|, k requires 0 <= k < |node.articles| => PyStr(node.articles[k]))
  }

  /** The node lists the article `id` (compared as strings). */
  function ListsArticle(id: string): Node -> bool {
    (node: Node) => id in ArticleStrings(node)
  }

  /** The node's normalised title contains the normalised search term. */
  function TitleMatches(term: string): Node -> bool {
    (node: Node) => Contains(NormalizeTitle(node.title), term)
  }

  /** `find_article_path_recursive`: the titles from the top-level node down
      to the first node (depth first) listing the article. On success the
      source extends the shared `path_to_article` list with exactly this. */
  method FindArticlePath(nodes: seq<Node>, currentPath: seq<string>, id: string) returns (found: Option<seq<string>>)
    ensures found == match Search(nodes, currentPath, ListsArticle(id)) case Some(v) => Some(v.path) case None => None
    decreases nodes
  {
    var i := 0;
    while i < |nodes|
      invariant 0 <= i <= |nodes|
      invariant Search(nodes, currentPath, ListsArticle(id)) == Search(nodes[i..], currentPath, ListsArticle(id))
    {
      var node := nodes[i];
      assert nodes[i..][0] == node && nodes[i..][1..] == nodes[i + 1..];
      if id in ArticleStrings(node) {
        return Some(currentPath + [node.title]);
      }
      if node.children != [] {
        var sub := FindArticlePath(node.children, currentPath + [node.title], id);
        if sub.Some? {
          return sub;
        }
      }
      i := i + 1;
    }
    return None;
  }

  /** `find_node_by_title_recursive`: the first node (depth first) whose
      normalised title contains the term. */
  method FindNodeByTitle(nodes: seq<Node>, term: string, ghost prefix: seq<string>) returns (found: Option<Node>)
    ensures found == match Search(nodes, prefix, TitleMatches(term)) case Some(v) => Some(v.node) case None => None
    decreases nodes
  {
    var i := 0;
    while i < |nodes|
      invariant 0 <= i <= |nodes|
      invariant Search(nodes, prefix, TitleMatches(term)) == Search(nodes[i..], prefix, TitleMatches(term))
    {
      var node := nodes[i];
      assert nodes[i..][0] == node && nodes[i..][1..] == nodes[i + 1..];
      var titleNorm := NormalizeTitle(node.title);
      if Contains(titleNorm, term) {
        return Some(node);
      }
      if node.children != [] {
        found := FindNodeByTitle(node.children, term, prefix + [node.title]);
        if found.Some? {
          return found;
        }
      }
      i := i + 1;
    }
    return None;
  }

  /** The article search reports a path exactly when some node of the tree
      lists the article; the path leads from a top-level node to the first
      such node of the depth-first walk, ending with its title. */
  lemma ArticlePathIsFirstListing(nodes: seq<Node>, id: string)
    ensures var vs := PreOrder(nodes, []);
      match Search(nodes, [], ListsArticle(id))
      case Some(v) => exists k :: 0 <= k < |vs| && v == vs[k] && id in ArticleStrings(vs[k].node)
                        && v.path != [] && v.path[|v.path| - 1] == v.node.title
                        && forall j :: 0 <= j < k ==> id !in ArticleStrings(vs[j].node)
      case None => forall k :: 0 <= k < |vs| ==> id !in ArticleStrings(vs[k].node)
  {
    var vs := PreOrder(nodes, []);
    var p := ListsArticle(id);
    SearchIsFirstVisit(nodes, [], p);
    PreOrderPaths(nodes, []);
    assert forall k :: 0 <= k < |vs| ==> PathBelow(vs[k], []);
    match FirstWhere(vs, p)
    case Some(k) =>
      assert forall j :: 0 <= j < k ==> !p(vs[j].node);
    case None =>
      assert forall j :: 0 <= j < |vs| ==> !p(vs[j].node);
  }

  /** The section search returns the first node of the depth-first walk whose
      normalised title contains the term, and nothing only when no title
      does. */
  lemma SectionIsFirstMatch(nodes: seq<Node>, term: string)
    ensures var vs := PreOrder(nodes, []);
      match Search(nodes, [], TitleMatches(term))
      case Some(v) => exists k :: 0 <= k < |vs| && v == vs[k] && Contains(NormalizeTitle(vs[k].node.title), term)
                        && forall j :: 0 <= j < k ==> !Contains(NormalizeTitle(vs[j].node.title), term)
      case None => forall k :: 0 <= k < |vs| ==> !Contains(NormalizeTitle(vs[k].node.title), term)
  {
    var vs := PreOrder(nodes, []);
    var p := TitleMatches(term);
    SearchIsFirstVisit(nodes, [], p);
    match FirstWhere(vs, p)
    case Some(k) =>
      assert forall j :: 0 <= j < k ==> !p(vs[j].node);
    case None =>
      assert forall j :: 0 <= j < |vs| ==> !p(vs[j].node);
  }

  // ---------------------------------------------------------------------
  // Query analysis and the structural reply

  /** What the router returns when its call or the parse of its reply fails. */
  const FallbackAnalysis: Record := map["intent" := Str("ricerca_generale"), "entities" := Obj(map[])]

  /** `analyze_query_for_rag`: `reply` is the router's text (None when the
      call raised) and `parse` is `json.loads` (None when it raised). */
  function AnalyzeQuery(reply: Option<string>, parse: string -> Option<Record>): (r: Record)
    ensures reply.None? || parse(CleanJson(reply.value, ObjectShape)).None? ==> r == FallbackAnalysis
    ensures reply.Some? && parse(CleanJson(reply.value, ObjectShape)).Some? ==> r == parse(CleanJson(reply.value, ObjectShape)).value
  {
    match reply
    case None => FallbackAnalysis
    case Some(text) => parse(CleanJson(text, ObjectShape)).GetOr(FallbackAnalysis)
  }

  predicate IsStructural(analysis: Record) {
    "intent" in analysis && analysis["intent"] == Str("ricerca_strutturale")
  }

  /** The fallback analysis is a general search without entities. */
  lemma FallbackIsGeneral()
    ensures !IsStructural(FallbackAnalysis)
    ensures EntitiesOf(FallbackAnalysis) == map[]
    ensures ReadEntities(FallbackAnalysis) == Some(Entities(None, None, None))
  {
  }

  /** `analysis.get("entities", {})` as the retrieval filter reads it: a
      value that is not a dict is handled by the caller. */
  function EntitiesOf(analysis: Record): Record {
    if "entities" in analysis && analysis["entities"].Obj? then analysis["entities"].fields else map[]
  }

  /** The entities as the structural handler reads them: the document name,
      the article id as `str()` of a truthy value, and the truthy section
      value, whatever its type. */
  datatype Entities = Entities(doc: Option<string>, article: Option<string>, section: Option<Value>)

  /** The first lines of `handle_structural_query`; None when they raise:
      `entities.get` on an `entities` value that is not a dict, or
      `doc_entity.lower()` on a truthy document that is not a string. */
  function ReadEntities(analysis: Record): (r: Option<Entities>)
    ensures r.None? <==>
      || ("entities" in analysis && !analysis["entities"].Obj?)
      || (var e := EntitiesOf(analysis); "documento" in e && Truthy(e["documento"]) && !e["documento"].Str?)
    ensures r.Some? ==> var e := EntitiesOf(analysis);
      && r.value.doc == TruthyStr(e, "documento")
      && (r.value.article.Some? <==> "articolo" in e && Truthy(e["articolo"]))
      && (r.value.section.Some? <==> "nome_sezione" in e && Truthy(e["nome_sezione"]))
  {
    if "entities" in analysis && !analysis["entities"].Obj? then None
    else
      var e := EntitiesOf(analysis);
      if "documento" in e && Truthy(e["documento"]) && !e["documento"].Str? then None
      else
        Some(Entities(TruthyStr(e, "documento"),
                      if "articolo" in e && Truthy(e["articolo"]) then Some(PyStr(e["articolo"])) else None,
                      if "nome_sezione" in e && Truthy(e["nome_sezione"]) then Some(e["nome_sezione"]) else None))
  }

  /** The document type of a lower-cased document name; only the two known
      names are mapped. */
  function DocTypeOf(name: string): (r: Option<string>)
    ensures r.Some? <==> name == "costituzione" || name == "regolamento"
  {
    if name == "costituzione" then Some("costituzione")
    else if name == "regolamento" then Some("regolamento_parlamentare")
    else None
  }

  function TargetType(doc: Option<string>): Option<string> {
    match doc
    case None => None
    case Some(d) => DocTypeOf(Lower(d))
  }

  /** A document is searched: no known type is targeted, or it has that type. */
  predicate Targeted(d: Document, target: Option<string>) {
    target.None? || d.docType == target.value
  }

  /** `docs_to_search`: the documents of the targeted type, or every
      document when no known type is targeted. */
  function Candidates(docs: seq<Document>, target: Option<string>): (r: seq<Document>)
    ensures target.None? ==> r == docs
  {
    if docs == [] then []
    else
      var rest := Candidates(docs[..|docs| - 1], target);
      assert docs == docs[..|docs| - 1] + [docs[|docs| - 1]];
      if Targeted(docs[|docs| - 1], target) then rest + [docs[|docs| - 1]] else rest
  }

  /** A single document is a candidate exactly when it is targeted. */
  lemma CandidatesOne(d: Document, target: Option<string>)
    ensures Candidates([d], target) == (if Targeted(d, target) then [d] else [])
  {
    assert [d][..0] == [];
  }

  /** The candidates of a concatenation are the concatenation of the
      candidates: with CandidatesOne, the candidates are the targeted
      documents in input order and with their repetitions. */
  lemma {:induction false} CandidatesAppend(a: seq<Document>, b: seq<Document>, target: Option<string>)
    ensures Candidates(a + b, target) == Candidates(a, target) + Candidates(b, target)
  {
    if b == [] {
      assert a + b == a;
    } else {
      var init := b[..|b| - 1];
      var last := b[|b| - 1];
      var ab := a + b;
      var kept := if Targeted(last, target) then [last] else [];
      assert Candidates(ab, target) == Candidates(a + init, target) + kept by {
        assert ab[..|ab| - 1] == a + init && ab[|ab| - 1] == last;
      }
      assert Candidates(b, target) == Candidates(init, target) + kept;
      CandidatesAppend(a, init, target);
      Reassociate(Candidates(ab, target), Candidates(a + init, target), Candidates(a, target),
                  Candidates(init, target), kept, Candidates(b, target));
    }
  }

  /** Every candidate is a document of the targeted type, and every such
      document is a candidate. */
  lemma {:induction false} CandidatesMembers(docs: seq<Document>, target: Option<string>)
    ensures forall d :: d in Candidates(docs, target) <==> d in docs && Targeted(d, target)
  {
    if docs != [] {
      var init := docs[..|docs| - 1];
      CandidatesMembers(init, target);
      assert docs == init + [docs[|docs| - 1]];
    }
  }

  function ArticleFoundMessage(id: string, docTitle: string, path: seq<string>): string {
    "L'articolo " + id + " si trova nel documento '" + docTitle + "' all'interno del percorso: " + Join(" -> ", path) + "."
  }

  function SectionFoundMessage(docTitle: string, section: string, title: string): string {
    "Nel documento '" + docTitle + "', la sezione trovata per '" + section + "' \U{e8}: \"" + title + "\"."
  }

  function DocInfo(doc: Option<string>): string {
    match doc
    case Some(d) => "nel documento '" + d + "'"
    case None => "in nessun documento"
  }

  /** The reply after no candidate document answered: the article message
      takes precedence over the section message, which formats the section
      value with `str()`. */
  function NotFoundMessage(q: Entities): string {
    if q.article.Some? then "Non \U{e8} stato possibile trovare l'articolo " + q.article.value + " " + DocInfo(q.doc) + "."
    else if q.section.Some? then
      "Nessuna sezione corrispondente a '" + PyStr(q.section.value) + "' \U{e8} stata trovata " + DocInfo(q.doc) + "."
    else "Query strutturale non riconosciuta."
  }

  /** What a step of the handler gives: a reply, nothing (`None`, or no
      answer from a document), or an exception that ends the session. */
  datatype Reply = Reply(text: string) | NoReply | Raises

  /** The article search of one document, if an article is asked for. */
  function ArticleIn(q: Entities, d: Document): Option<Visit> {
    if q.article.None? then None else Search(d.nodes, [], ListsArticle(q.article.value))
  }

  /** What one document gives: first the article search, then the section
      search, which raises on a section value that is not a string
      (`section_entity.lower()`). */
  function DocReply(q: Entities, d: Document): Reply {
    match ArticleIn(q, d)
    case Some(v) => Reply(ArticleFoundMessage(q.article.value, d.title, v.path))
    case None =>
      match q.section
      case None => NoReply
      case Some(sec) =>
        if !sec.Str? then Raises
        else match Search(d.nodes, [], TitleMatches(NormalizeFragment(sec.s)))
          case Some(v) => Reply(SectionFoundMessage(d.title, sec.s, v.node.title))
          case None => NoReply
  }

  /** The outcome of the first document that gives a reply or raises. */
  function FirstReply(q: Entities, docs: seq<Document>): Reply {
    if docs == [] then NoReply
    else if !DocReply(q, docs[0]).NoReply? then DocReply(q, docs[0])
    else FirstReply(q, docs[1..])
  }

  /** What `handle_structural_query` does: NoReply is its `None`. */
  function StructuralReply(analysis: Record, docs: seq<Document>): (r: Reply)
    ensures r.NoReply? <==> !IsStructural(analysis)
  {
    if !IsStructural(analysis) then NoReply
    else
      match ReadEntities(analysis)
      case None => Raises
      case Some(q) =>
        match FirstReply(q, Candidates(docs, TargetType(q.doc)))
        case NoReply => Reply(NotFoundMessage(q))
        case other => other
  }

  /** `handle_structural_query` */
  method HandleStructuralQuery(analysis: Record, docs: seq<Document>) returns (reply: Reply)
    ensures reply == StructuralReply(analysis, docs)
  {
    if !IsStructural(analysis) {
      return NoReply;
    }
    var entities := ReadEntities(analysis);
    if entities.None? {
      return Raises;
    }
    var q := entities.value;
    var toSearch := Candidates(docs, TargetType(q.doc));
    var i := 0;
    while i < |toSearch|
      invariant 0 <= i <= |toSearch|
      invariant FirstReply(q, toSearch) == FirstReply(q, toSearch[i..])
    {
      var d := toSearch[i];
      assert toSearch[i..][0] == d && toSearch[i..][1..] == toSearch[i + 1..];
      if q.article.Some? {
        var path := FindArticlePath(d.nodes, [], q.article.value);
        if path.Some? {
          return Reply(ArticleFoundMessage(q.article.value, d.title, path.value));
        }
      }
      if q.section.Some? {
        if !q.section.value.Str? {
          return Raises;
        }
        var term := NormalizeFragment(q.section.value.s);
        var node := FindNodeByTitle(d.nodes, term, []);
        if node.Some? {
          return Reply(SectionFoundMessage(d.title, q.section.value.s, node.value.title));
        }
      }
      i := i + 1;
    }
    return Reply(NotFoundMessage(q));
  }

  lemma {:induction false} FirstReplyAt(q: Entities, docs: seq<Document>, k: nat)
    requires k < |docs| && !DocReply(q, docs[k]).NoReply?
    requires forall j :: 0 <= j < k ==> DocReply(q, docs[j]).NoReply?
    ensures FirstReply(q, docs) == DocReply(q, docs[k])
  {
    if k > 0 {
      assert forall j :: 0 <= j < k - 1 ==> docs[1..][j] == docs[j + 1];
      FirstReplyAt(q, docs[1..], k - 1);
    }
  }

  lemma {:induction false} FirstReplyNone(q: Entities, docs: seq<Document>)
    requires forall j :: 0 <= j < |docs| ==> DocReply(q, docs[j]).NoReply?
    ensures FirstReply(q, docs).NoReply?
  {
    if docs != [] {
      assert forall j :: 0 <= j < |docs| - 1 ==> docs[1..][j] == docs[j + 1];
      FirstReplyNone(q, docs[1..]);
    }
  }

  /** The handler raises exactly when reading the entities raises, or when
      the section is truthy but not a string and the first candidate
      document does not list the asked article: that document's section
      search is the first to call `lower()` on it. */
  lemma StructuralRaises(analysis: Record, docs: seq<Document>)
    requires IsStructural(analysis)
    ensures StructuralReply(analysis, docs).Raises? <==>
      || ReadEntities(analysis).None?
      || (var q := ReadEntities(analysis).value; var cs := Candidates(docs, TargetType(q.doc));
          q.section.Some? && !q.section.value.Str? && cs != [] && ArticleIn(q, cs[0]).None?)
  {
    if ReadEntities(analysis).Some? {
      var q := ReadEntities(analysis).value;
      var cs := Candidates(docs, TargetType(q.doc));
      if q.section.Some? && !q.section.value.Str? && cs != [] {
        FirstReplyAt(q, cs, 0);
      } else if q.section.None? || q.section.value.Str? {
        FirstReplyNeverRaises(q, cs);
      }
    }
  }

  /** With a string section, or none, no document raises. */
  lemma {:induction false} FirstReplyNeverRaises(q: Entities, docs: seq<Document>)
    requires q.section.None? || q.section.value.Str?
    ensures !FirstReply(q, docs).Raises?
  {
    if docs != [] {
      FirstReplyNeverRaises(q, docs[1..]);
    }
  }

  /** Asked only for an article, the handler names the first candidate
      document having a node that lists it, with the path to the first such
      node. */
  lemma ArticleReply(analysis: Record, docs: seq<Document>, k: nat)
    requires IsStructural(analysis) && ReadEntities(analysis).Some?
    requires var q := ReadEntities(analysis).value; q.article.Some? && q.section.None?
    requires var q := ReadEntities(analysis).value; var cs := Candidates(docs, TargetType(q.doc));
      k < |cs| && Search(cs[k].nodes, [], ListsArticle(q.article.value)).Some?
      && forall j :: 0 <= j < k ==> Search(cs[j].nodes, [], ListsArticle(q.article.value)).None?
    ensures var q := ReadEntities(analysis).value; var cs := Candidates(docs, TargetType(q.doc));
      StructuralReply(analysis, docs)
        == Reply("L'articolo " + q.article.value + " si trova nel documento '" + cs[k].title + "' all'interno del percorso: "
                 + Join(" -> ", Search(cs[k].nodes, [], ListsArticle(q.article.value)).value.path) + ".")
  {
    var q := ReadEntities(analysis).value;
    var cs := Candidates(docs, TargetType(q.doc));
    FirstReplyAt(q, cs, k);
  }

  /** When no candidate document answers, the article message comes first,
      then the section message, and with neither entity the query is not
      recognised. */
  lemma NothingFound(analysis: Record, docs: seq<Document>)
    requires IsStructural(analysis) && ReadEntities(analysis).Some?
    requires NoCandidateAnswers(ReadEntities(analysis).value, docs)
    ensures var q := ReadEntities(analysis).value; var r := StructuralReply(analysis, docs);
      && (q.article.Some? ==> r == Reply("Non \U{e8} stato possibile trovare l'articolo " + q.article.value + " " + DocInfo(q.doc) + "."))
      && (q.article.None? && q.section.Some? ==>
            r == Reply("Nessuna sezione corrispondente a '" + PyStr(q.section.value) + "' \U{e8} stata trovata " + DocInfo(q.doc) + "."))
      && (q.article.None? && q.section.None? ==> r == Reply("Query strutturale non riconosciuta."))
  {
    var q := ReadEntities(analysis).value;
    var cs := Candidates(docs, TargetType(q.doc));
    forall j | 0 <= j < |cs|
      ensures DocReply(q, cs[j]).NoReply?
    {
      DocReplyNone(q, cs[j]);
    }
    FirstReplyNone(q, cs);
  }

  /** Neither search finds anything in the document, and the section search
      does not raise. */
  predicate Unanswered(q: Entities, d: Document) {
    && ArticleIn(q, d).None?
    && (q.section.None? ||
          (q.section.value.Str? && Search(d.nodes, [], TitleMatches(NormalizeFragment(q.section.value.s))).None?))
  }

  /** No candidate document for the query answers it. */
  predicate NoCandidateAnswers(q: Entities, docs: seq<Document>) {
    var cs := Candidates(docs, TargetType(q.doc));
    forall j :: 0 <= j < |cs| ==> Unanswered(q, cs[j])
  }

  lemma DocReplyNone(q: Entities, d: Document)
    requires Unanswered(q, d)
    ensures DocReply(q, d).NoReply?
  {
  }

  /** A structural query with neither an article nor a section is not
      recognised, whatever the documents. */
  lemma UnrecognisedQuery(analysis: Record, docs: seq<Document>)
    requires IsStructural(analysis) && ReadEntities(analysis).Some?
    requires ReadEntities(analysis).value.article.None? && ReadEntities(analysis).value.section.None?
    ensures StructuralReply(analysis, docs) == Reply("Query strutturale non riconosciuta.")
  {
    var q := ReadEntities(analysis).value;
    var cs := Candidates(docs, TargetType(q.doc));
    assert forall d :: DocReply(q, d).NoReply?;
    FirstReplyNone(q, cs);
  }
}
