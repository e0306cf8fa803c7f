// The retrieval side of the query engine: the vector-store filter built
// from the router's entities, the search (an oracle here) and the lexical
// re-ranking of its hits (`run_rag_search`, `rerank_results`).
module Retriever {
  import opened Wrappers
  import opened Text
  import opened Json
  import opened WordReplace
  import opened StableSort
  import Resolver

  /** A search hit: its similarity score and its payload (the stored chunk). */
  datatype Hit = Hit(score: real, payload: Record)

  // ---------------------------------------------------------------------
  // Re-ranking

  /** The maximal runs of at least three word characters, in order
      (`re.findall(r'\b\w{3,}\b', s)`). */
  function LongWords(s: string): (r: seq<string>)
    ensures forall k :: 0 <= k < |r| ==> |r[k]| >= 3 && AllWord(r[k]) && Contains(s, r[k])
    decreases |s|
  {
    if s == [] then []
    else if !IsWordChar(s[0]) then
      var rest := LongWords(s[1..]);
      LongWordsShift(s, 1, rest);
      rest
    else
      var n := RunLen(s);
      var rest := LongWords(s[n..]);
      LongWordsShift(s, n, rest);
      if n >= 3 then
        assert OccursAt(s[..n], s, 0);
        [s[..n]] + rest
      else rest
  }

  lemma LongWordsShift(s: string, n: nat, rest: seq<string>)
    requires n <= |s|
    requires forall k :: 0 <= k < |rest| ==> Contains(s[n..], rest[k])
    ensures forall k :: 0 <= k < |rest| ==> Contains(s, rest[k])
  {
    forall k | 0 <= k < |rest| ensures Contains(s, rest[k]) {
      ContainsWidens(s[n..], rest[k], s[..n], "");
      assert s[..n] + s[n..] + "" == s;
    }
  }

  /** The distinct query words of at least three characters, lower-cased. */
  function QueryWords(query: string): set<string> {
    set w | w in LongWords(Lower(query))
  }

  /** How many query words occur in the lower-cased keyword. */
  function Overlap(kw: string, words: set<string>): nat {
    |set w | w in words && Contains(Lower(kw), w)|
  }

  /** `sum(0.01 for kw in keywords for word in query_words if word in kw.lower())` */
  function Bonus(keywords: seq<string>, words: set<string>): (b: real)
    ensures b >= 0.0
    ensures b == 0.0 <==> forall k :: 0 <= k < |keywords| ==> Overlap(keywords[k], words) == 0
  {
    if keywords == [] then 0.0
    else 0.01 * (Overlap(keywords[0], words) as real) + Bonus(keywords[1..], words)
  }

  /** The score a hit is re-ranked by. */
  function FinalScore(words: set<string>): Hit -> real {
    (h: Hit) => h.score + Bonus(GetStrs(h.payload, "keywords"), words)
  }

  /** `rerank_results`: pairs each hit with its final score, sorts the pairs
      by score, highest first (a stable sort), and keeps the hits. */
  method Rerank(hits: seq<Hit>, query: string) returns (reranked: seq<Hit>)
    ensures reranked == SortDesc(hits, FinalScore(QueryWords(query)))
  {
    var words := QueryWords(query);
    var key := FinalScore(words);
    var scored: seq<(real, Hit)> := [];
    var i := 0;
    while i < |hits|
      invariant 0 <= i <= |hits|
      invariant scored == Decorate(hits[..i], key)
    {
      var hit := hits[i];
      var bonus := Bonus(GetStrs(hit.payload, "keywords"), words);
      scored := scored + [(hit.score + bonus, hit)];
      i := i + 1;
    }
    assert hits[..|hits|] == hits;
    var sorted := SortDesc(scored, PairKey());
    reranked := Undecorate(sorted);
    SortDecorated(hits, key);
  }

  /** Re-ranking returns the same hits, each as often as before, ordered by
      non-increasing final score; hits with equal final scores keep their
      search order. */
  lemma RerankIsStablePermutation(hits: seq<Hit>, query: string)
    ensures var key := FinalScore(QueryWords(query)); var r := SortDesc(hits, key);
      && multiset(r) == multiset(hits)
      && (forall i, j :: 0 <= i < j < |r| ==> key(r[i]) >= key(r[j]))
      && forall v :: WithKey(r, v, key) == WithKey(hits, v, key)
  {
    SortDescFacts(hits, FinalScore(QueryWords(query)));
  }

  /** Hits already in non-increasing score order whose keywords share no
      word with the query come back in the same order. */
  lemma RerankWithoutOverlap(hits: seq<Hit>, query: string)
    requires forall i, j :: 0 <= i < j < |hits| ==> hits[i].score >= hits[j].score
    requires forall i :: 0 <= i < |hits| ==> Bonus(GetStrs(hits[i].payload, "keywords"), QueryWords(query)) == 0.0
    ensures SortDesc(hits, FinalScore(QueryWords(query))) == hits
  {
    SortDescIdentity(hits, FinalScore(QueryWords(query)));
  }

  // ---------------------------------------------------------------------
  // The filter and the search

  /** The most hits asked of the vector store. */
  const SearchLimit := 20

  /** A condition of the vector-store filter: a payload field equal to a
      value, or a group of conditions of which one must hold. */
  datatype Condition = FieldMatch(key: string, value: string) | AnyOf(should: seq<Condition>)

  /** The conditions `run_rag_search` requires of every hit; None when
      building them raised (the search then returns no hits). */
  function MustConditions(analysis: Record): (r: Option<seq<Condition>>)
    ensures r.None? <==>
      ("entities" in analysis && !analysis["entities"].Obj?)
      || (var e := Resolver.EntitiesOf(analysis); "documento" in e && Truthy(e["documento"]) && !e["documento"].Str?)
  {
    if "entities" in analysis && !analysis["entities"].Obj? then None
    else
      var e := Resolver.EntitiesOf(analysis);
      if "documento" in e && Truthy(e["documento"]) && !e["documento"].Str? then None
      else Some(DocCondition(e) + ArticleCondition(e))
  }

  /** The document-type condition: only for a document name that maps to a type. */
  function DocCondition(e: Record): (r: seq<Condition>)
    ensures |r| <= 1
    ensures r != [] <==> "documento" in e && e["documento"].Str? && Resolver.DocTypeOf(Lower(e["documento"].s)).Some?
    ensures r != [] ==> r[0] == FieldMatch("document_type", Resolver.DocTypeOf(Lower(e["documento"].s)).value)
  {
    if "documento" in e && e["documento"].Str? && e["documento"].s != "" then
      match Resolver.DocTypeOf(Lower(e["documento"].s))
      case Some(t) => [FieldMatch("document_type", t)]
      case None => []
    else []
  }

  /** The article condition: present whenever the key is, one equality on
      `str(value)`, or for a list one group of equalities on its items. */
  function ArticleCondition(e: Record): (r: seq<Condition>)
    ensures |r| <= 1
    ensures r != [] <==> "articolo" in e
    ensures "articolo" in e && e["articolo"].Strs? ==>
      var items := e["articolo"].items;
      r[0].AnyOf? && |r[0].should| == |items|
      && forall k :: 0 <= k < |items| ==> r[0].should[k] == FieldMatch("articolo", items[k])
    ensures "articolo" in e && !e["articolo"].Strs? ==> r[0] == FieldMatch("articolo", PyStr(e["articolo"]))
  {
    if "articolo" !in e then []
    else match e["articolo"]
      case Strs(items) => [AnyOf(seq(|items|, k requires 0 <= k < |items| => FieldMatch("articolo", items[k])))]
      case v => [FieldMatch("articolo", PyStr(v))]
  }

  /** The filter passed to the search: none when there is no condition. */
  function FilterOf(conds: seq<Condition>): Option<seq<Condition>> {
    if conds == [] then None else Some(conds)
  }

  /** `run_rag_search`. `search(filter, limit)` is the embedding of the
      question followed by the vector-store query, None when either raised. */
  method RunRagSearch(analysis: Record, question: string, search: (Option<seq<Condition>>, nat) -> Option<seq<Hit>>)
    returns (hits: seq<Hit>)
    ensures hits == match MustConditions(analysis)
      case None => []
      case Some(conds) => match search(FilterOf(conds), SearchLimit)
        case None => []
        case Some(found) => SortDesc(found, FinalScore(QueryWords(question)))
  {
    if "entities" in analysis && !analysis["entities"].Obj? {
      return [];
    }
    var entities := Resolver.EntitiesOf(analysis);
    var must: seq<Condition> := [];
    if "documento" in entities && Truthy(entities["documento"]) {
      if !entities["documento"].Str? {
        return [];
      }
      var docType := Resolver.DocTypeOf(Lower(entities["documento"].s));
      if docType.Some? {
        must := must + [FieldMatch("document_type", docType.value)];
      }
    }
    if "articolo" in entities {
      var values := entities["articolo"];
      if values.Strs? {
        var should: seq<Condition> := [];
        var k := 0;
        while k < |values.items|
          invariant 0 <= k <= |values.items|
          invariant should == seq(k, j requires 0 <= j < k => FieldMatch("articolo", values.items[j]))
        {
          should := should + [FieldMatch("articolo", values.items[k])];
          k := k + 1;
        }
        must := must + [AnyOf(should)];
      } else {
        must := must + [FieldMatch("articolo", PyStr(values))];
      }
    }
    assert must == DocCondition(entities) + ArticleCondition(entities);
    var filter := if must == [] then None else Some(must);
    var found := search(filter, SearchLimit);
    if found.None? {
      return [];
    }
    hits := Rerank(found.value, question);
  }
}
