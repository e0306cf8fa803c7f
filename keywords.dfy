// Keyword enrichment of the Constitution (`a_cost/2_create_keywords.py`):
// the articles cut from the converted text are taken in text order; an
// article already in the progress file, or without text, is skipped; any
// other is split into paragraphs by the language model, and each paragraph
// gets its keywords from a second call whose prompt names the section of
// the article and the section's summary. The records of an article are
// saved only when all its calls succeeded; the first failure ends the run
// and leaves the progress file in place, while a run that completes renames
// it to the final file if it exists. The model and the JSON decoder are
// parameters: `reply` answers the n-th request (None for a failed call) and
// the decoders return None for a reply they cannot decode.
module Keywords {
  import opened Wrappers
  import opened Text
  import opened Json
  import opened JsonExtract
  import opened Structure
  import opened OrderedMaps
  import opened Segmentation

  const DefaultTitle := "Contesto Generale"

  // ---------------------------------------------------------------------
  // The section of an article

  /** The pairs of the dict comprehension, leaf by leaf and article by
      article: each article listed by a leaf paired with the leaf's title. */
  function TitlePairs(leaves: seq<Node>): seq<(Value, string)> {
    if leaves == [] then []
    else TitlePairs(leaves[..|leaves| - 1]) + LeafPairs(leaves[|leaves| - 1])
  }

  function LeafPairs(leaf: Node): (ps: seq<(Value, string)>)
    ensures |ps| == |leaf.articles|
    ensures forall i :: 0 <= i < |ps| ==> ps[i] == (leaf.articles[i], leaf.title)
  {
    seq(|leaf.articles|, i requires 0 <= i < |leaf.articles| => (leaf.articles[i], leaf.title))
  }

  /** `article_to_nodetitle_map` */
  function NodeTitles(structure: seq<Node>): map<Value, string> {
    LastWins(TitlePairs(LeafNodes(structure)))
  }

  /** `article_to_nodetitle_map.get(article_id, "Contesto Generale")`: the
      map's keys are the articles as listed in the structure, so an article
      listed as a number is not found under its textual id. */
  function SectionOf(titles: map<Value, string>, id: string): string {
    if Str(id) in titles then titles[Str(id)] else DefaultTitle
  }

  /** A leaf's pairs bind each of its articles to its title. */
  lemma {:induction false} LeafPairsWin(leaf: Node)
    ensures forall a :: a in LastWins(LeafPairs(leaf)) <==> a in leaf.articles
    ensures forall a :: a in LastWins(LeafPairs(leaf)) ==> LastWins(LeafPairs(leaf))[a] == leaf.title
  {
    var ps := LeafPairs(leaf);
    LastWinsKeys(ps);
    LastWinsValues(ps, leaf.title);
    forall a | a in leaf.articles ensures a in LastWins(ps) {
      var i :| 0 <= i < |leaf.articles| && leaf.articles[i] == a;
      assert ps[i].0 == a;
    }
  }

  /** All pairs carry the same value: so does the map they leave. */
  lemma {:induction false} LastWinsValues(ps: seq<(Value, string)>, t: string)
    requires forall i :: 0 <= i < |ps| ==> ps[i].1 == t
    ensures forall a :: a in LastWins(ps) ==> LastWins(ps)[a] == t
  {
    if ps != [] {
      LastWinsValues(ps[..|ps| - 1], t);
    }
  }

  /** An article is in the map iff some leaf lists it, and then it names
      the last leaf, in pre-order, that lists it. */
  lemma {:induction false} TitlesLastLeaf(leaves: seq<Node>, a: Value)
    ensures a in LastWins(TitlePairs(leaves)) <==> exists j :: 0 <= j < |leaves| && a in leaves[j].articles
    ensures forall j :: (0 <= j < |leaves| && a in leaves[j].articles &&
                         forall l :: j < l < |leaves| ==> a !in leaves[l].articles) ==>
        LastWins(TitlePairs(leaves))[a] == leaves[j].title
  {
    if leaves != [] {
      var init := leaves[..|leaves| - 1];
      var last := leaves[|leaves| - 1];
      TitlesLastLeaf(init, a);
      LastWinsAppend(TitlePairs(init), LeafPairs(last));
      LeafPairsWin(last);
      if a !in last.articles {
        forall j | 0 <= j < |leaves| - 1 && a in leaves[j].articles
          ensures a in init[j].articles
        {
        }
        if a in LastWins(TitlePairs(leaves)) {
          var j :| 0 <= j < |init| && a in init[j].articles;
          assert a in leaves[j].articles;
        }
      }
    }
  }

  /** `article_to_nodetitle_map`: a shared article takes the title of the
      last leaf node, in pre-order, that lists it. */
  lemma NodeTitlesSpec(structure: seq<Node>, a: Value)
    ensures var leaves := LeafNodes(structure);
      && (a in NodeTitles(structure) <==> exists j :: 0 <= j < |leaves| && a in leaves[j].articles)
      && forall j :: (0 <= j < |leaves| && a in leaves[j].articles &&
                      forall l :: j < l < |leaves| ==> a !in leaves[l].articles) ==>
             NodeTitles(structure)[a] == leaves[j].title
  {
    var leaves := LeafNodes(structure);
    TitlesLastLeaf(leaves, a);
    assert NodeTitles(structure) == LastWins(TitlePairs(leaves));
  }

  // ---------------------------------------------------------------------
  // The model's replies

  /** What the prompts are filled with: an article's text to split, or a
      paragraph's text with the title and summary of its section. */
  datatype Request =
    | Split(articleText: string)
    | Keywords(section: string, summary: Value, commaText: Value)

  /** The model, numbered by call, and the decoders of its two replies:
      a list of paragraph objects, and any JSON value. */
  datatype Oracle = Oracle(reply: (nat, Request) -> Option<string>,
                           parseCommi: string -> Option<seq<Record>>,
                           parseKeywords: string -> Option<Value>)

  /** What `json.loads` is given: the body of the first ```json fence
      holding a list, or else the whole reply. */
  function Unfenced(text: string): (r: string)
    ensures FirstFence(text, 0, ListShape).None? ==> r == text
    ensures FirstFence(text, 0, ListShape).Some? ==>
      |r| >= 2 && r[0] == '[' && r[|r| - 1] == ']' && Contains(text, r)
  {
    match FencedGroup(text, ListShape)
    case Some(g) => g
    case None => text
  }

  /** A fenced list is found again: the same body as the list form of
      `clean_json_from_text` extracts. */
  lemma UnfencedRoundTrip(inner: string)
    requires ']' !in inner
    ensures Unfenced(FenceTag + "\n" + ("[" + inner + "]") + "\n" + FenceEnd) == "[" + inner + "]"
  {
    var text := FenceTag + "\n" + ("[" + inner + "]") + "\n" + FenceEnd;
    FencedBody(inner, ListShape);
    assert FirstFence(text, 0, ListShape) == Some(0);
  }

  /** The first call for an article: its paragraphs, None on any failure. */
  function CommiOf(call: nat, text: string, o: Oracle): Option<seq<Record>> {
    var reply := o.reply(call, Split(text));
    if reply.None? then None else o.parseCommi(Unfenced(reply.value))
  }

  /** The second call, for one paragraph of article `id`. */
  function KeywordsOf(call: nat, id: string, item: Record, titles: map<Value, string>,
                      summaries: Record, o: Oracle): Option<Value>
  {
    var section := SectionOf(titles, id);
    var summary := GetOr(summaries, section, Str(""));
    var reply := o.reply(call, Keywords(section, summary, GetOr(item, "testo", Null)));
    if reply.None? then None else o.parseKeywords(Unfenced(reply.value))
  }

  /** The two steps as the loops see them. */
  type Splitter = (nat, string) -> Option<seq<Record>>
  type Keyworder = (nat, string, Record) -> Option<Value>

  function SplitWith(o: Oracle): Splitter {
    (call: nat, text: string) => CommiOf(call, text, o)
  }

  function KeywordsWith(titles: map<Value, string>, summaries: Record, o: Oracle): Keyworder {
    (call: nat, id: string, item: Record) => KeywordsOf(call, id, item, titles, summaries, o)
  }

  // ---------------------------------------------------------------------
  // One article

  /** The record saved for a paragraph. */
  function Enriched(id: string, item: Record, keywords: Value): (r: Record) {
    map["articolo" := Str(id), "comma" := GetOr(item, "comma", Null),
        "testo_originale_comma" := GetOr(item, "testo", Null), "keywords" := keywords]
  }

  /** The record of article `id` for paragraph `item`, with some keywords. */
  predicate IsEnriched(r: Record, id: string, item: Record) {
    && r.Keys == {"articolo", "comma", "testo_originale_comma", "keywords"}
    && r["articolo"] == Str(id)
    && r["comma"] == GetOr(item, "comma", Null)
    && r["testo_originale_comma"] == GetOr(item, "testo", Null)
  }

  predicate AllEnriched(rs: seq<Record>, id: string, items: seq<Record>) {
    |rs| == |items| && forall m :: 0 <= m < |items| ==> IsEnriched(rs[m], id, items[m])
  }

  /** The state of the paragraph loop: the records made, the calls made and
      whether a call failed. */
  datatype ArticleState = ArticleState(records: seq<Record>, calls: nat, failed: bool)

  /** The paragraph loop from paragraph `k` on. */
  function EnrichCommi(id: string, items: seq<Record>, k: nat, st: ArticleState, kw: Keyworder): ArticleState
    decreases |items| - k
  {
    if k >= |items| then st
    else
      var keywords := kw(st.calls, id, items[k]);
      if keywords.None? then ArticleState(st.records, st.calls + 1, true)
      else EnrichCommi(id, items, k + 1, ArticleState(st.records + [Enriched(id, items[k], keywords.value)], st.calls + 1, st.failed), kw)
  }

  /** The body of the `try` for one article. */
  function EnrichArticle(id: string, text: string, calls: nat, split: Splitter, kw: Keyworder): ArticleState {
    var commi := split(calls, text);
    if commi.None? then ArticleState([], calls + 1, true)
    else EnrichCommi(id, commi.value, 0, ArticleState([], calls + 1, false), kw)
  }

  lemma AllEnrichedCons(x: Record, item: Record, rs: seq<Record>, id: string, items: seq<Record>)
    requires IsEnriched(x, id, item) && AllEnriched(rs, id, items)
    ensures AllEnriched([x] + rs, id, [item] + items)
  {
    forall m | 0 <= m < |items| + 1 ensures IsEnriched(([x] + rs)[m], id, ([item] + items)[m]) {
      if m > 0 {
        assert ([x] + rs)[m] == rs[m - 1];
        assert ([item] + items)[m] == items[m - 1];
      }
    }
  }

  /** The paragraph loop keeps the records made before; when no call fails
      it adds one record per paragraph, in order, and each call is counted. */
  lemma {:induction false} EnrichCommiSpec(id: string, items: seq<Record>, k: nat, st: ArticleState, kw: Keyworder)
    requires k <= |items| && !st.failed
    ensures var r := EnrichCommi(id, items, k, st, kw);
      && |r.records| >= |st.records| && r.records[..|st.records|] == st.records
      && st.calls <= r.calls && r.calls <= st.calls + |items| - k
      && (!r.failed ==> AllEnriched(r.records[|st.records|..], id, items[k..]) && r.calls == st.calls + |items| - k)
    decreases |items| - k
  {
    if k == |items| {
      assert st.records[|st.records|..] == [] && items[k..] == [];
    } else {
      var keywords := kw(st.calls, id, items[k]);
      if keywords.Some? {
        var x := Enriched(id, items[k], keywords.value);
        var next := ArticleState(st.records + [x], st.calls + 1, st.failed);
        EnrichCommiSpec(id, items, k + 1, next, kw);
        var r := EnrichCommi(id, items, k + 1, next, kw);
        assert r.records[..|st.records|] == r.records[..|next.records|][..|st.records|];
        if !r.failed {
          assert r.records[|st.records|] == r.records[..|next.records|][|st.records|];
          assert r.records[|st.records|..] == [x] + r.records[|next.records|..];
          assert items[k..] == [items[k]] + items[k + 1..];
          AllEnrichedCons(x, items[k], r.records[|next.records|..], id, items[k + 1..]);
        }
      }
    }
  }

  /** An article that did not fail has one record per paragraph the model
      returned, each naming the article; a failed article keeps nothing of
      its own, since its records are dropped with it. */
  lemma EnrichArticleSpec(id: string, text: string, calls: nat, split: Splitter, kw: Keyworder)
    ensures var r := EnrichArticle(id, text, calls, split, kw);
      && calls < r.calls
      && (!r.failed ==> split(calls, text).Some? && AllEnriched(r.records, id, split(calls, text).value))
  {
    var commi := split(calls, text);
    if commi.Some? {
      var st := ArticleState([], calls + 1, false);
      EnrichCommiSpec(id, commi.value, 0, st, kw);
      var r := EnrichCommi(id, commi.value, 0, st, kw);
      assert r.records[0..] == r.records && commi.value[0..] == commi.value;
    }
  }

  // ---------------------------------------------------------------------
  // The run

  /** The state of the article loop: the records of the progress file, the
      calls made, the articles saved, whether the progress file exists, and
      the article whose failure ended the run. */
  datatype RunState = RunState(enriched: seq<Record>, calls: nat, saved: seq<string>, written: bool,
                               stopped: Option<string>)

  /** `processed_articles`: the articles of the loaded records. */
  function Processed(records: seq<Record>): set<Value> {
    set r | r in records :: GetOr(r, "articolo", Null)
  }

  /** Whether article `id` is worked on: not processed, and with text. */
  predicate Pending(articles: Dict<string, string>, processed: set<Value>, id: string) {
    Str(id) !in processed && articles.Get(id, "") != ""
  }

  /** The record belongs to one of the articles `ids`. */
  predicate OfArticle(rec: Record, ids: seq<string>) {
    "articolo" in rec && exists id :: id in ids && rec["articolo"] == Str(id)
  }

  /** The article loop from article `j` of the text on. */
  function RunArticles(articles: Dict<string, string>, processed: set<Value>, j: nat, st: RunState,
                       split: Splitter, kw: Keyworder): RunState
    decreases |articles.keys| - j
  {
    if j >= |articles.keys| then st
    else
      var id := articles.keys[j];
      if !Pending(articles, processed, id) then RunArticles(articles, processed, j + 1, st, split, kw)
      else
        var a := EnrichArticle(id, articles.Get(id, ""), st.calls, split, kw);
        if a.failed then RunState(st.enriched, a.calls, st.saved, st.written, Some(id))
        else RunArticles(articles, processed, j + 1, RunState(st.enriched + a.records, a.calls, st.saved + [id], true, None), split, kw)
  }

  /** What a run leaves: the records in the progress (or final) file, the
      articles saved, the calls made, the article that failed, and whether
      the progress file was renamed to the final one. */
  datatype Outcome = Outcome(enriched: seq<Record>, saved: seq<string>, calls: nat,
                             stopped: Option<string>, renamed: bool)

  /** The run over an article map that is not empty, from the loaded
      records and whether the progress file exists. */
  function RunOn(articles: Dict<string, string>, prior: seq<Record>, progressExists: bool,
                 split: Splitter, kw: Keyworder): Outcome
  {
    var st := RunArticles(articles, Processed(prior), 0, RunState(prior, 0, [], progressExists, None), split, kw);
    Outcome(st.enriched, st.saved, st.calls, st.stopped, st.stopped.None? && st.written)
  }

  /** `generate_keywords`, given the structure, the summaries, the converted
      text (None when the conversion failed) with its heading matches, and
      the progress file (None when there is none). An empty article map
      ends the run before the progress file is read. */
  function KeywordRun(structure: seq<Node>, summaries: Record, converted: Option<string>, hs: seq<Heading>,
                      progress: Option<seq<Record>>, o: Oracle): Outcome
  {
    var articles := ArticleMap(AfterHeading, converted, hs);
    var prior := if progress.Some? then progress.value else [];
    if articles.keys == [] then Outcome(prior, [], 0, None, false)
    else RunOn(articles, prior, progress.Some?, SplitWith(o), KeywordsWith(NodeTitles(structure), summaries, o))
  }

  /** The records one article appends belong to it, and the records after
      them to the articles saved after it. */
  lemma SavedRecordsOf(before: seq<Record>, saved: seq<string>, records: seq<Record>, id: string, items: seq<Record>,
                       after: seq<Record>, saved': seq<string>)
    requires AllEnriched(records, id, items)
    requires |after| >= |before + records| && after[..|before + records|] == before + records
    requires |saved'| > |saved| && saved'[|saved|] == id
    requires forall k :: |before + records| <= k < |after| ==> OfArticle(after[k], saved'[|saved| + 1..])
    ensures forall k :: |before| <= k < |after| ==> OfArticle(after[k], saved'[|saved|..])
  {
    forall k | |before| <= k < |after|
      ensures OfArticle(after[k], saved'[|saved|..])
    {
      if k < |before + records| {
        assert after[k] == (before + records)[k] == records[k - |before|];
        assert IsEnriched(records[k - |before|], id, items[k - |before|]);
        assert id in saved'[|saved|..];
      } else {
        var i :| i in saved'[|saved| + 1..] && after[k]["articolo"] == Str(i);
        assert saved'[|saved| + 1..] == saved'[|saved|..][1..];
      }
    }
  }

  /** The loop keeps the records loaded, and appends only records of the
      articles it saves, each of them pending and later in the text; the
      article that failed is pending and left unsaved. */
  lemma {:induction false} RunArticlesSpec(articles: Dict<string, string>, processed: set<Value>, j: nat, st: RunState,
                                           split: Splitter, kw: Keyworder)
    requires j <= |articles.keys| && st.stopped.None?
    ensures var r := RunArticles(articles, processed, j, st, split, kw);
      && |r.enriched| >= |st.enriched| && r.enriched[..|st.enriched|] == st.enriched
      && |r.saved| >= |st.saved| && r.saved[..|st.saved|] == st.saved
      && (forall id :: id in r.saved ==> id in st.saved || (id in articles.keys[j..] && Pending(articles, processed, id)))
      && (forall k :: |st.enriched| <= k < |r.enriched| ==> OfArticle(r.enriched[k], r.saved[|st.saved|..]))
      && (r.stopped.Some? ==> r.stopped.value in articles.keys[j..] && Pending(articles, processed, r.stopped.value))
      && r.written == (st.written || r.saved != st.saved)
      && st.calls <= r.calls
    decreases |articles.keys| - j
  {
    if j < |articles.keys| {
      var id := articles.keys[j];
      assert articles.keys[j + 1..] == articles.keys[j..][1..];
      if !Pending(articles, processed, id) {
        RunArticlesSpec(articles, processed, j + 1, st, split, kw);
      } else {
        var a := EnrichArticle(id, articles.Get(id, ""), st.calls, split, kw);
        EnrichArticleSpec(id, articles.Get(id, ""), st.calls, split, kw);
        if !a.failed {
          var next := RunState(st.enriched + a.records, a.calls, st.saved + [id], true, None);
          RunArticlesSpec(articles, processed, j + 1, next, split, kw);
          var r := RunArticles(articles, processed, j + 1, next, split, kw);
          assert r.enriched[..|st.enriched|] == r.enriched[..|next.enriched|][..|st.enriched|];
          assert r.saved[..|st.saved|] == r.saved[..|next.saved|][..|st.saved|];
          assert id in articles.keys[j..];
          assert r.saved[|st.saved|] == r.saved[..|next.saved|][|st.saved|] == id;
          SavedRecordsOf(st.enriched, st.saved, a.records, id, split(st.calls, articles.Get(id, "")).value, r.enriched, r.saved);
        } else {
          assert id in articles.keys[j..];
        }
      }
    }
  }

  /** The pending articles from article `j` of the text on, in text order. */
  function PendingIds(articles: Dict<string, string>, processed: set<Value>, j: nat): seq<string>
    decreases |articles.keys| - j
  {
    if j >= |articles.keys| then []
    else (if Pending(articles, processed, articles.keys[j]) then [articles.keys[j]] else []) + PendingIds(articles, processed, j + 1)
  }

  /** The loop works through the pending articles in text order: the
      articles it saves, followed by the one that failed, are the first
      pending ones, and a loop that did not fail saved every pending one. */
  lemma {:induction false} RunArticlesComplete(articles: Dict<string, string>, processed: set<Value>, j: nat, st: RunState,
                                               split: Splitter, kw: Keyworder)
    requires j <= |articles.keys| && st.stopped.None?
    ensures var r := RunArticles(articles, processed, j, st, split, kw);
      && |r.saved| >= |st.saved| && r.saved[..|st.saved|] == st.saved
      && (r.stopped.None? ==> r.saved[|st.saved|..] == PendingIds(articles, processed, j))
      && (r.stopped.Some? ==> r.saved[|st.saved|..] + [r.stopped.value] <= PendingIds(articles, processed, j))
    decreases |articles.keys| - j
  {
    if j < |articles.keys| {
      var id := articles.keys[j];
      if !Pending(articles, processed, id) {
        RunArticlesComplete(articles, processed, j + 1, st, split, kw);
      } else {
        var a := EnrichArticle(id, articles.Get(id, ""), st.calls, split, kw);
        var rest := PendingIds(articles, processed, j + 1);
        assert PendingIds(articles, processed, j) == [id] + rest;
        if !a.failed {
          var next := RunState(st.enriched + a.records, a.calls, st.saved + [id], true, None);
          RunArticlesComplete(articles, processed, j + 1, next, split, kw);
          var r := RunArticles(articles, processed, j + 1, next, split, kw);
          var done := r.saved[|next.saved|..];
          assert r.saved[..|st.saved|] == r.saved[..|next.saved|][..|st.saved|];
          assert r.saved[|st.saved|..] == [id] + done;
          if r.stopped.Some? {
            assert [id] + done + [r.stopped.value] == [id] + (done + [r.stopped.value]);
          }
        }
      }
    }
  }

  /** Block `p` holds the records of article `ids[p]`: one per paragraph
      the model returned at call `calls[p]`. */
  predicate BlocksFor(blocks: seq<seq<Record>>, calls: seq<nat>, ids: seq<string>, articles: Dict<string, string>, split: Splitter)
  {
    && |blocks| == |calls| == |ids|
    && forall p :: 0 <= p < |blocks| ==>
         split(calls[p], articles.Get(ids[p], "")).Some?
         && AllEnriched(blocks[p], ids[p], split(calls[p], articles.Get(ids[p], "")).value)
  }

  /** Saving one more article puts its block in front of the blocks of the
      articles saved after it. */
  lemma BlocksForCons(saved: seq<string>, enriched: seq<Record>, id: string, b: seq<Record>, c: nat,
                      ids: seq<string>, blocks: seq<seq<Record>>, calls: seq<nat>,
                      r: RunState, articles: Dict<string, string>, split: Splitter)
    requires r.saved == saved + [id] + ids && r.enriched == enriched + b + Flatten(blocks)
    requires BlocksFor(blocks, calls, ids, articles, split)
    requires split(c, articles.Get(id, "")).Some? && AllEnriched(b, id, split(c, articles.Get(id, "")).value)
    ensures r.saved == saved + ([id] + ids) && r.enriched == enriched + Flatten([b] + blocks)
    ensures BlocksFor([b] + blocks, [c] + calls, [id] + ids, articles, split)
  {
    assert ([b] + blocks)[1..] == blocks;
    assert Flatten([b] + blocks) == b + Flatten(blocks);
    assert enriched + b + Flatten(blocks) == enriched + (b + Flatten(blocks));
    assert saved + [id] + ids == saved + ([id] + ids);
    var blocks', calls', ids' := [b] + blocks, [c] + calls, [id] + ids;
    forall p | 0 <= p < |blocks'|
      ensures split(calls'[p], articles.Get(ids'[p], "")).Some?
              && AllEnriched(blocks'[p], ids'[p], split(calls'[p], articles.Get(ids'[p], "")).value)
    {
      if p > 0 {
        assert blocks'[p] == blocks[p - 1] && calls'[p] == calls[p - 1] && ids'[p] == ids[p - 1];
      }
    }
  }

  /** The records the loop appends are those of the articles it saves,
      article by article in saved order. */
  lemma {:induction false} RunArticlesRecords(articles: Dict<string, string>, processed: set<Value>, j: nat, st: RunState,
                                              split: Splitter, kw: Keyworder)
    returns (ids: seq<string>, blocks: seq<seq<Record>>, calls: seq<nat>)
    requires j <= |articles.keys| && st.stopped.None?
    ensures var r := RunArticles(articles, processed, j, st, split, kw);
      && r.saved == st.saved + ids
      && r.enriched == st.enriched + Flatten(blocks)
      && BlocksFor(blocks, calls, ids, articles, split)
    decreases |articles.keys| - j
  {
    ids, blocks, calls := [], [], [];
    if j < |articles.keys| {
      var id := articles.keys[j];
      if !Pending(articles, processed, id) {
        ids, blocks, calls := RunArticlesRecords(articles, processed, j + 1, st, split, kw);
      } else {
        var a := EnrichArticle(id, articles.Get(id, ""), st.calls, split, kw);
        if !a.failed {
          EnrichArticleSpec(id, articles.Get(id, ""), st.calls, split, kw);
          var next := RunState(st.enriched + a.records, a.calls, st.saved + [id], true, None);
          var rest, bs, cs := RunArticlesRecords(articles, processed, j + 1, next, split, kw);
          BlocksForCons(st.saved, st.enriched, id, a.records, st.calls, rest, bs, cs,
                        RunArticles(articles, processed, j + 1, next, split, kw), articles, split);
          ids, blocks, calls := [id] + rest, [a.records] + bs, [st.calls] + cs;
        }
      }
    }
  }

  /** The ids of an ordered map are distinct, so an article saved before
      the one that failed is another article: the failed article has no
      record appended by the run. */
  lemma FailedArticleLeavesNothing(articles: Dict<string, string>, processed: set<Value>, st: RunState,
                                   split: Splitter, kw: Keyworder)
    requires articles.Valid() && st.stopped.None? && st.saved == []
    ensures var r := RunArticles(articles, processed, 0, st, split, kw);
      r.stopped.Some? ==>
        r.stopped.value !in r.saved &&
        forall k :: |st.enriched| <= k < |r.enriched| ==> GetOr(r.enriched[k], "articolo", Null) != Str(r.stopped.value)
  {
    var r := RunArticles(articles, processed, 0, st, split, kw);
    RunArticlesSpec(articles, processed, 0, st, split, kw);
    if r.stopped.Some? {
      StoppedAfterSaved(articles, processed, 0, st, split, kw);
      assert r.saved[|st.saved|..] == r.saved;
      forall k | |st.enriched| <= k < |r.enriched|
        ensures GetOr(r.enriched[k], "articolo", Null) != Str(r.stopped.value)
      {
        assert OfArticle(r.enriched[k], r.saved);
      }
    }
  }

  /** Every article saved comes before the one that failed, in the text. */
  lemma {:induction false} StoppedAfterSaved(articles: Dict<string, string>, processed: set<Value>, j: nat, st: RunState,
                                             split: Splitter, kw: Keyworder)
    requires articles.Valid() && j <= |articles.keys| && st.stopped.None?
    requires forall id :: id in st.saved ==> id in articles.keys[..j]
    ensures var r := RunArticles(articles, processed, j, st, split, kw);
      r.stopped.Some? ==> r.stopped.value !in r.saved
    decreases |articles.keys| - j
  {
    if j < |articles.keys| {
      var id := articles.keys[j];
      assert id !in articles.keys[..j];
      forall i | i in st.saved ensures i in articles.keys[..j + 1] {
        assert articles.keys[..j + 1] == articles.keys[..j] + [id];
      }
      if !Pending(articles, processed, id) {
        StoppedAfterSaved(articles, processed, j + 1, st, split, kw);
      } else {
        var a := EnrichArticle(id, articles.Get(id, ""), st.calls, split, kw);
        if !a.failed {
          var next := RunState(st.enriched + a.records, a.calls, st.saved + [id], true, None);
          assert articles.keys[..j + 1] == articles.keys[..j] + [id];
          StoppedAfterSaved(articles, processed, j + 1, next, split, kw);
        }
      }
    }
  }

  /** With every article already processed or without text, a rerun makes
      no call and saves nothing. */
  lemma {:induction false} NothingPendingNoCalls(articles: Dict<string, string>, processed: set<Value>, j: nat, st: RunState,
                                                 split: Splitter, kw: Keyworder)
    requires forall i :: j <= i < |articles.keys| ==> !Pending(articles, processed, articles.keys[i])
    ensures RunArticles(articles, processed, j, st, split, kw) == st
    decreases |articles.keys| - j
  {
    if j < |articles.keys| {
      NothingPendingNoCalls(articles, processed, j + 1, st, split, kw);
    }
  }

  /** A run keeps the loaded records and appends only records of articles
      it saves, none of them processed before; it works through the pending
      articles in text order, and saves all of them unless one fails; a
      failure leaves the progress file in place, and a completed run renames
      it iff it exists. */
  lemma RunOnSpec(articles: Dict<string, string>, prior: seq<Record>, progressExists: bool,
                  split: Splitter, kw: Keyworder)
    ensures var out := RunOn(articles, prior, progressExists, split, kw);
      && |out.enriched| >= |prior| && out.enriched[..|prior|] == prior
      && (forall id :: id in out.saved ==> Str(id) !in Processed(prior))
      && (forall k :: |prior| <= k < |out.enriched| ==> OfArticle(out.enriched[k], out.saved))
      && (out.stopped.Some? ==> !out.renamed)
      && (out.stopped.None? ==> (out.renamed <==> progressExists || out.saved != []))
      && (out.stopped.None? ==> out.saved == PendingIds(articles, Processed(prior), 0))
      && (out.stopped.Some? ==> out.saved + [out.stopped.value] <= PendingIds(articles, Processed(prior), 0))
  {
    var st := RunState(prior, 0, [], progressExists, None);
    RunArticlesSpec(articles, Processed(prior), 0, st, split, kw);
    RunArticlesComplete(articles, Processed(prior), 0, st, split, kw);
    var r := RunArticles(articles, Processed(prior), 0, st, split, kw);
    assert r.saved[|st.saved|..] == r.saved;
  }

  /** The records a run appends to the loaded ones are those of the
      articles it saves, article by article in saved order. */
  lemma RunOnRecords(articles: Dict<string, string>, prior: seq<Record>, progressExists: bool,
                     split: Splitter, kw: Keyworder)
    returns (blocks: seq<seq<Record>>, calls: seq<nat>)
    ensures var out := RunOn(articles, prior, progressExists, split, kw);
      out.enriched == prior + Flatten(blocks) && BlocksFor(blocks, calls, out.saved, articles, split)
  {
    var ids;
    ids, blocks, calls := RunArticlesRecords(articles, Processed(prior), 0, RunState(prior, 0, [], progressExists, None), split, kw);
  }

  /** The same for the whole run: with no article, nothing is done. */
  lemma KeywordRunSpec(structure: seq<Node>, summaries: Record, converted: Option<string>, hs: seq<Heading>,
                       progress: Option<seq<Record>>, o: Oracle)
    ensures var out := KeywordRun(structure, summaries, converted, hs, progress, o);
      var prior := if progress.Some? then progress.value else [];
      && |out.enriched| >= |prior| && out.enriched[..|prior|] == prior
      && (forall id :: id in out.saved ==> Str(id) !in Processed(prior))
      && (forall k :: |prior| <= k < |out.enriched| ==> OfArticle(out.enriched[k], out.saved))
      && (out.stopped.Some? ==> !out.renamed)
      && (out.stopped.None? ==> (out.renamed <==> ArticleMap(AfterHeading, converted, hs).keys != [] && (progress.Some? || out.saved != [])))
      && (out.stopped.None? ==> out.saved == PendingIds(ArticleMap(AfterHeading, converted, hs), Processed(prior), 0))
      && (out.stopped.Some? ==> out.saved + [out.stopped.value] <= PendingIds(ArticleMap(AfterHeading, converted, hs), Processed(prior), 0))
  {
    var articles := ArticleMap(AfterHeading, converted, hs);
    var prior := if progress.Some? then progress.value else [];
    if articles.keys != [] {
      RunOnSpec(articles, prior, progress.Some?, SplitWith(o), KeywordsWith(NodeTitles(structure), summaries, o));
    }
  }

  /** The records of the whole run, article by article, each split by the
      model at its own call. */
  lemma KeywordRunRecords(structure: seq<Node>, summaries: Record, converted: Option<string>, hs: seq<Heading>,
                          progress: Option<seq<Record>>, o: Oracle)
    returns (blocks: seq<seq<Record>>, calls: seq<nat>)
    ensures var out := KeywordRun(structure, summaries, converted, hs, progress, o);
      var prior := if progress.Some? then progress.value else [];
      out.enriched == prior + Flatten(blocks) && BlocksFor(blocks, calls, out.saved, ArticleMap(AfterHeading, converted, hs), SplitWith(o))
  {
    var articles := ArticleMap(AfterHeading, converted, hs);
    var prior := if progress.Some? then progress.value else [];
    blocks, calls := [], [];
    if articles.keys != [] {
      blocks, calls := RunOnRecords(articles, prior, progress.Some?, SplitWith(o), KeywordsWith(NodeTitles(structure), summaries, o));
    } else {
      assert prior + Flatten(blocks) == prior;
    }
  }

  /** A rerun after every article with text was saved makes no call, saves
      nothing and renames the progress file. */
  lemma RerunMakesNoCalls(articles: Dict<string, string>, records: seq<Record>, split: Splitter, kw: Keyworder)
    requires forall i :: 0 <= i < |articles.keys| ==> !Pending(articles, Processed(records), articles.keys[i])
    ensures var out := RunOn(articles, records, true, split, kw);
      out.calls == 0 && out.saved == [] && out.enriched == records && out.renamed
  {
    NothingPendingNoCalls(articles, Processed(records), 0, RunState(records, 0, [], true, None), split, kw);
  }

  // ---------------------------------------------------------------------
  // The loops

  /** The paragraph loop of one article. */
  method EnrichParagraphs(id: string, items: seq<Record>, calls: nat, kw: Keyworder) returns (r: ArticleState)
    ensures r == EnrichCommi(id, items, 0, ArticleState([], calls, false), kw)
  {
    var temp: seq<Record> := [];
    var made := calls;
    var k := 0;
    while k < |items|
      invariant 0 <= k <= |items|
      invariant EnrichCommi(id, items, 0, ArticleState([], calls, false), kw)
             == EnrichCommi(id, items, k, ArticleState(temp, made, false), kw)
    {
      var keywords := kw(made, id, items[k]);
      made := made + 1;
      if keywords.None? {
        return ArticleState(temp, made, true);
      }
      temp := temp + [map["articolo" := Str(id), "comma" := GetOr(items[k], "comma", Null),
                          "testo_originale_comma" := GetOr(items[k], "testo", Null), "keywords" := keywords.value]];
      k := k + 1;
    }
    r := ArticleState(temp, made, false);
  }

  /** The article loop of `generate_keywords`. */
  method ProcessArticles(articles: Dict<string, string>, processed: set<Value>, prior: seq<Record>, exists_: bool,
                         split: Splitter, kw: Keyworder) returns (r: RunState)
    ensures r == RunArticles(articles, processed, 0, RunState(prior, 0, [], exists_, None), split, kw)
  {
    var enriched := prior;
    var calls := 0;
    var saved: seq<string> := [];
    var written := exists_;
    var j := 0;
    while j < |articles.keys|
      invariant 0 <= j <= |articles.keys|
      invariant RunArticles(articles, processed, 0, RunState(prior, 0, [], exists_, None), split, kw)
             == RunArticles(articles, processed, j, RunState(enriched, calls, saved, written, None), split, kw)
    {
      var id := articles.keys[j];
      if Str(id) in processed {
        j := j + 1;
        continue;
      }
      var text := articles.Get(id, "");
      if text == "" {
        j := j + 1;
        continue;
      }
      var commi := split(calls, text);
      calls := calls + 1;
      if commi.None? {
        return RunState(enriched, calls, saved, written, Some(id));
      }
      var a := EnrichParagraphs(id, commi.value, calls, kw);
      calls := a.calls;
      if a.failed {
        return RunState(enriched, calls, saved, written, Some(id));
      }
      enriched := enriched + a.records;
      saved := saved + [id];
      written := true;
      j := j + 1;
    }
    r := RunState(enriched, calls, saved, written, None);
  }

  /** `generate_keywords` */
  method GenerateKeywords(structure: seq<Node>, summaries: Record, converted: Option<string>, hs: seq<Heading>,
                          progress: Option<seq<Record>>, o: Oracle) returns (out: Outcome)
    ensures out == KeywordRun(structure, summaries, converted, hs, progress, o)
  {
    var articles := ExtractArticles(AfterHeading, converted, hs);
    var prior := if progress.Some? then progress.value else [];
    if articles.keys == [] {
      return Outcome(prior, [], 0, None, false);
    }
    var processed := set r | r in prior :: GetOr(r, "articolo", Null);
    var st := ProcessArticles(articles, processed, prior, progress.Some?, SplitWith(o),
                              KeywordsWith(NodeTitles(structure), summaries, o));
    out := Outcome(st.enriched, st.saved, st.calls, st.stopped, st.stopped.None? && st.written);
    assert out == RunOn(articles, prior, progress.Some?, SplitWith(o), KeywordsWith(NodeTitles(structure), summaries, o));
  }
}
