// The earlier one-pass enrichment of the Chamber rulebook
// (`b_regcam/old/00_summarize_and_keyword.py`). The converted text is
// cleaned and cut into articles at its "Art. N" headings; phase A
// summarises every chapter not yet summarised from the texts of its
// articles; phase B takes the articles in order of their number, skips
// those whose number is not above the number of the last article saved,
// splits each into paragraphs and asks for each paragraph's keywords,
// saving the progress after every article. The model's failures are not
// caught except in the paragraph split, so they end the run: the progress
// file then holds what was last saved, and no output file is written.
module LegacyEnrichment {
  import opened Wrappers
  import opened Text
  import opened Json
  import opened JsonExtract
  import opened OrderedMaps
  import opened StableSort
  import opened Segmentation
  import opened Newlines

  const Insufficient := "INSUFFICIENTE"
  const NoChapterContext := "Nessun contesto di capitolo disponibile."

  /** A chapter (`capo`) of the structure file: its title and the articles
      it lists, as JSON values. */
  datatype Chapter = Chapter(title: string, articles: seq<Value>)

  // ---------------------------------------------------------------------
  // Article numbers

  /** The length of the leading run of digits. */
  function DigitRun(s: string): (n: nat)
    ensures n <= |s|
    ensures forall i :: 0 <= i < n ==> IsDigit(s[i])
    ensures n < |s| ==> !IsDigit(s[n])
  {
    if s != [] && IsDigit(s[0]) then 1 + DigitRun(s[1..]) else 0
  }

  /** `int(re.match(r'\d+', s).group())`: None where the match fails (the
      script then crashes). */
  function LeadingNumber(s: string): (r: Option<nat>)
    ensures r.Some? <==> s != [] && IsDigit(s[0])
  {
    var n := DigitRun(s);
    if n == 0 then None else Some(DigitsValue(s[..n]))
  }

  /** The sort key of `sorted(..., key=...)`, ascending, as the descending
      sort on the negated number. */
  function NumberKey(): string -> real {
    (id: string) => -(LeadingNumber(id).GetOr(0) as real)
  }

  /** A suffixed article has the number of its base article. */
  lemma SuffixSharesNumber()
    ensures LeadingNumber("15-bis") == LeadingNumber("15") == Some(15)
  {
    assert DigitRun("15-bis") == 2 by {
      assert "15-bis"[1..] == "5-bis" && "5-bis"[1..] == "-bis";
    }
    assert DigitRun("15") == 2 by {
      assert "15"[1..] == "5" && "5"[1..] == "";
    }
    assert "15-bis"[..2] == "15";
    assert DigitsValue("15") == 15 by {
      assert "15"[..1] == "1" && "1"[..0] == "";
    }
  }

  // ---------------------------------------------------------------------
  // The model's replies

  datatype Request =
    | ChapterSummary(text: string, title: string)
    | Commi(articleText: string)
    | CommaKeywords(commaText: Value, context: string)

  /** The model, numbered by call, and the decoders of the paragraph list
      and of the keywords (None for a decoding error). */
  datatype Oracle = Oracle(reply: (nat, Request) -> Option<string>,
                           parseCommi: string -> Option<seq<Record>>,
                           parseKeywords: string -> Option<Value>)

  /** `get_chapter_summary`: the stripped reply; None when the call fails. */
  function SummaryOf(call: nat, title: string, text: string, o: Oracle): Option<string> {
    var reply := o.reply(call, ChapterSummary(text, title));
    if reply.None? then None else Some(Strip(reply.value))
  }

  /** `get_commi_from_ai`: any failure gives no paragraph. */
  function CommiOf(call: nat, text: string, o: Oracle): seq<Record> {
    var reply := o.reply(call, Commi(text));
    if reply.None? then []
    else
      var items := o.parseCommi(CleanJson(reply.value, ListShape));
      if items.None? then [] else items.value
  }

  /** `get_keywords_for_comma`: None when the call or the decoding fails. */
  function KeywordsOf(call: nat, commaText: Value, context: string, o: Oracle): Option<Value> {
    var reply := o.reply(call, CommaKeywords(commaText, context));
    if reply.None? then None else o.parseKeywords(CleanJson(reply.value, ListShape))
  }

  /** The three steps as the loops see them. */
  type Summarizer = (nat, string, string) -> Option<string>
  type Splitter = (nat, string) -> seq<Record>
  type Keyworder = (nat, Value, string) -> Option<Value>

  function SummarizeWith(o: Oracle): Summarizer {
    (call: nat, title: string, text: string) => SummaryOf(call, title, text, o)
  }

  function SplitWith(o: Oracle): Splitter {
    (call: nat, text: string) => CommiOf(call, text, o)
  }

  function KeywordsWith(o: Oracle): Keyworder {
    (call: nat, commaText: Value, context: string) => KeywordsOf(call, commaText, context, o)
  }

  // ---------------------------------------------------------------------
  // Phase A: chapter summaries

  /** The texts of the chapter's articles found in the article map, in the
      chapter's order. */
  function ChapterParts(articles: map<string, string>, arts: seq<Value>): (ps: seq<string>)
    ensures |ps| <= |arts|
  {
    if arts == [] then []
    else
      var rest := ChapterParts(articles, arts[1..]);
      if arts[0].Str? && arts[0].s in articles then [articles[arts[0].s]] + rest else rest
  }

  /** `chapter_text` */
  function ChapterText(articles: map<string, string>, ch: Chapter): string {
    Join("\n\n", ChapterParts(articles, ch.articles))
  }

  function ChapterTexts(articles: map<string, string>): Chapter -> string {
    (ch: Chapter) => ChapterText(articles, ch)
  }

  /** A chapter none of whose articles is in the map is summarised from
      the empty text. */
  lemma {:induction false} ChapterPartsNone(articles: map<string, string>, arts: seq<Value>)
    requires forall k :: 0 <= k < |arts| ==> !(arts[k].Str? && arts[k].s in articles)
    ensures ChapterParts(articles, arts) == []
  {
    if arts != [] {
      ChapterPartsNone(articles, arts[1..]);
    }
  }

  /** Each article of the chapter found in the map gives its text. */
  lemma {:induction false} ChapterPartsHas(articles: map<string, string>, arts: seq<Value>, k: nat)
    requires k < |arts| && arts[k].Str? && arts[k].s in articles
    ensures articles[arts[k].s] in ChapterParts(articles, arts)
  {
    if k > 0 {
      ChapterPartsHas(articles, arts[1..], k - 1);
    }
  }

  /** The state of phase A: the summaries, the calls made, and whether a
      failed call ended the run. */
  datatype SummaryState = SummaryState(summaries: map<string, string>, calls: nat, crashed: bool)

  /** Phase A from chapter `k` on. */
  function SummarizeChapters(chapters: seq<Chapter>, k: nat, st: SummaryState,
                             text: Chapter -> string, summarize: Summarizer): SummaryState
    decreases |chapters| - k
  {
    if k >= |chapters| then st
    else
      var title := chapters[k].title;
      if title in st.summaries then SummarizeChapters(chapters, k + 1, st, text, summarize)
      else
        var summary := summarize(st.calls, title, text(chapters[k]));
        if summary.None? then SummaryState(st.summaries, st.calls + 1, true)
        else if Contains(summary.value, Insufficient) then
          SummarizeChapters(chapters, k + 1, SummaryState(st.summaries, st.calls + 1, false), text, summarize)
        else
          SummarizeChapters(chapters, k + 1, SummaryState(st.summaries[title := summary.value], st.calls + 1, false), text, summarize)
  }

  /** Phase A never changes a summary already present; each new one is
      stored under a chapter's title and does not contain "INSUFFICIENTE";
      and when no call failed, every chapter summarised with a usable reply
      has its summary. */
  lemma {:induction false} SummarizeChaptersSpec(chapters: seq<Chapter>, k: nat, st: SummaryState,
                                                 text: Chapter -> string, summarize: Summarizer)
    requires k <= |chapters|
    ensures var r := SummarizeChapters(chapters, k, st, text, summarize);
      && (forall t :: t in st.summaries ==> t in r.summaries && r.summaries[t] == st.summaries[t])
      && (forall t :: t in r.summaries && t !in st.summaries ==>
            (exists i :: k <= i < |chapters| && chapters[i].title == t) && !Contains(r.summaries[t], Insufficient))
      && st.calls <= r.calls
    decreases |chapters| - k
  {
    if k < |chapters| {
      var title := chapters[k].title;
      if title in st.summaries {
        SummarizeChaptersSpec(chapters, k + 1, st, text, summarize);
      } else {
        var summary := summarize(st.calls, title, text(chapters[k]));
        if summary.Some? {
          var next := if Contains(summary.value, Insufficient) then SummaryState(st.summaries, st.calls + 1, false)
                      else SummaryState(st.summaries[title := summary.value], st.calls + 1, false);
          SummarizeChaptersSpec(chapters, k + 1, next, text, summarize);
          var r := SummarizeChapters(chapters, k + 1, next, text, summarize);
          forall t | t in r.summaries && t !in st.summaries
            ensures (exists i :: k <= i < |chapters| && chapters[i].title == t) && !Contains(r.summaries[t], Insufficient)
          {
            if t in next.summaries {
              assert t == title && chapters[k].title == t;
              assert r.summaries[t] == next.summaries[t] == summary.value;
            } else {
              var i :| k + 1 <= i < |chapters| && chapters[i].title == t;
            }
          }
        }
      }
    }
  }

  /** Without failures, every chapter ends with a summary unless its reply
      said "INSUFFICIENTE". */
  lemma {:induction false} SummarizeChaptersComplete(chapters: seq<Chapter>, k: nat, st: SummaryState,
                                                     text: Chapter -> string, summarize: Summarizer)
    requires k <= |chapters|
    requires forall c, t, x :: summarize(c, t, x).Some? && !Contains(summarize(c, t, x).value, Insufficient)
    ensures var r := SummarizeChapters(chapters, k, st, text, summarize);
      !r.crashed ==> forall i :: k <= i < |chapters| ==> chapters[i].title in r.summaries
    decreases |chapters| - k
  {
    if k < |chapters| {
      var title := chapters[k].title;
      var next := if title in st.summaries then st
                  else SummaryState(st.summaries[title := summarize(st.calls, title, text(chapters[k])).value], st.calls + 1, false);
      assert SummarizeChapters(chapters, k, st, text, summarize) == SummarizeChapters(chapters, k + 1, next, text, summarize);
      SummarizeChaptersComplete(chapters, k + 1, next, text, summarize);
      SummarizeChaptersSpec(chapters, k + 1, next, text, summarize);
    }
  }

  // ---------------------------------------------------------------------
  // Phase B: one article

  /** The chapter of an article: the title of the first chapter listing it,
      None when there is none. */
  function ChapterOf(chapters: seq<Chapter>, id: string): (r: Option<string>)
    ensures r.Some? ==> exists i :: 0 <= i < |chapters| && Str(id) in chapters[i].articles && chapters[i].title == r.value
    ensures r.None? ==> forall i :: 0 <= i < |chapters| ==> Str(id) !in chapters[i].articles
  {
    if chapters == [] then None
    else if Str(id) in chapters[0].articles then Some(chapters[0].title)
    else
      var r := ChapterOf(chapters[1..], id);
      assert forall i :: 1 <= i < |chapters| ==> chapters[i] == chapters[1..][i - 1];
      r
  }
  /** `next(...)` takes the first chapter that lists the article: the title
      found is that of a chapter listing it, and no earlier chapter does. */
  lemma {:induction false} ChapterOfFirst(chapters: seq<Chapter>, id: string) returns (i: nat)
    requires ChapterOf(chapters, id).Some?
    ensures i < |chapters| && Str(id) in chapters[i].articles && chapters[i].title == ChapterOf(chapters, id).value
    ensures forall k :: 0 <= k < i ==> Str(id) !in chapters[k].articles
  {
    if Str(id) in chapters[0].articles {
      i := 0;
    } else {
      var j := ChapterOfFirst(chapters[1..], id);
      i := j + 1;
      forall k | 0 <= k < i ensures Str(id) !in chapters[k].articles {
        if k > 0 {
          assert chapters[k] == chapters[1..][k - 1];
        }
      }
    }
  }


  /** The record saved for a paragraph. */
  function Enriched(id: string, item: Record, keywords: Value): Record {
    map["articolo" := Str(id), "comma" := GetOr(item, "comma_num", Str("1")),
        "testo_originale_comma" := GetOr(item, "testo_comma", Str("")), "keywords" := keywords]
  }

  /** Whether a paragraph is worked on: its text is truthy. */
  predicate HasText(item: Record) {
    Truthy(GetOr(item, "testo_comma", Str("")))
  }

  /** The paragraphs with text, in order. */
  function WithText(items: seq<Record>): (r: seq<Record>)
    ensures |r| <= |items|
  {
    if items == [] then []
    else (if HasText(items[0]) then [items[0]] else []) + WithText(items[1..])
  }

  /** The record of article `id` for paragraph `item`. */
  predicate IsEnriched(r: Record, id: string, item: Record) {
    && r.Keys == {"articolo", "comma", "testo_originale_comma", "keywords"}
    && r["articolo"] == Str(id)
    && r["comma"] == GetOr(item, "comma_num", Str("1"))
    && r["testo_originale_comma"] == GetOr(item, "testo_comma", Str(""))
    && Truthy(r["testo_originale_comma"])
  }

  predicate AllEnriched(rs: seq<Record>, id: string, items: seq<Record>) {
    |rs| == |items| && forall m :: 0 <= m < |items| ==> IsEnriched(rs[m], id, items[m])
  }

  /** The state of the paragraph loop: the records made, the calls made,
      and whether a failed keyword call ended the run. */
  datatype CommaState = CommaState(records: seq<Record>, calls: nat, crashed: bool)

  /** The paragraph loop from paragraph `k` on. */
  function EnrichCommi(id: string, items: seq<Record>, k: nat, st: CommaState, context: string, kw: Keyworder): CommaState
    decreases |items| - k
  {
    if k >= |items| then st
    else if !HasText(items[k]) then EnrichCommi(id, items, k + 1, st, context, kw)
    else
      var keywords := kw(st.calls, GetOr(items[k], "testo_comma", Str("")), context);
      if keywords.None? then CommaState(st.records, st.calls + 1, true)
      else EnrichCommi(id, items, k + 1, CommaState(st.records + [Enriched(id, items[k], keywords.value)], st.calls + 1, false), context, kw)
  }

  lemma AllEnrichedCons(x: Record, item: Record, rs: seq<Record>, id: string, items: seq<Record>)
    requires IsEnriched(x, id, item) && AllEnriched(rs, id, items)
    ensures AllEnriched([x] + rs, id, [item] + items)
  {
    forall m | 0 <= m < |items| + 1 ensures IsEnriched(([x] + rs)[m], id, ([item] + items)[m]) {
      if m > 0 {
        assert ([x] + rs)[m] == rs[m - 1];
        assert ([item] + items)[m] == items[m - 1];
      }
    }
  }

  /** The paragraph loop keeps the records made before and, when no call
      fails, adds one record per paragraph with text, in order: paragraphs
      without text are skipped and the paragraph number defaults to "1". */
  lemma {:induction false} EnrichCommiSpec(id: string, items: seq<Record>, k: nat, st: CommaState, context: string, kw: Keyworder)
    requires k <= |items| && !st.crashed
    ensures var r := EnrichCommi(id, items, k, st, context, kw);
      && |r.records| >= |st.records| && r.records[..|st.records|] == st.records
      && st.calls <= r.calls
      && (!r.crashed ==> AllEnriched(r.records[|st.records|..], id, WithText(items[k..])))
    decreases |items| - k
  {
    if k == |items| {
      assert st.records[|st.records|..] == [] && items[k..] == [];
    } else {
      assert items[k..] == [items[k]] + items[k + 1..];
      assert WithText(items[k..]) == (if HasText(items[k]) then [items[k]] else []) + WithText(items[k + 1..]);
      if !HasText(items[k]) {
        EnrichCommiSpec(id, items, k + 1, st, context, kw);
      } else {
        var keywords := kw(st.calls, GetOr(items[k], "testo_comma", Str("")), context);
        if keywords.Some? {
          var x := Enriched(id, items[k], keywords.value);
          var next := CommaState(st.records + [x], st.calls + 1, false);
          EnrichCommiSpec(id, items, k + 1, next, context, kw);
          var r := EnrichCommi(id, items, k + 1, next, context, kw);
          assert r.records[..|st.records|] == r.records[..|next.records|][..|st.records|];
          if !r.crashed {
            assert r.records[|st.records|] == r.records[..|next.records|][|st.records|];
            assert r.records[|st.records|..] == [x] + r.records[|next.records|..];
            AllEnrichedCons(x, items[k], r.records[|next.records|..], id, WithText(items[k + 1..]));
          }
        }
      }
    }
  }

  // ---------------------------------------------------------------------
  // Phase B: the article loop

  /** What phase B reads: the chapters, the article texts and the chapter
      summaries. */
  datatype Inputs = Inputs(chapters: seq<Chapter>, articles: map<string, string>, summaries: map<string, string>)

  /** The state of phase B: the records and the last article as saved in
      the progress file, the calls made, the articles saved, and whether a
      crash ended the run. */
  datatype EnrichState = EnrichState(enriched: seq<Record>, last: string, calls: nat, saved: seq<string>, crashed: bool)

  /** Whether article `id` is worked on, for a bound that is a number:
      its number is above the bound and it has a chapter with a title. */
  predicate Due(inp: Inputs, bound: nat, id: string) {
    && LeadingNumber(id).GetOr(0) > bound
    && ChapterOf(inp.chapters, id).Some? && ChapterOf(inp.chapters, id).value != ""
  }

  /** One article of phase B: None when it is skipped, otherwise the
      paragraph loop's result. */
  function ArticleStep(id: string, bound: nat, inp: Inputs, calls: nat, split: Splitter, kw: Keyworder): Option<CommaState> {
    if !Due(inp, bound, id) then None
    else
      var chapter := ChapterOf(inp.chapters, id).value;
      var context := if chapter in inp.summaries then inp.summaries[chapter] else NoChapterContext;
      Some(EnrichCommi(id, split(calls, TextOf(inp, id)), 0, CommaState([], calls + 1, false), context, kw))
  }

  /** The text of article `id`, empty when the article map lacks it. */
  function TextOf(inp: Inputs, id: string): string {
    if id in inp.articles then inp.articles[id] else ""
  }

  /** Every record names article `id`. */
  predicate AllOf(rs: seq<Record>, id: string) {
    forall m :: 0 <= m < |rs| ==> "articolo" in rs[m] && rs[m]["articolo"] == Str(id)
  }

  /** An article worked on without a crash yields records of that article
      only, one per paragraph with text. */
  lemma ArticleStepSpec(id: string, bound: nat, inp: Inputs, calls: nat, split: Splitter, kw: Keyworder)
    ensures var a := ArticleStep(id, bound, inp, calls, split, kw);
      && (a.Some? <==> Due(inp, bound, id))
      && (a.Some? ==> calls < a.value.calls)
      && (a.Some? && !a.value.crashed ==> AllOf(a.value.records, id))
  {
    var a := ArticleStep(id, bound, inp, calls, split, kw);
    if a.Some? {
      var chapter := ChapterOf(inp.chapters, id).value;
      var context := if chapter in inp.summaries then inp.summaries[chapter] else NoChapterContext;
      var items := split(calls, TextOf(inp, id));
      EnrichCommiSpec(id, items, 0, CommaState([], calls + 1, false), context, kw);
      assert a.value.records[0..] == a.value.records && items[0..] == items;
      if !a.value.crashed {
        forall m | 0 <= m < |a.value.records| ensures "articolo" in a.value.records[m] && a.value.records[m]["articolo"] == Str(id) {
          assert IsEnriched(a.value.records[m], id, WithText(items)[m]);
        }
      }
    }
  }

  /** Phase B from article `j` of the sorted ids on; `bound` is the number
      of the last article saved when the run started. */
  function EnrichArticles(ids: seq<string>, j: nat, bound: Option<nat>, inp: Inputs, st: EnrichState,
                          split: Splitter, kw: Keyworder): EnrichState
    decreases |ids| - j
  {
    if j >= |ids| then st
    else if bound.None? then EnrichState(st.enriched, st.last, st.calls, st.saved, true)
    else
      var id := ids[j];
      var a := ArticleStep(id, bound.value, inp, st.calls, split, kw);
      if a.None? then EnrichArticles(ids, j + 1, bound, inp, st, split, kw)
      else if a.value.crashed then EnrichState(st.enriched, st.last, a.value.calls, st.saved, true)
      else EnrichArticles(ids, j + 1, bound, inp, EnrichState(st.enriched + a.value.records, id, a.value.calls, st.saved + [id], false), split, kw)
  }

  /** The record belongs to one of the articles `ids`. */
  predicate OfArticle(rec: Record, ids: seq<string>) {
    "articolo" in rec && exists id :: id in ids && rec["articolo"] == Str(id)
  }

  /** Phase B keeps what was saved, saves only articles due, in the sorted
      order, appends records of saved articles only, and records the last
      article saved. */
  lemma {:induction false} EnrichArticlesSpec(ids: seq<string>, j: nat, bound: nat, inp: Inputs, st: EnrichState,
                                              split: Splitter, kw: Keyworder)
    requires j <= |ids| && !st.crashed
    ensures var r := EnrichArticles(ids, j, Some(bound), inp, st, split, kw);
      && |r.enriched| >= |st.enriched| && r.enriched[..|st.enriched|] == st.enriched
      && |r.saved| >= |st.saved| && r.saved[..|st.saved|] == st.saved
      && (forall id :: id in r.saved[|st.saved|..] ==> id in ids[j..] && Due(inp, bound, id))
      && (forall k :: |st.enriched| <= k < |r.enriched| ==> OfArticle(r.enriched[k], r.saved[|st.saved|..]))
      && r.last == (if r.saved == st.saved then st.last else r.saved[|r.saved| - 1])
      && st.calls <= r.calls
    decreases |ids| - j
  {
    if j < |ids| {
      var id := ids[j];
      assert ids[j + 1..] == ids[j..][1..];
      var a := ArticleStep(id, bound, inp, st.calls, split, kw);
      ArticleStepSpec(id, bound, inp, st.calls, split, kw);
      if a.None? {
        EnrichArticlesSpec(ids, j + 1, bound, inp, st, split, kw);
      } else if !a.value.crashed {
        var next := EnrichState(st.enriched + a.value.records, id, a.value.calls, st.saved + [id], false);
        EnrichArticlesSpec(ids, j + 1, bound, inp, next, split, kw);
        var r := EnrichArticles(ids, j + 1, Some(bound), inp, next, split, kw);
        SavedStep(st, next, r, id, ids[j..], inp, bound);
        AppendedStep(st, next, r, id, a.value.records);
      }
    }
  }

  /** The saved ids after one more saved article. */
  lemma SavedStep(st: EnrichState, next: EnrichState, r: EnrichState, id: string, rest: seq<string>, inp: Inputs, bound: nat)
    requires next.saved == st.saved + [id] && rest != [] && rest[0] == id && Due(inp, bound, id)
    requires next.last == id
    requires |r.saved| >= |next.saved| && r.saved[..|next.saved|] == next.saved
    requires forall x :: x in r.saved[|next.saved|..] ==> x in rest[1..] && Due(inp, bound, x)
    requires r.last == (if r.saved == next.saved then next.last else r.saved[|r.saved| - 1])
    ensures r.saved[..|st.saved|] == st.saved
    ensures forall x :: x in r.saved[|st.saved|..] ==> x in rest && Due(inp, bound, x)
    ensures r.last == (if r.saved == st.saved then st.last else r.saved[|r.saved| - 1])
  {
    assert r.saved[..|st.saved|] == r.saved[..|next.saved|][..|st.saved|];
    assert r.saved[|st.saved|..] == [id] + r.saved[|next.saved|..];
    assert r.saved != st.saved;
    if r.saved == next.saved {
      assert r.saved[|r.saved| - 1] == id;
    }
  }

  /** The records after one more saved article. */
  lemma AppendedStep(st: EnrichState, next: EnrichState, r: EnrichState, id: string, records: seq<Record>)
    requires next.enriched == st.enriched + records && next.saved == st.saved + [id] && AllOf(records, id)
    requires |r.enriched| >= |next.enriched| && r.enriched[..|next.enriched|] == next.enriched
    requires |r.saved| >= |next.saved| && r.saved[..|next.saved|] == next.saved
    requires forall k :: |next.enriched| <= k < |r.enriched| ==> OfArticle(r.enriched[k], r.saved[|next.saved|..])
    ensures r.enriched[..|st.enriched|] == st.enriched
    ensures forall k :: |st.enriched| <= k < |r.enriched| ==> OfArticle(r.enriched[k], r.saved[|st.saved|..])
  {
    assert r.enriched[..|st.enriched|] == r.enriched[..|next.enriched|][..|st.enriched|];
    assert r.saved[|st.saved|..] == [id] + r.saved[|next.saved|..];
    forall k | |st.enriched| <= k < |r.enriched|
      ensures OfArticle(r.enriched[k], r.saved[|st.saved|..])
    {
      if k < |next.enriched| {
        assert r.enriched[k] == r.enriched[..|next.enriched|][k] == records[k - |st.enriched|];
        assert id in r.saved[|st.saved|..];
      } else {
        assert OfArticle(r.enriched[k], r.saved[|next.saved|..]);
        var i :| i in r.saved[|next.saved|..] && r.enriched[k]["articolo"] == Str(i);
        assert i in r.saved[|st.saved|..];
      }
    }
  }

  /** The due articles of `ids` from `j` on, in order. */
  function DueIds(ids: seq<string>, j: nat, bound: nat, inp: Inputs): seq<string>
    decreases |ids| - j
  {
    if j >= |ids| then []
    else (if Due(inp, bound, ids[j]) then [ids[j]] else []) + DueIds(ids, j + 1, bound, inp)
  }

  /** Block `p` holds one record per paragraph with text of article
      `ids[p]`, as the model split it at call `calls[p]`. */
  predicate BlocksFor(blocks: seq<seq<Record>>, calls: seq<nat>, ids: seq<string>, inp: Inputs, split: Splitter) {
    && |blocks| == |calls| == |ids|
    && forall p :: 0 <= p < |blocks| ==> AllEnriched(blocks[p], ids[p], WithText(split(calls[p], TextOf(inp, ids[p]))))
  }

  /** An article worked on without a crash yields one record per paragraph
      with text, as the model split it. */
  lemma ArticleStepRecords(id: string, bound: nat, inp: Inputs, calls: nat, split: Splitter, kw: Keyworder)
    ensures var a := ArticleStep(id, bound, inp, calls, split, kw);
      a.Some? && !a.value.crashed ==> AllEnriched(a.value.records, id, WithText(split(calls, TextOf(inp, id))))
  {
    var a := ArticleStep(id, bound, inp, calls, split, kw);
    if a.Some? {
      var chapter := ChapterOf(inp.chapters, id).value;
      var context := if chapter in inp.summaries then inp.summaries[chapter] else NoChapterContext;
      var items := split(calls, TextOf(inp, id));
      EnrichCommiSpec(id, items, 0, CommaState([], calls + 1, false), context, kw);
      assert a.value.records[0..] == a.value.records && items[0..] == items;
    }
  }

  /** Saving one more article puts its block in front of the blocks of the
      articles saved after it. */
  lemma BlocksForCons(st: EnrichState, id: string, b: seq<Record>, c: nat, done: seq<string>,
                      blocks: seq<seq<Record>>, calls: seq<nat>, r: EnrichState, inp: Inputs, split: Splitter)
    requires r.saved == st.saved + [id] + done && r.enriched == st.enriched + b + Flatten(blocks)
    requires BlocksFor(blocks, calls, done, inp, split)
    requires AllEnriched(b, id, WithText(split(c, TextOf(inp, id))))
    ensures r.saved == st.saved + ([id] + done) && r.enriched == st.enriched + Flatten([b] + blocks)
    ensures BlocksFor([b] + blocks, [c] + calls, [id] + done, inp, split)
  {
    assert ([b] + blocks)[1..] == blocks;
    assert Flatten([b] + blocks) == b + Flatten(blocks);
    assert st.enriched + b + Flatten(blocks) == st.enriched + (b + Flatten(blocks));
    assert st.saved + [id] + done == st.saved + ([id] + done);
    var blocks', calls', done' := [b] + blocks, [c] + calls, [id] + done;
    forall p | 0 <= p < |blocks'|
      ensures AllEnriched(blocks'[p], done'[p], WithText(split(calls'[p], TextOf(inp, done'[p]))))
    {
      if p > 0 {
        assert blocks'[p] == blocks[p - 1] && calls'[p] == calls[p - 1] && done'[p] == done[p - 1];
      }
    }
  }

  /** Phase B works through the due articles in the sorted order: it saves
      all of them unless a call fails, and then a strict prefix of them; the
      records it appends are those of the saved articles, article by
      article, one per paragraph with text. */
  lemma {:induction false} EnrichArticlesRecords(ids: seq<string>, j: nat, bound: nat, inp: Inputs, st: EnrichState,
                                                 split: Splitter, kw: Keyworder)
    returns (done: seq<string>, blocks: seq<seq<Record>>, calls: seq<nat>)
    requires j <= |ids| && !st.crashed
    ensures var r := EnrichArticles(ids, j, Some(bound), inp, st, split, kw);
      && r.saved == st.saved + done
      && r.enriched == st.enriched + Flatten(blocks)
      && BlocksFor(blocks, calls, done, inp, split)
      && (!r.crashed ==> done == DueIds(ids, j, bound, inp))
      && (r.crashed ==> done < DueIds(ids, j, bound, inp))
    decreases |ids| - j
  {
    done, blocks, calls := [], [], [];
    if j < |ids| {
      var id := ids[j];
      var a := ArticleStep(id, bound, inp, st.calls, split, kw);
      ArticleStepSpec(id, bound, inp, st.calls, split, kw);
      var rest := DueIds(ids, j + 1, bound, inp);
      assert DueIds(ids, j, bound, inp) == (if a.Some? then [id] else []) + rest;
      if a.None? {
        done, blocks, calls := EnrichArticlesRecords(ids, j + 1, bound, inp, st, split, kw);
      } else if !a.value.crashed {
        ArticleStepRecords(id, bound, inp, st.calls, split, kw);
        var next := EnrichState(st.enriched + a.value.records, id, a.value.calls, st.saved + [id], false);
        var d, bs, cs := EnrichArticlesRecords(ids, j + 1, bound, inp, next, split, kw);
        BlocksForCons(st, id, a.value.records, st.calls, d, bs, cs, EnrichArticles(ids, j + 1, Some(bound), inp, next, split, kw), inp, split);
        done, blocks, calls := [id] + d, [a.value.records] + bs, [st.calls] + cs;
      } else {
        assert st.saved + [] == st.saved && st.enriched + [] == st.enriched;
      }
    } else {
      assert st.saved + [] == st.saved && st.enriched + [] == st.enriched;
    }
  }

  /** A rerun from an article whose number is at least every article's
      makes no call and changes nothing. */
  lemma {:induction false} NothingAboveBound(ids: seq<string>, j: nat, bound: nat, inp: Inputs, st: EnrichState,
                                             split: Splitter, kw: Keyworder)
    requires forall i :: j <= i < |ids| ==> LeadingNumber(ids[i]).GetOr(0) <= bound
    ensures EnrichArticles(ids, j, Some(bound), inp, st, split, kw) == st
    decreases |ids| - j
  {
    if j < |ids| {
      NothingAboveBound(ids, j + 1, bound, inp, st, split, kw);
    }
  }

  /** Resuming after article "15" skips article "15-bis", which shares its
      number, even when "15-bis" was never saved. */
  lemma SuffixSkippedOnResume(inp: Inputs, st: EnrichState, split: Splitter, kw: Keyworder)
    ensures EnrichArticles(["15-bis"], 0, LeadingNumber("15"), inp, st, split, kw) == st
  {
    SuffixSharesNumber();
    NothingAboveBound(["15-bis"], 0, 15, inp, st, split, kw);
  }

  /** A last article without a leading number crashes the run at the first
      article, before any call. */
  lemma NoNumberCrashes(ids: seq<string>, inp: Inputs, st: EnrichState, split: Splitter, kw: Keyworder)
    requires ids != []
    ensures var r := EnrichArticles(ids, 0, None, inp, st, split, kw);
      r.crashed && r.calls == st.calls && r.enriched == st.enriched
  {
  }

  // ---------------------------------------------------------------------
  // The run

  /** The progress file's contents (missing keys read as their defaults). */
  datatype Progress = Progress(last: string, summaries: map<string, string>, enriched: seq<Record>)

  /** The progress file: absent, undecodable (it is then deleted), or saved. */
  datatype ProgressFile = Missing | Corrupt | Saved(data: Progress)

  /** What a run leaves: the progress file, and the output file when the
      run completed. */
  datatype Outcome = Outcome(progress: Option<Progress>, output: Option<seq<Record>>)

  /** The article map: the cleaned text cut at its headings, each article
      keeping its heading line. */
  function Articles(converted: string, hs: seq<Heading>): Dict<string, string> {
    ArticleMap(HeadingLine, Some(CleanTextBlankLines(converted)), hs)
  }

  /** Phase B on the sorted articles, after phase A. */
  function PhaseB(ids: seq<string>, start: Progress, inp: Inputs, calls: nat, split: Splitter, kw: Keyworder): Outcome {
    var afterA := Progress(start.last, inp.summaries, start.enriched);
    if exists i :: 0 <= i < |ids| && LeadingNumber(ids[i]).None? then Outcome(Some(afterA), None)
    else
      var sorted := SortDesc(ids, NumberKey());
      var b := EnrichArticles(sorted, 0, LeadingNumber(start.last), inp,
                              EnrichState(start.enriched, start.last, calls, [], false), split, kw);
      Outcome(Some(Progress(b.last, inp.summaries, b.enriched)), if b.crashed then None else Some(b.enriched))
  }

  /** `run_enrichment`, given the parts of the structure (each a list of
      chapters), the converted text with its heading matches, the progress
      file and the model. */
  function EnrichmentRun(parts: seq<seq<Chapter>>, converted: string, hs: seq<Heading>,
                         file: ProgressFile, o: Oracle): Outcome
  {
    var articles := Articles(converted, hs);
    var start := if file.Saved? then file.data else Progress("0", map[], []);
    var chapters := Flatten(parts);
    var a := SummarizeChapters(chapters, 0, SummaryState(start.summaries, 0, false),
                               ChapterTexts(articles.values), SummarizeWith(o));
    if a.crashed then Outcome(if file.Saved? then Some(file.data) else None, None)
    else PhaseB(articles.keys, start, Inputs(chapters, articles.values, a.summaries), a.calls, SplitWith(o), KeywordsWith(o))
  }

  /** Phase B sorts the articles by number, stably, keeps the saved records,
      appends records of articles numbered above the last saved one only,
      and the output file, when written, holds the progress file's records. */
  lemma PhaseBSpec(ids: seq<string>, start: Progress, inp: Inputs, calls: nat, split: Splitter, kw: Keyworder)
    ensures var out := PhaseB(ids, start, inp, calls, split, kw);
      && out.progress.Some?
      && out.progress.value.summaries == inp.summaries
      && |out.progress.value.enriched| >= |start.enriched|
      && out.progress.value.enriched[..|start.enriched|] == start.enriched
      && (out.output.Some? ==> out.output.value == out.progress.value.enriched)
      && (out.output.Some? ==> forall i :: 0 <= i < |ids| ==> LeadingNumber(ids[i]).Some?)
      && (LeadingNumber(start.last).Some? ==>
            forall k :: |start.enriched| <= k < |out.progress.value.enriched| ==>
              "articolo" in out.progress.value.enriched[k] &&
              exists id :: id in ids && out.progress.value.enriched[k]["articolo"] == Str(id) &&
                LeadingNumber(id).GetOr(0) > LeadingNumber(start.last).value)
  {
    if !exists i :: 0 <= i < |ids| && LeadingNumber(ids[i]).None? {
      var sorted := SortDesc(ids, NumberKey());
      SortDescFacts(ids, NumberKey());
      var st := EnrichState(start.enriched, start.last, calls, [], false);
      var bound := LeadingNumber(start.last);
      if bound.Some? {
        EnrichArticlesSpec(sorted, 0, bound.value, inp, st, split, kw);
        var b := EnrichArticles(sorted, 0, bound, inp, st, split, kw);
        assert b.saved[|st.saved|..] == b.saved;
        assert sorted[0..] == sorted;
        forall k | |start.enriched| <= k < |b.enriched|
          ensures "articolo" in b.enriched[k] &&
            exists id :: id in ids && b.enriched[k]["articolo"] == Str(id) && LeadingNumber(id).GetOr(0) > bound.value
        {
          OfSortedArticle(b.enriched[k], b.saved, sorted, ids, inp, bound.value);
        }
      } else if sorted != [] {
        NoNumberCrashes(sorted, inp, st, split, kw);
      }
    }
  }

  /** When every article and the last saved one are numbered, phase B
      appends the records of a prefix of the due articles in the sorted
      order, article by article, and writes the output exactly when that
      prefix is all of them. */
  lemma PhaseBComplete(ids: seq<string>, start: Progress, inp: Inputs, calls: nat, split: Splitter, kw: Keyworder)
    returns (done: seq<string>, blocks: seq<seq<Record>>, made: seq<nat>)
    ensures var out := PhaseB(ids, start, inp, calls, split, kw);
      var bound := LeadingNumber(start.last);
      (bound.Some? && forall i :: 0 <= i < |ids| ==> LeadingNumber(ids[i]).Some?) ==>
        var due := DueIds(SortDesc(ids, NumberKey()), 0, bound.value, inp);
        && out.progress.Some?
        && out.progress.value.enriched == start.enriched + Flatten(blocks)
        && BlocksFor(blocks, made, done, inp, split)
        && done <= due
        && (out.output.Some? <==> done == due)
  {
    done, blocks, made := [], [], [];
    var bound := LeadingNumber(start.last);
    if bound.Some? && forall i :: 0 <= i < |ids| ==> LeadingNumber(ids[i]).Some? {
      var sorted := SortDesc(ids, NumberKey());
      var st := EnrichState(start.enriched, start.last, calls, [], false);
      done, blocks, made := EnrichArticlesRecords(sorted, 0, bound.value, inp, st, split, kw);
    }
  }

  /** A record of a saved article names an article of the input numbered
      above the bound. */
  lemma OfSortedArticle(rec: Record, saved: seq<string>, sorted: seq<string>, ids: seq<string>, inp: Inputs, bound: nat)
    requires OfArticle(rec, saved) && multiset(sorted) == multiset(ids)
    requires forall id :: id in saved ==> id in sorted && Due(inp, bound, id)
    ensures "articolo" in rec && exists id :: id in ids && rec["articolo"] == Str(id) && LeadingNumber(id).GetOr(0) > bound
  {
    var id :| id in saved && rec["articolo"] == Str(id);
    assert id in multiset(sorted);
  }

  /** The saved articles are visited in non-decreasing number order and the
      articles of one number keep their text order. */
  lemma SortedByNumber(ids: seq<string>)
    ensures var sorted := SortDesc(ids, NumberKey());
      && multiset(sorted) == multiset(ids)
      && (forall i, j :: 0 <= i < j < |sorted| ==> LeadingNumber(sorted[i]).GetOr(0) <= LeadingNumber(sorted[j]).GetOr(0))
      && forall v :: WithKey(sorted, v, NumberKey()) == WithKey(ids, v, NumberKey())
  {
    SortDescFacts(ids, NumberKey());
    var sorted := SortDesc(ids, NumberKey());
    forall i, j | 0 <= i < j < |sorted|
      ensures LeadingNumber(sorted[i]).GetOr(0) <= LeadingNumber(sorted[j]).GetOr(0)
    {
      assert NumberKey()(sorted[i]) >= NumberKey()(sorted[j]);
    }
  }

  /** A run that completes writes the progress file's records as output;
      a failure in phase A leaves the progress file as it was loaded, and
      the saved summaries are never changed by a run. */
  lemma EnrichmentRunSpec(parts: seq<seq<Chapter>>, converted: string, hs: seq<Heading>,
                          file: ProgressFile, o: Oracle)
    ensures var out := EnrichmentRun(parts, converted, hs, file, o);
      var start := if file.Saved? then file.data else Progress("0", map[], []);
      && (out.output.Some? ==> out.progress.Some? && out.output.value == out.progress.value.enriched)
      && (out.progress.None? ==> !file.Saved?)
      && (out.progress.Some? ==>
            && |out.progress.value.enriched| >= |start.enriched|
            && out.progress.value.enriched[..|start.enriched|] == start.enriched
            && forall t :: t in start.summaries ==>
                 t in out.progress.value.summaries && out.progress.value.summaries[t] == start.summaries[t])
  {
    var articles := Articles(converted, hs);
    var start := if file.Saved? then file.data else Progress("0", map[], []);
    var chapters := Flatten(parts);
    var st := SummaryState(start.summaries, 0, false);
    SummarizeChaptersSpec(chapters, 0, st, ChapterTexts(articles.values), SummarizeWith(o));
    var a := SummarizeChapters(chapters, 0, st, ChapterTexts(articles.values), SummarizeWith(o));
    if !a.crashed {
      PhaseBSpec(articles.keys, start, Inputs(chapters, articles.values, a.summaries), a.calls, SplitWith(o), KeywordsWith(o));
    }
  }

  // ---------------------------------------------------------------------
  // The loops

  /** Phase A's loop. */
  method SummarizeAll(chapters: seq<Chapter>, summaries: map<string, string>, text: Chapter -> string,
                      summarize: Summarizer) returns (r: SummaryState)
    ensures r == SummarizeChapters(chapters, 0, SummaryState(summaries, 0, false), text, summarize)
  {
    var chapterSummaries := summaries;
    var calls := 0;
    var k := 0;
    while k < |chapters|
      invariant 0 <= k <= |chapters|
      invariant SummarizeChapters(chapters, 0, SummaryState(summaries, 0, false), text, summarize)
             == SummarizeChapters(chapters, k, SummaryState(chapterSummaries, calls, false), text, summarize)
    {
      var title := chapters[k].title;
      if title !in chapterSummaries {
        var summary := summarize(calls, title, text(chapters[k]));
        calls := calls + 1;
        if summary.None? {
          return SummaryState(chapterSummaries, calls, true);
        }
        if !Contains(summary.value, Insufficient) {
          chapterSummaries := chapterSummaries[title := summary.value];
        }
      }
      k := k + 1;
    }
    r := SummaryState(chapterSummaries, calls, false);
  }

  /** The paragraph loop of one article. */
  method EnrichParagraphs(id: string, items: seq<Record>, calls: nat, context: string, kw: Keyworder)
    returns (r: CommaState)
    ensures r == EnrichCommi(id, items, 0, CommaState([], calls, false), context, kw)
  {
    var records: seq<Record> := [];
    var made := calls;
    var k := 0;
    while k < |items|
      invariant 0 <= k <= |items|
      invariant EnrichCommi(id, items, 0, CommaState([], calls, false), context, kw)
             == EnrichCommi(id, items, k, CommaState(records, made, false), context, kw)
    {
      var commaNum := GetOr(items[k], "comma_num", Str("1"));
      var commaText := GetOr(items[k], "testo_comma", Str(""));
      if !Truthy(commaText) {
        k := k + 1;
        continue;
      }
      var keywords := kw(made, commaText, context);
      made := made + 1;
      if keywords.None? {
        return CommaState(records, made, true);
      }
      records := records + [map["articolo" := Str(id), "comma" := commaNum,
                                 "testo_originale_comma" := commaText, "keywords" := keywords.value]];
      k := k + 1;
    }
    r := CommaState(records, made, false);
  }

  /** Phase B's loop over the sorted articles. */
  method EnrichAll(ids: seq<string>, bound: Option<nat>, inp: Inputs, enriched: seq<Record>, last: string,
                   calls: nat, split: Splitter, kw: Keyworder) returns (r: EnrichState)
    ensures r == EnrichArticles(ids, 0, bound, inp, EnrichState(enriched, last, calls, [], false), split, kw)
  {
    var saved := enriched;
    var lastSaved := last;
    var made := calls;
    var done: seq<string> := [];
    var j := 0;
    while j < |ids|
      invariant 0 <= j <= |ids|
      invariant EnrichArticles(ids, 0, bound, inp, EnrichState(enriched, last, calls, [], false), split, kw)
             == EnrichArticles(ids, j, bound, inp, EnrichState(saved, lastSaved, made, done, false), split, kw)
    {
      var id := ids[j];
      if bound.None? {
        return EnrichState(saved, lastSaved, made, done, true);
      }
      if LeadingNumber(id).GetOr(0) <= bound.value {
        j := j + 1;
        continue;
      }
      var chapter := ChapterOf(inp.chapters, id);
      if chapter.None? || chapter.value == "" {
        j := j + 1;
        continue;
      }
      var context := if chapter.value in inp.summaries then inp.summaries[chapter.value] else NoChapterContext;
      var text := if id in inp.articles then inp.articles[id] else "";
      var items := split(made, text);
      var a := EnrichParagraphs(id, items, made + 1, context, kw);
      made := a.calls;
      if a.crashed {
        return EnrichState(saved, lastSaved, made, done, true);
      }
      saved := saved + a.records;
      lastSaved := id;
      done := done + [id];
      j := j + 1;
    }
    r := EnrichState(saved, lastSaved, made, done, false);
  }

  /** `run_enrichment` */
  method RunEnrichment(parts: seq<seq<Chapter>>, converted: string, hs: seq<Heading>,
                       file: ProgressFile, o: Oracle) returns (out: Outcome)
    ensures out == EnrichmentRun(parts, converted, hs, file, o)
  {
    var articles := ExtractArticles(HeadingLine, Some(CleanTextBlankLines(converted)), hs);
    var start := if file.Saved? then file.data else Progress("0", map[], []);
    var chapters := Flatten(parts);
    var a := SummarizeAll(chapters, start.summaries, ChapterTexts(articles.values), SummarizeWith(o));
    if a.crashed {
      return Outcome(if file.Saved? then Some(file.data) else None, None);
    }
    var afterA := Progress(start.last, a.summaries, start.enriched);
    var ids := articles.keys;
    if exists i :: 0 <= i < |ids| && LeadingNumber(ids[i]).None? {
      return Outcome(Some(afterA), None);
    }
    var sorted := SortDesc(ids, NumberKey());
    var b := EnrichAll(sorted, LeadingNumber(start.last), Inputs(chapters, articles.values, a.summaries),
                       start.enriched, start.last, a.calls, SplitWith(o), KeywordsWith(o));
    out := Outcome(Some(Progress(b.last, a.summaries, b.enriched)), if b.crashed then None else Some(b.enriched));
  }
}
