// Semantic tagging of the Chamber rulebook's paragraphs (`3_create_tags.py`):
// the keywords records are grouped by article, articles already in the
// progress file are skipped, and each remaining paragraph is sent to the
// language model, whose reply is parsed as a list of tags. An article is
// saved only when every one of its paragraphs was tagged, and five
// consecutive failures end the run. The model and the JSON decoder are
// parameters: `reply` answers the n-th request (None for a failed call or an
// empty answer) and `parse` decodes a reply (None for a decoding error).
module Tags {
  import opened Wrappers
  import opened Text
  import opened Json
  import opened JsonExtract

  const ErrorLimit: nat := 5
  const NoContext := "Nessun contesto generale disponibile."

  // ---------------------------------------------------------------------
  // Grouping by article

  /** `comma.get("articolo")` */
  function ArticleOf(rec: Record): Value {
    GetOr(rec, "articolo", Null)
  }

  function Articles(records: seq<Record>): (r: seq<Value>)
    ensures |r| == |records| && forall i :: 0 <= i < |r| ==> r[i] == ArticleOf(records[i])
  {
    seq(|records|, i requires 0 <= i < |records| => ArticleOf(records[i]))
  }

  /** The keys of `commi_per_articolo`: each article once, in order of first
      appearance. */
  function ArticleIds(records: seq<Record>): seq<Value> {
    Dedup(Articles(records))
  }

  /** `commi_per_articolo[a]`: the article's records in input order. */
  function Group(records: seq<Record>, a: Value): seq<Record> {
    if records == [] then []
    else
      var rest := Group(records[..|records| - 1], a);
      if ArticleOf(records[|records| - 1]) == a then rest + [records[|records| - 1]] else rest
  }

  lemma {:induction false} GroupMembers(records: seq<Record>, a: Value)
    ensures forall r :: r in Group(records, a) <==> r in records && ArticleOf(r) == a
    ensures |Group(records, a)| <= |records|
  {
    if records != [] {
      var init := records[..|records| - 1];
      GroupMembers(init, a);
      assert records == init + [records[|records| - 1]];
    }
  }

  /** One more record extends its article's group, and the article list
      when the article is new. */
  lemma GroupStep(records: seq<Record>, i: nat)
    requires i < |records|
    ensures ArticleIds(records[..i + 1]) == (if ArticleOf(records[i]) in ArticleIds(records[..i])
      then ArticleIds(records[..i]) else ArticleIds(records[..i]) + [ArticleOf(records[i])])
    ensures forall a :: Group(records[..i + 1], a) == (if ArticleOf(records[i]) == a
      then Group(records[..i], a) + [records[i]] else Group(records[..i], a))
  {
    var prefix := records[..i + 1];
    assert prefix[..i] == records[..i];
    assert Articles(prefix)[..i] == Articles(records[..i]);
  }

  /** An article that is not listed has no records. */
  lemma UnlistedGroupEmpty(records: seq<Record>, a: Value)
    requires a !in ArticleIds(records)
    ensures Group(records, a) == []
  {
    GroupMembers(records, a);
    forall k | 0 <= k < |records| ensures ArticleOf(records[k]) != a {
      assert Articles(records)[k] == ArticleOf(records[k]);
    }
    assert forall r :: r !in Group(records, a);
  }

  /** Filing one more record keeps the article list and the groups those
      of the records seen so far. */
  lemma GroupInsertStep(records: seq<Record>, i: nat, ids: seq<Value>, groups: map<Value, seq<Record>>)
    requires i < |records|
    requires ids == ArticleIds(records[..i])
    requires forall a :: a in groups <==> a in ids
    requires forall a :: a in groups ==> groups[a] == Group(records[..i], a)
    ensures var a := ArticleOf(records[i]);
      var ids' := if a in groups then ids else ids + [a];
      var groups' := if a in groups then groups[a := groups[a] + [records[i]]] else groups[a := [records[i]]];
      && ids' == ArticleIds(records[..i + 1])
      && (forall b :: b in groups' <==> b in ids')
      && (forall b :: b in groups' ==> groups'[b] == Group(records[..i + 1], b))
  {
    GroupStep(records, i);
    var a := ArticleOf(records[i]);
    if a !in groups {
      UnlistedGroupEmpty(records[..i], a);
    }
  }

  /** Building the `defaultdict(list)` of records per article. */
  method GroupByArticle(records: seq<Record>) returns (ids: seq<Value>, groups: map<Value, seq<Record>>)
    ensures ids == ArticleIds(records)
    ensures forall a :: a in groups <==> a in ids
    ensures forall a :: a in groups ==> groups[a] == Group(records, a)
  {
    ids := [];
    groups := map[];
    var i := 0;
    while i < |records|
      invariant 0 <= i <= |records|
      invariant ids == ArticleIds(records[..i])
      invariant forall a :: a in groups <==> a in ids
      invariant forall a :: a in groups ==> groups[a] == Group(records[..i], a)
    {
      GroupInsertStep(records, i, ids, groups);
      var a := ArticleOf(records[i]);
      if a in groups {
        groups := groups[a := groups[a] + [records[i]]];
      } else {
        ids := ids + [a];
        groups := groups[a := [records[i]]];
      }
      i := i + 1;
    }
    assert records[..|records|] == records;
  }

  // ---------------------------------------------------------------------
  // Resuming

  /** The progress file: absent, undecodable, or the records saved so far. */
  datatype ProgressFile = Missing | Corrupt | Saved(records: seq<Record>)

  /** The records a run starts from. */
  function Prior(progress: ProgressFile): seq<Record> {
    if progress.Saved? then progress.records else []
  }

  /** `processed_articles`: the articles of the saved records. */
  function Processed(progress: ProgressFile): set<Value> {
    set r | r in Prior(progress) :: ArticleOf(r)
  }

  /** `articles_to_process_ids`: the articles not yet processed, in order. */
  function ToProcess(ids: seq<Value>, processed: set<Value>): (r: seq<Value>)
    ensures |r| <= |ids|
    ensures forall a :: a in r <==> a in ids && a !in processed
  {
    if ids == [] then []
    else
      var rest := ToProcess(ids[..|ids| - 1], processed);
      assert ids == ids[..|ids| - 1] + [ids[|ids| - 1]];
      if ids[|ids| - 1] in processed then rest else rest + [ids[|ids| - 1]]
  }

  /** The articles still to process are distinct, like the grouping's keys. */
  lemma {:induction false} ToProcessDistinct(ids: seq<Value>, processed: set<Value>)
    requires forall i, j :: 0 <= i < j < |ids| ==> ids[i] != ids[j]
    ensures var r := ToProcess(ids, processed);
      forall i, j :: 0 <= i < j < |r| ==> r[i] != r[j]
  {
    if ids != [] {
      var init := ids[..|ids| - 1];
      ToProcessDistinct(init, processed);
      assert ids == init + [ids[|ids| - 1]];
      assert ids[|ids| - 1] !in init;
      assert ids[|ids| - 1] !in ToProcess(init, processed);
    }
  }

  // ---------------------------------------------------------------------
  // One paragraph

  /** What the prompt is filled with: the section summary and the text. */
  datatype TagRequest = TagRequest(contextSummary: string, commaText: Value)

  /** The model, numbered by call, and the JSON decoder. */
  datatype Oracle = Oracle(reply: (nat, TagRequest) -> Option<string>, parse: string -> Option<Value>)

  /** The section the paragraph belongs to: the level-2 title if truthy,
      otherwise the level-1 title, "N/D" when that is absent. */
  function ParentTitle(item: Record): Value {
    var meta := GetOr(item, "metadati", Obj(map[]));
    var fields := if meta.Obj? then meta.fields else map[];
    var level2 := GetOr(fields, "livello_2_title", Null);
    if Truthy(level2) then level2 else GetOr(fields, "livello_1_title", Str("N/D"))
  }

  function Request(item: Record, summaries: map<string, Value>): TagRequest {
    var title := ParentTitle(item);
    var context := if title.Str? && title.s in summaries then PyStr(summaries[title.s]) else NoContext;
    TagRequest(context, GetOr(item, "testo_originale_comma", Str("")))
  }

  /** The tags of one paragraph, None when the call or the decoding failed;
      a decoded value that is not a list becomes the empty list. */
  function TagsOf(call: nat, item: Record, summaries: map<string, Value>, o: Oracle): (r: Option<Value>)
    ensures r.Some? ==> r.value.Strs?
  {
    var reply := o.reply(call, Request(item, summaries));
    if reply.None? then None
    else
      var v := o.parse(CleanJson(reply.value, ListShape));
      if v.None? then None
      else if v.value.Strs? then v
      else Some(Strs([]))
  }

  /** The tagging step as the loops see it: call number and record to
      the tags, or None. */
  function Tagger(summaries: map<string, Value>, o: Oracle): (nat, Record) -> Option<Value> {
    (call: nat, item: Record) => TagsOf(call, item, summaries, o)
  }

  // ---------------------------------------------------------------------
  // One article

  /** The state of the paragraph loop: the tagged records, whether a
      paragraph failed, the consecutive-error counter and the calls made. */
  datatype ArticleState = ArticleState(tagged: seq<Record>, failed: bool, errors: nat, calls: nat)

  /** The paragraph loop from paragraph `k` on, in state `st`. */
  function TagCommi(items: seq<Record>, k: nat, st: ArticleState, tag: (nat, Record) -> Option<Value>): ArticleState
    decreases |items| - k
  {
    if k >= |items| then st
    else
      var t := tag(st.calls, items[k]);
      if t.Some? then
        TagCommi(items, k + 1, ArticleState(st.tagged + [items[k]["tags" := t.value]], st.failed, 0, st.calls + 1), tag)
      else if st.errors + 1 >= ErrorLimit then
        ArticleState(st.tagged, true, st.errors + 1, st.calls + 1)
      else
        TagCommi(items, k + 1, ArticleState(st.tagged, true, st.errors + 1, st.calls + 1), tag)
  }

  /** The record with its tags added, and nothing else changed. */
  predicate IsTagged(r: Record, item: Record) {
    && r.Keys == item.Keys + {"tags"}
    && forall f :: f in item && f != "tags" ==> r[f] == item[f]
  }

  /** Each record of `tagged` is the record of `items` at the same place,
      tagged. */
  predicate AllTagged(tagged: seq<Record>, items: seq<Record>) {
    |tagged| == |items| && forall m :: 0 <= m < |items| ==> IsTagged(tagged[m], items[m])
  }

  lemma AllTaggedCons(x: Record, item: Record, tagged: seq<Record>, items: seq<Record>)
    requires IsTagged(x, item) && AllTagged(tagged, items)
    ensures AllTagged([x] + tagged, [item] + items)
  {
    forall m | 0 <= m < |items| + 1 ensures IsTagged(([x] + tagged)[m], ([item] + items)[m]) {
      if m > 0 {
        assert ([x] + tagged)[m] == tagged[m - 1];
        assert ([item] + items)[m] == items[m - 1];
      }
    }
  }

  /** When no paragraph fails, every paragraph is tagged, in order, and the
      error counter ends at 0 (it is reset by each success). */
  lemma {:induction false} TagCommiClean(items: seq<Record>, k: nat, st: ArticleState, tag: (nat, Record) -> Option<Value>)
    requires k <= |items| && !st.failed
    ensures var r := TagCommi(items, k, st, tag);
      !r.failed ==>
        && |r.tagged| >= |st.tagged|
        && r.tagged[..|st.tagged|] == st.tagged
        && AllTagged(r.tagged[|st.tagged|..], items[k..])
        && (k < |items| ==> r.errors == 0)
    decreases |items| - k
  {
    if k == |items| {
      assert st.tagged[|st.tagged|..] == [] && items[k..] == [];
    } else {
      var t := tag(st.calls, items[k]);
      if t.Some? {
        var x := items[k]["tags" := t.value];
        var next := ArticleState(st.tagged + [x], st.failed, 0, st.calls + 1);
        TagCommiClean(items, k + 1, next, tag);
        var r := TagCommi(items, k + 1, next, tag);
        if !r.failed {
          PrefixChain(st.tagged, next.tagged, r.tagged);
          assert r.tagged[|st.tagged|] == r.tagged[..|next.tagged|][|st.tagged|];
          assert r.tagged[|st.tagged|..] == [x] + r.tagged[|next.tagged|..];
          assert items[k..] == [items[k]] + items[k + 1..];
          AllTaggedCons(x, items[k], r.tagged[|next.tagged|..], items[k + 1..]);
        }
      } else {
        TagCommiFails(items, k + 1, ArticleState(st.tagged, true, st.errors + 1, st.calls + 1), tag);
      }
    }
  }

  /** An article none of whose paragraphs failed has every paragraph tagged. */
  lemma ArticleClean(items: seq<Record>, errors: nat, calls: nat, tag: (nat, Record) -> Option<Value>)
    ensures var r := TagCommi(items, 0, ArticleState([], false, errors, calls), tag);
      !r.failed ==> AllTagged(r.tagged, items)
  {
    var st := ArticleState([], false, errors, calls);
    TagCommiClean(items, 0, st, tag);
    var r := TagCommi(items, 0, st, tag);
    assert r.tagged[0..] == r.tagged && items[0..] == items;
  }

  /** Once a paragraph has failed the article stays failed. */
  lemma {:induction false} TagCommiFails(items: seq<Record>, k: nat, st: ArticleState, tag: (nat, Record) -> Option<Value>)
    requires st.failed
    ensures TagCommi(items, k, st, tag).failed
    decreases |items| - k
  {
    if k < |items| {
      var t := tag(st.calls, items[k]);
      if t.Some? {
        TagCommiFails(items, k + 1, ArticleState(st.tagged + [items[k]["tags" := t.value]], st.failed, 0, st.calls + 1), tag);
      } else if st.errors + 1 < ErrorLimit {
        TagCommiFails(items, k + 1, ArticleState(st.tagged, true, st.errors + 1, st.calls + 1), tag);
      }
    }
  }

  /** The counter never passes the limit, and reaching it means a failure. */
  lemma {:induction false} TagCommiLimit(items: seq<Record>, k: nat, st: ArticleState, tag: (nat, Record) -> Option<Value>)
    requires st.errors < ErrorLimit
    ensures var r := TagCommi(items, k, st, tag);
      r.errors <= ErrorLimit && (r.errors == ErrorLimit ==> r.failed)
    decreases |items| - k
  {
    if k < |items| {
      var t := tag(st.calls, items[k]);
      if t.Some? {
        TagCommiLimit(items, k + 1, ArticleState(st.tagged + [items[k]["tags" := t.value]], st.failed, 0, st.calls + 1), tag);
      } else if st.errors + 1 < ErrorLimit {
        TagCommiLimit(items, k + 1, ArticleState(st.tagged, true, st.errors + 1, st.calls + 1), tag);
      }
    }
  }

  /** The paragraph loop of one article. */
  method TagArticle(items: seq<Record>, errors: nat, calls: nat, tag: (nat, Record) -> Option<Value>)
    returns (r: ArticleState)
    ensures r == TagCommi(items, 0, ArticleState([], false, errors, calls), tag)
  {
    var tagged: seq<Record> := [];
    var errorInArticle := false;
    var consecutive: nat := errors;
    var made: nat := calls;
    var k := 0;
    while k < |items|
      invariant 0 <= k <= |items|
      invariant TagCommi(items, 0, ArticleState([], false, errors, calls), tag)
             == TagCommi(items, k, ArticleState(tagged, errorInArticle, consecutive, made), tag)
    {
      var t := tag(made, items[k]);
      made := made + 1;
      if t.None? {
        consecutive := consecutive + 1;
        errorInArticle := true;
        if consecutive >= ErrorLimit {
          break;
        }
        k := k + 1;
        continue;
      }
      consecutive := 0;
      tagged := tagged + [items[k]["tags" := t.value]];
      k := k + 1;
    }
    r := ArticleState(tagged, errorInArticle, consecutive, made);
  }

  // ---------------------------------------------------------------------
  // The run

  /** The state of the article loop: the records to save, the counter, the
      calls made, the articles whose progress was saved, and whether the
      progress file exists. */
  datatype RunState = RunState(enriched: seq<Record>, errors: nat, calls: nat, saved: seq<Value>, written: bool)

  /** The article loop from article `j` of `todo` on. */
  function RunArticles(records: seq<Record>, todo: seq<Value>, j: nat, st: RunState,
                       tag: (nat, Record) -> Option<Value>): RunState
    decreases |todo| - j
  {
    if j >= |todo| then st
    else
      var a := TagCommi(Group(records, todo[j]), 0, ArticleState([], false, st.errors, st.calls), tag);
      if a.errors >= ErrorLimit then RunState(st.enriched, a.errors, a.calls, st.saved, st.written)
      else if a.failed then RunArticles(records, todo, j + 1, RunState(st.enriched, a.errors, a.calls, st.saved, st.written), tag)
      else RunArticles(records, todo, j + 1, RunState(st.enriched + a.tagged, a.errors, a.calls, st.saved + [todo[j]], true), tag)
  }

  /** What a run leaves: the records in the progress (or final) file, the
      articles saved, the final counter and whether the progress file was
      renamed to the final one. */
  datatype Outcome = Outcome(enriched: seq<Record>, saved: seq<Value>, errors: nat, renamed: bool)

  /** `main`, given the keywords records, the summaries, the progress file
      and whether the final file already exists. */
  function TagRun(records: seq<Record>, summaries: map<string, Value>, progress: ProgressFile,
                  finalExists: bool, o: Oracle): Outcome
  {
    var todo := ToProcess(ArticleIds(records), Processed(progress));
    if todo == [] then Outcome(Prior(progress), [], 0, !finalExists && !progress.Missing?)
    else
      var st := RunArticles(records, todo, 0, RunState(Prior(progress), 0, 0, [], !progress.Missing?), Tagger(summaries, o));
      Outcome(st.enriched, st.saved, st.errors, st.errors < ErrorLimit && st.written)
  }

  /** The records of the saved articles, counted article by article. */
  function SavedSize(records: seq<Record>, saved: seq<Value>): nat {
    if saved == [] then 0
    else SavedSize(records, saved[..|saved| - 1]) + |Group(records, saved[|saved| - 1])|
  }

  /** The article loop keeps the articles saved before and adds articles of
      `todo` only; the counter never passes the limit, and the progress file
      exists once an article is saved. */
  lemma {:induction false} RunArticlesSaved(records: seq<Record>, todo: seq<Value>, j: nat, st: RunState,
                                            tag: (nat, Record) -> Option<Value>)
    requires j <= |todo| && st.errors < ErrorLimit
    ensures var r := RunArticles(records, todo, j, st, tag);
      && |r.saved| >= |st.saved| && r.saved[..|st.saved|] == st.saved
      && (forall a :: a in r.saved ==> a in st.saved || a in todo[j..])
      && r.errors <= ErrorLimit
      && (st.written || r.saved != st.saved ==> r.written)
    decreases |todo| - j
  {
    if j < |todo| {
      var items := Group(records, todo[j]);
      var init := ArticleState([], false, st.errors, st.calls);
      var a := TagCommi(items, 0, init, tag);
      TagCommiLimit(items, 0, init, tag);
      assert todo[j + 1..] == todo[j..][1..];
      if a.errors < ErrorLimit {
        if a.failed {
          RunArticlesSaved(records, todo, j + 1, RunState(st.enriched, a.errors, a.calls, st.saved, st.written), tag);
        } else {
          var next := RunState(st.enriched + a.tagged, a.errors, a.calls, st.saved + [todo[j]], true);
          RunArticlesSaved(records, todo, j + 1, next, tag);
          var r := RunArticles(records, todo, j + 1, next, tag);
          assert next.saved[..|st.saved|] == st.saved;
          PrefixChain(st.saved, next.saved, r.saved);
          assert todo[j] in todo[j..];
        }
      }
    }
  }

  /** The article loop keeps the records saved before and appends whole
      articles only: each saved article adds as many records as it has
      paragraphs, each with its tags, and an article with a failed paragraph
      adds nothing. */
  lemma {:induction false} RunArticlesAppends(records: seq<Record>, todo: seq<Value>, j: nat, st: RunState,
                                              tag: (nat, Record) -> Option<Value>)
    requires j <= |todo| && st.errors < ErrorLimit
    ensures var r := RunArticles(records, todo, j, st, tag);
      && |r.enriched| >= |st.enriched| && r.enriched[..|st.enriched|] == st.enriched
      && |r.enriched| - |st.enriched| == SavedSize(records, r.saved) - SavedSize(records, st.saved)
      && (forall k :: |st.enriched| <= k < |r.enriched| ==> "tags" in r.enriched[k])
    decreases |todo| - j
  {
    if j < |todo| {
      var items := Group(records, todo[j]);
      var init := ArticleState([], false, st.errors, st.calls);
      var a := TagCommi(items, 0, init, tag);
      TagCommiLimit(items, 0, init, tag);
      if a.errors < ErrorLimit {
        if a.failed {
          RunArticlesAppends(records, todo, j + 1, RunState(st.enriched, a.errors, a.calls, st.saved, st.written), tag);
        } else {
          ArticleClean(items, st.errors, st.calls, tag);
          var next := RunState(st.enriched + a.tagged, a.errors, a.calls, st.saved + [todo[j]], true);
          RunArticlesAppends(records, todo, j + 1, next, tag);
          var r := RunArticles(records, todo, j + 1, next, tag);
          assert SavedSize(records, next.saved) == SavedSize(records, st.saved) + |items|;
          AppendWhole(st.enriched, a.tagged, items, r.enriched);
        }
      }
    }
  }

  /** Records appended after a whole tagged article, with tags, leave the
      earlier records in place and all carry tags. */
  lemma AppendWhole(before: seq<Record>, tagged: seq<Record>, items: seq<Record>, after: seq<Record>)
    requires AllTagged(tagged, items)
    requires |after| >= |before + tagged| && after[..|before + tagged|] == before + tagged
    requires forall k :: |before + tagged| <= k < |after| ==> "tags" in after[k]
    ensures after[..|before|] == before
    ensures forall k :: |before| <= k < |after| ==> "tags" in after[k]
  {
    PrefixChain(before, before + tagged, after);
    forall k | |before| <= k < |before + tagged| ensures "tags" in after[k] {
      assert after[k] == (before + tagged)[k];
      assert IsTagged(tagged[k - |before|], items[k - |before|]);
    }
  }

  lemma PrefixChain<T>(a: seq<T>, b: seq<T>, c: seq<T>)
    requires |a| <= |b| <= |c| && c[..|b|] == b && b[..|a|] == a
    ensures c[..|a|] == a
  {
    assert c[..|a|] == c[..|b|][..|a|];
  }

  /** The tagger answers every paragraph of `items` from `k` on, paragraph
      `m` at call `c + (m - k)`. */
  predicate AnswersFrom(items: seq<Record>, k: nat, c: nat, tag: (nat, Record) -> Option<Value>) {
    forall m :: k <= m < |items| ==> tag(c + (m - k), items[m]).Some?
  }

  /** Answering from paragraph `k` is answering it and then the rest. */
  lemma AnswersFromStep(items: seq<Record>, k: nat, c: nat, tag: (nat, Record) -> Option<Value>)
    requires k < |items|
    ensures AnswersFrom(items, k, c, tag) <==> tag(c, items[k]).Some? && AnswersFrom(items, k + 1, c + 1, tag)
  {
    if tag(c, items[k]).Some? && AnswersFrom(items, k + 1, c + 1, tag) {
      forall m | k < m < |items| ensures tag(c + (m - k), items[m]).Some? {
        assert c + (m - k) == c + 1 + (m - (k + 1));
      }
    }
    if AnswersFrom(items, k, c, tag) {
      forall m | k + 1 <= m < |items| ensures tag(c + 1 + (m - (k + 1)), items[m]).Some? {
        assert c + (m - k) == c + 1 + (m - (k + 1));
      }
    }
  }

  /** Unless it reaches the limit, the paragraph loop makes one call per
      paragraph, and it fails exactly when some call goes unanswered; when
      every call is answered it fails no more than it did and the counter
      does not grow. */
  lemma {:induction false} TagCommiAnswers(items: seq<Record>, k: nat, st: ArticleState, tag: (nat, Record) -> Option<Value>)
    requires k <= |items| && st.errors < ErrorLimit
    ensures var r := TagCommi(items, k, st, tag);
      && (r.errors < ErrorLimit ==>
            r.calls == st.calls + (|items| - k) && (r.failed <==> st.failed || !AnswersFrom(items, k, st.calls, tag)))
      && (AnswersFrom(items, k, st.calls, tag) ==> r.failed == st.failed && r.errors <= st.errors)
    decreases |items| - k
  {
    if k < |items| {
      AnswersFromStep(items, k, st.calls, tag);
      var t := tag(st.calls, items[k]);
      if t.Some? {
        TagCommiAnswers(items, k + 1, ArticleState(st.tagged + [items[k]["tags" := t.value]], st.failed, 0, st.calls + 1), tag);
      } else if st.errors + 1 < ErrorLimit {
        TagCommiAnswers(items, k + 1, ArticleState(st.tagged, true, st.errors + 1, st.calls + 1), tag);
      }
    }
  }

  /** The reference for the article loop: the articles of `todo` from `j` on
      whose every paragraph the tagger answers, the paragraphs taking
      consecutive calls from `c` on. */
  function Kept(records: seq<Record>, todo: seq<Value>, j: nat, c: nat, tag: (nat, Record) -> Option<Value>): seq<Value>
    decreases |todo| - j
  {
    if j >= |todo| then []
    else
      var items := Group(records, todo[j]);
      (if AnswersFrom(items, 0, c, tag) then [todo[j]] else []) + Kept(records, todo, j + 1, c + |items|, tag)
  }

  /** A loop that did not reach the limit saved exactly the kept articles,
      in order; one stopped by the limit saved a prefix of them. */
  lemma {:induction false} RunArticlesComplete(records: seq<Record>, todo: seq<Value>, j: nat, st: RunState,
                                               tag: (nat, Record) -> Option<Value>)
    requires j <= |todo| && st.errors < ErrorLimit
    ensures var r := RunArticles(records, todo, j, st, tag);
      && (r.errors < ErrorLimit ==> r.saved == st.saved + Kept(records, todo, j, st.calls, tag))
      && r.saved <= st.saved + Kept(records, todo, j, st.calls, tag)
    decreases |todo| - j
  {
    if j < |todo| {
      var items := Group(records, todo[j]);
      var init := ArticleState([], false, st.errors, st.calls);
      var a := TagCommi(items, 0, init, tag);
      TagCommiAnswers(items, 0, init, tag);
      var rest := Kept(records, todo, j + 1, st.calls + |items|, tag);
      assert Kept(records, todo, j, st.calls, tag) == (if AnswersFrom(items, 0, st.calls, tag) then [todo[j]] else []) + rest;
      if a.errors < ErrorLimit {
        if a.failed {
          RunArticlesComplete(records, todo, j + 1, RunState(st.enriched, a.errors, a.calls, st.saved, st.written), tag);
          assert Kept(records, todo, j, st.calls, tag) == rest;
        } else {
          var next := RunState(st.enriched + a.tagged, a.errors, a.calls, st.saved + [todo[j]], true);
          RunArticlesComplete(records, todo, j + 1, next, tag);
          assert st.saved + [todo[j]] + rest == st.saved + ([todo[j]] + rest);
        }
      } else {
        assert st.saved <= st.saved + Kept(records, todo, j, st.calls, tag);
      }
    } else {
      assert st.saved + [] == st.saved;
    }
  }

  /** The paragraphs of the articles `ids`, article after article. */
  function GroupsOf(records: seq<Record>, ids: seq<Value>): seq<Record> {
    if ids == [] then [] else Group(records, ids[0]) + GroupsOf(records, ids[1..])
  }

  lemma AllTaggedAppend(t1: seq<Record>, i1: seq<Record>, t2: seq<Record>, i2: seq<Record>)
    requires AllTagged(t1, i1) && AllTagged(t2, i2)
    ensures AllTagged(t1 + t2, i1 + i2)
  {
    forall m | 0 <= m < |i1 + i2| ensures IsTagged((t1 + t2)[m], (i1 + i2)[m]) {
      if m >= |i1| {
        assert (t1 + t2)[m] == t2[m - |i1|] && (i1 + i2)[m] == i2[m - |i1|];
      }
    }
  }

  /** Saving one more article puts its tagged paragraphs in front of those of
      the articles saved after it. */
  lemma TaggedStep(enriched: seq<Record>, saved: seq<Value>, tagged: seq<Record>, a: Value, records: seq<Record>,
                   ids: seq<Value>, after: seq<Record>, r: RunState)
    requires AllTagged(tagged, Group(records, a))
    requires r.saved == saved + [a] + ids && r.enriched == enriched + tagged + after
    requires AllTagged(after, GroupsOf(records, ids))
    ensures r.saved == saved + ([a] + ids) && r.enriched == enriched + (tagged + after)
    ensures AllTagged(tagged + after, GroupsOf(records, [a] + ids))
  {
    assert ([a] + ids)[1..] == ids;
    AllTaggedAppend(tagged, Group(records, a), after, GroupsOf(records, ids));
  }

  /** The records the loop appends are the paragraphs of the articles it
      saves, article after article, each tagged. */
  lemma {:induction false} RunArticlesTagged(records: seq<Record>, todo: seq<Value>, j: nat, st: RunState,
                                             tag: (nat, Record) -> Option<Value>)
    returns (ids: seq<Value>, added: seq<Record>)
    requires j <= |todo| && st.errors < ErrorLimit
    ensures var r := RunArticles(records, todo, j, st, tag);
      r.saved == st.saved + ids && r.enriched == st.enriched + added && AllTagged(added, GroupsOf(records, ids))
    decreases |todo| - j
  {
    ids, added := [], [];
    if j < |todo| {
      var items := Group(records, todo[j]);
      var init := ArticleState([], false, st.errors, st.calls);
      var a := TagCommi(items, 0, init, tag);
      TagCommiLimit(items, 0, init, tag);
      if a.errors < ErrorLimit {
        if a.failed {
          ids, added := RunArticlesTagged(records, todo, j + 1, RunState(st.enriched, a.errors, a.calls, st.saved, st.written), tag);
        } else {
          ArticleClean(items, st.errors, st.calls, tag);
          var next := RunState(st.enriched + a.tagged, a.errors, a.calls, st.saved + [todo[j]], true);
          var rest, after := RunArticlesTagged(records, todo, j + 1, next, tag);
          TaggedStep(st.enriched, st.saved, a.tagged, todo[j], records, rest, after, RunArticles(records, todo, j + 1, next, tag));
          ids, added := [todo[j]] + rest, a.tagged + after;
        }
      } else {
        assert st.saved + [] == st.saved && st.enriched + [] == st.enriched;
      }
    } else {
      assert st.saved + [] == st.saved && st.enriched + [] == st.enriched;
    }
  }

  /** When the tagger always answers, every article to do is kept. */
  lemma {:induction false} KeptAll(records: seq<Record>, todo: seq<Value>, j: nat, c: nat, tag: (nat, Record) -> Option<Value>)
    requires j <= |todo|
    requires forall call: nat, item: Record :: tag(call, item).Some?
    ensures Kept(records, todo, j, c, tag) == todo[j..]
    decreases |todo| - j
  {
    if j < |todo| {
      KeptAll(records, todo, j + 1, c + |Group(records, todo[j])|, tag);
      assert todo[j..] == [todo[j]] + todo[j + 1..];
    }
  }

  /** When the tagger always answers, the loop never stops and its counter
      does not grow. */
  lemma {:induction false} RunArticlesAllAnswer(records: seq<Record>, todo: seq<Value>, j: nat, st: RunState,
                                                tag: (nat, Record) -> Option<Value>)
    requires j <= |todo| && st.errors < ErrorLimit
    requires forall call: nat, item: Record :: tag(call, item).Some?
    ensures var r := RunArticles(records, todo, j, st, tag);
      r.errors <= st.errors && r.saved == st.saved + todo[j..] && (r.written <==> st.written || j < |todo|)
    decreases |todo| - j
  {
    if j < |todo| {
      var items := Group(records, todo[j]);
      var init := ArticleState([], false, st.errors, st.calls);
      var a := TagCommi(items, 0, init, tag);
      TagCommiAnswers(items, 0, init, tag);
      var next := RunState(st.enriched + a.tagged, a.errors, a.calls, st.saved + [todo[j]], true);
      RunArticlesAllAnswer(records, todo, j + 1, next, tag);
      assert todo[j..] == [todo[j]] + todo[j + 1..];
    }
  }

  /** A run stopped by the error limit does not rename the progress file. */
  lemma StoppedRunKeepsProgressFile(records: seq<Record>, summaries: map<string, Value>, progress: ProgressFile,
                                    finalExists: bool, o: Oracle)
    ensures var out := TagRun(records, summaries, progress, finalExists, o);
      out.errors >= ErrorLimit ==> !out.renamed
  {
  }

  /** A run keeps the saved progress and appends the paragraphs of the
      articles it saves, each tagged; those are the articles not already
      saved whose every paragraph the model tagged, in order (a prefix of
      them when the limit stopped the run); with nothing to do it renames
      the progress file iff one exists and the final file does not; when
      the model always answers, every article is saved and the file is
      renamed. */
  lemma TagRunSpec(records: seq<Record>, summaries: map<string, Value>, progress: ProgressFile,
                   finalExists: bool, o: Oracle)
    ensures var out := TagRun(records, summaries, progress, finalExists, o);
      var todo := ToProcess(ArticleIds(records), Processed(progress));
      && |out.enriched| >= |Prior(progress)| && out.enriched[..|Prior(progress)|] == Prior(progress)
      && AllTagged(out.enriched[|Prior(progress)|..], GroupsOf(records, out.saved))
      && (forall a :: a in out.saved ==> a in ArticleIds(records) && a !in Processed(progress))
      && |out.enriched| - |Prior(progress)| == SavedSize(records, out.saved)
      && out.errors <= ErrorLimit
      && (out.errors < ErrorLimit ==> out.saved == Kept(records, todo, 0, 0, Tagger(summaries, o)))
      && out.saved <= Kept(records, todo, 0, 0, Tagger(summaries, o))
      && (todo == [] ==> out.renamed == (!finalExists && !progress.Missing?))
      && ((forall call: nat, item: Record :: TagsOf(call, item, summaries, o).Some?) ==>
            out.saved == todo && out.errors == 0 && out.renamed == (todo != [] || (!finalExists && !progress.Missing?)))
  {
    var todo := ToProcess(ArticleIds(records), Processed(progress));
    var tag := Tagger(summaries, o);
    if todo != [] {
      var st := RunState(Prior(progress), 0, 0, [], !progress.Missing?);
      RunArticlesSaved(records, todo, 0, st, tag);
      RunArticlesAppends(records, todo, 0, st, tag);
      RunArticlesComplete(records, todo, 0, st, tag);
      var ids, added := RunArticlesTagged(records, todo, 0, st, tag);
      var r := RunArticles(records, todo, 0, st, tag);
      assert r.enriched[|Prior(progress)|..] == added;
      if forall call: nat, item: Record :: TagsOf(call, item, summaries, o).Some? {
        assert forall call: nat, item: Record :: tag(call, item).Some?;
        RunArticlesAllAnswer(records, todo, 0, st, tag);
      }
      assert todo[0..] == todo;
    } else {
      assert Prior(progress)[|Prior(progress)|..] == [];
    }
  }

  /** The article loop of `main`. */
  method ProcessArticles(records: seq<Record>, todo: seq<Value>, groups: map<Value, seq<Record>>,
                         prior: seq<Record>, written: bool, tag: (nat, Record) -> Option<Value>)
    returns (r: RunState)
    requires forall a :: a in todo ==> a in groups && groups[a] == Group(records, a)
    ensures r == RunArticles(records, todo, 0, RunState(prior, 0, 0, [], written), tag)
  {
    var enriched := prior;
    var consecutive := 0;
    var calls := 0;
    var saved: seq<Value> := [];
    var progressWritten := written;
    var j := 0;
    while j < |todo|
      invariant 0 <= j <= |todo|
      invariant RunArticles(records, todo, 0, RunState(prior, 0, 0, [], written), tag)
             == RunArticles(records, todo, j, RunState(enriched, consecutive, calls, saved, progressWritten), tag)
    {
      var a := TagArticle(groups[todo[j]], consecutive, calls, tag);
      consecutive := a.errors;
      calls := a.calls;
      if a.errors >= ErrorLimit || a.failed {
        if a.errors >= ErrorLimit {
          break;
        }
        j := j + 1;
        continue;
      }
      enriched := enriched + a.tagged;
      saved := saved + [todo[j]];
      progressWritten := true;
      j := j + 1;
    }
    r := RunState(enriched, consecutive, calls, saved, progressWritten);
  }

  /** `main` */
  method CreateTags(records: seq<Record>, summaries: map<string, Value>, progress: ProgressFile,
                    finalExists: bool, o: Oracle)
    returns (out: Outcome)
    ensures out == TagRun(records, summaries, progress, finalExists, o)
  {
    var ids, groups := GroupByArticle(records);
    var prior := if progress.Saved? then progress.records else [];
    var processed := set r | r in prior :: ArticleOf(r);
    var todo := ToProcess(ids, processed);
    var progressExists := !progress.Missing?;
    if todo == [] {
      out := Outcome(prior, [], 0, !finalExists && progressExists);
      return;
    }
    var st := ProcessArticles(records, todo, groups, prior, progressExists, Tagger(summaries, o));
    out := Outcome(st.enriched, st.saved, st.errors, st.errors < ErrorLimit && st.written);
  }
}
