// Embedding generation for the Chamber rulebook's chunks
// (`5_create_embeddings.py`): each chunk gets a text built from its most
// specific section title, its paragraph text and its keywords; chunks that
// already have an embedding in the output file are skipped, the rest are
// sent to the embedder in batches of 100, and three consecutive failed
// batches end the run. The embedder is a parameter: it answers the n-th
// call with one vector per text, or None when the call fails.
module Embeddings {
  import opened Wrappers
  import opened Text
  import opened Json
  import Chunks

  const BatchSize: nat := 100
  const ErrorLimit: nat := 3

  // ---------------------------------------------------------------------
  // The text to embed

  /** `a or b`: the first operand when truthy, otherwise the second. */
  function Or(a: Value, b: Value): (r: Value)
    ensures Truthy(r) <==> Truthy(a) || Truthy(b)
    ensures Truthy(a) ==> r == a
  {
    if Truthy(a) then a else b
  }

  /** The most specific section title: level 3, else level 2, else level 1
      (with "" when level 1 is absent). */
  function ContextTitle(chunk: Record): (r: Value)
    ensures Truthy(r) <==>
      Truthy(GetOr(chunk, "livello_3_title", Null)) || Truthy(GetOr(chunk, "livello_2_title", Null))
      || Truthy(GetOr(chunk, "livello_1_title", Str("")))
    ensures Truthy(GetOr(chunk, "livello_3_title", Null)) ==> r == chunk["livello_3_title"]
    ensures !Truthy(GetOr(chunk, "livello_3_title", Null)) && Truthy(GetOr(chunk, "livello_2_title", Null))
      ==> r == chunk["livello_2_title"]
    ensures !Truthy(GetOr(chunk, "livello_3_title", Null)) && !Truthy(GetOr(chunk, "livello_2_title", Null))
      ==> r == GetOr(chunk, "livello_1_title", Str(""))
  {
    Or(GetOr(chunk, "livello_3_title", Null), Or(GetOr(chunk, "livello_2_title", Null), GetOr(chunk, "livello_1_title", Str(""))))
  }

  /** The items `', '.join` iterates: a list's strings, a string's characters. */
  function Keywords(v: Value): seq<string> {
    if v.Strs? then v.items
    else if v.Str? then seq(|v.s|, i requires 0 <= i < |v.s| => [v.s[i]])
    else []
  }

  const TopicLabel := "Argomento Principale: "
  const TextLabel := "Testo: "
  const KeywordsLabel := "Concetti Chiave: "

  /** The parts of the text, in order. */
  function Parts(chunk: Record): (ps: seq<string>)
    ensures 1 <= |ps| <= 3
  {
    var title := ContextTitle(chunk);
    var keywords := GetOr(chunk, "keywords", Null);
    (if Truthy(title) then [TopicLabel + PyStr(title) + "."] else [])
    + [TextLabel + PyStr(GetOr(chunk, "testo_originale_comma", Str(""))) + "."]
    + (if Truthy(keywords) then [KeywordsLabel + Join(", ", Keywords(keywords)) + "."] else [])
  }

  /** `build_text_to_embed`: the parts joined by single spaces. */
  function TextToEmbed(chunk: Record): string {
    Join(" ", Parts(chunk))
  }

  /** The text always holds the paragraph text part; it opens with the topic
      part iff there is a section title, and ends with the keywords part iff
      there are keywords. */
  lemma TextToEmbedParts(chunk: Record)
    ensures var text := TextToEmbed(chunk);
      var body := TextLabel + PyStr(GetOr(chunk, "testo_originale_comma", Str(""))) + ".";
      var title := ContextTitle(chunk);
      var keywords := GetOr(chunk, "keywords", Null);
      && Contains(text, body)
      && (Truthy(title) ==> StartsWith(text, TopicLabel + PyStr(title) + ". "))
      && (!Truthy(title) ==> StartsWith(text, body))
      && (Truthy(keywords) ==> EndsWith(text, " " + KeywordsLabel + Join(", ", Keywords(keywords)) + "."))
      && (!Truthy(keywords) ==> EndsWith(text, body))
  {
    var title := ContextTitle(chunk);
    var keywords := GetOr(chunk, "keywords", Null);
    var topic := TopicLabel + PyStr(title) + ".";
    var body := TextLabel + PyStr(GetOr(chunk, "testo_originale_comma", Str(""))) + ".";
    var tail := KeywordsLabel + Join(", ", Keywords(keywords)) + ".";
    assert topic + " " == TopicLabel + PyStr(title) + ". ";
    assert TextToEmbed(chunk) == Join(" ", (if Truthy(title) then [topic] else []) + [body] + (if Truthy(keywords) then [tail] else []));
    JoinSpaced(topic, body, tail, Truthy(title), Truthy(keywords));
  }

  /** The space-joined parts: an optional head, a body, an optional tail. */
  lemma JoinSpaced(head: string, body: string, tail: string, hasHead: bool, hasTail: bool)
    ensures var text := Join(" ", (if hasHead then [head] else []) + [body] + (if hasTail then [tail] else []));
      && Contains(text, body)
      && (hasHead ==> StartsWith(text, head + " "))
      && (!hasHead ==> StartsWith(text, body))
      && (hasTail ==> EndsWith(text, " " + tail))
      && (!hasTail ==> EndsWith(text, body))
  {
    var ps := (if hasHead then [head] else []) + [body] + (if hasTail then [tail] else []);
    var text := Join(" ", ps);
    if hasHead && hasTail {
      assert ps == [head, body, tail];
      assert ps[1..] == [body, tail] && ps[1..][1..] == [tail];
      assert Join(" ", [body, tail]) == body + " " + tail;
      assert text == (head + " ") + body + (" " + tail);
      ContainsInConcat(head + " ", body, " " + tail);
    } else if hasHead {
      assert ps == [head, body];
      assert ps[1..] == [body];
      assert text == (head + " ") + body + "";
      ContainsInConcat(head + " ", body, "");
    } else if hasTail {
      assert ps == [body, tail];
      assert ps[1..] == [tail];
      assert Join(" ", [body, tail]) == body + " " + tail;
      assert text == "" + body + (" " + tail);
      ContainsInConcat("", body, " " + tail);
    } else {
      assert ps == [body];
      assert text == "" + body + "";
      ContainsInConcat("", body, "");
    }
  }

  // ---------------------------------------------------------------------
  // Resuming

  type Vector = seq<real>

  /** A chunk as saved in the output file: `chunk['embedding']` is set when
      the embedder returned a vector for it. */
  datatype Embedded = Embedded(chunk: Record, embedding: Option<Vector>)

  /** The output file: absent, undecodable, or the chunks embedded so far. */
  datatype OutputFile = Missing | Corrupt | Saved(items: seq<Embedded>)

  function Prior(out: OutputFile): seq<Embedded> {
    if out.Saved? then out.items else []
  }

  /** `processed_chunk_ids` */
  function ProcessedIds(out: OutputFile): set<string> {
    set e | e in Prior(out) :: Chunks.TagKey(e.chunk)
  }

  /** `items_to_process`: the chunks without an embedding yet, in order. */
  function ToProcess(chunks: seq<Record>, done: set<string>): (r: seq<Record>)
    ensures |r| <= |chunks|
    ensures forall c :: c in r <==> c in chunks && Chunks.TagKey(c) !in done
  {
    if chunks == [] then []
    else
      var rest := ToProcess(chunks[..|chunks| - 1], done);
      var c := chunks[|chunks| - 1];
      assert chunks == chunks[..|chunks| - 1] + [c];
      if Chunks.TagKey(c) in done then rest else rest + [c]
  }

  // ---------------------------------------------------------------------
  // Batches

  function Min(a: nat, b: nat): nat {
    if a <= b then a else b
  }

  /** The batch starting at `i`: up to `BatchSize` consecutive items. */
  function BatchAt(items: seq<Record>, i: nat): (b: seq<Record>)
    requires i < |items|
    ensures 1 <= |b| <= BatchSize
    ensures |b| < BatchSize ==> i + |b| == |items|
  {
    items[i..Min(i + BatchSize, |items|)]
  }

  function Texts(batch: seq<Record>): (ts: seq<string>)
    ensures |ts| == |batch| && forall k :: 0 <= k < |batch| ==> ts[k] == TextToEmbed(batch[k])
  {
    seq(|batch|, k requires 0 <= k < |batch| => TextToEmbed(batch[k]))
  }

  /** `zip(batch_chunks, batch_embeddings)`: the k-th vector goes to the
      k-th chunk; chunks past the last vector keep no embedding. */
  function Attach(batch: seq<Record>, vectors: seq<Vector>): (r: seq<Embedded>)
    ensures |r| == |batch|
  {
    seq(|batch|, k requires 0 <= k < |batch| => Embedded(batch[k], if k < |vectors| then Some(vectors[k]) else None))
  }

  /** The chunks of saved results, without their embeddings. */
  function Detach(es: seq<Embedded>): (r: seq<Record>)
    ensures |r| == |es| && forall k :: 0 <= k < |es| ==> r[k] == es[k].chunk
  {
    seq(|es|, k requires 0 <= k < |es| => es[k].chunk)
  }

  /** Attaching vectors changes no chunk and pairs them up in order. */
  lemma AttachKeepsChunks(batch: seq<Record>, vectors: seq<Vector>)
    ensures Detach(Attach(batch, vectors)) == batch
    ensures forall k :: 0 <= k < |batch| && k < |vectors| ==> Attach(batch, vectors)[k].embedding == Some(vectors[k])
    ensures forall k :: |vectors| <= k < |batch| ==> Attach(batch, vectors)[k].embedding.None?
  {
  }

  lemma DetachAppend(a: seq<Embedded>, b: seq<Embedded>)
    ensures Detach(a + b) == Detach(a) + Detach(b)
  {
  }

  /** The embedder, numbered by call. */
  type Embedder = (nat, seq<string>) -> Option<seq<Vector>>

  /** One call as the batch loop sees it: the batch's texts embedded. */
  type BatchCall = (nat, seq<Record>) -> Option<seq<Vector>>

  function EmbedBatch(embed: Embedder): BatchCall {
    (call: nat, batch: seq<Record>) => embed(call, Texts(batch))
  }

  /** The state of the batch loop: the saved results, the counter, the calls
      made and the starts of the batches saved. */
  datatype BatchState = BatchState(results: seq<Embedded>, errors: nat, calls: nat, saved: seq<nat>)

  /** The batch loop from item `i` on. */
  function RunBatches(items: seq<Record>, i: nat, st: BatchState, call: BatchCall): BatchState
    decreases |items| - i
  {
    if i >= |items| then st
    else
      var batch := BatchAt(items, i);
      var e := call(st.calls, batch);
      if e.Some? then
        RunBatches(items, i + BatchSize, BatchState(st.results + Attach(batch, e.value), 0, st.calls + 1, st.saved + [i]), call)
      else if st.errors + 1 >= ErrorLimit then
        BatchState(st.results, st.errors + 1, st.calls + 1, st.saved)
      else
        RunBatches(items, i + BatchSize, BatchState(st.results, st.errors + 1, st.calls + 1, st.saved), call)
  }

  /** The items of the batches starting at `starts`, batch after batch. */
  function BatchItems(items: seq<Record>, starts: seq<nat>): seq<Record> {
    if starts == [] then []
    else
      var s := starts[|starts| - 1];
      BatchItems(items, starts[..|starts| - 1]) + (if s < |items| then BatchAt(items, s) else [])
  }

  lemma {:induction false} BatchItemsAppend(items: seq<Record>, a: seq<nat>, b: seq<nat>)
    ensures BatchItems(items, a + b) == BatchItems(items, a) + BatchItems(items, b)
  {
    if b == [] {
      assert a + b == a;
    } else {
      var init := b[..|b| - 1];
      var s := b[|b| - 1];
      var x := if s < |items| then BatchAt(items, s) else [];
      assert (a + b)[..|a + b| - 1] == a + init;
      assert (a + b)[|a + b| - 1] == s;
      BatchItemsAppend(items, a, init);
      calc {
        BatchItems(items, a + b);
        BatchItems(items, a + init) + x;
        (BatchItems(items, a) + BatchItems(items, init)) + x;
        BatchItems(items, a) + (BatchItems(items, init) + x);
        BatchItems(items, a) + BatchItems(items, b);
      }
    }
  }

  /** The number of batches the items from `i` on make. */
  function BatchCount(n: nat, i: nat): nat
    decreases n - i
  {
    if i >= n then 0 else 1 + BatchCount(n, i + BatchSize)
  }

  /** The loop keeps the batches saved before and saves only batches
      starting at a multiple of the batch size past `i`. */
  lemma {:induction false} RunBatchesSaved(items: seq<Record>, i: nat, st: BatchState, call: BatchCall)
    ensures var r := RunBatches(items, i, st, call);
      && |r.saved| >= |st.saved| && r.saved[..|st.saved|] == st.saved
      && (forall s :: s in r.saved[|st.saved|..] ==> i <= s < |items| && (s - i) % BatchSize == 0)
    decreases |items| - i
  {
    var r := RunBatches(items, i, st, call);
    if i < |items| {
      var batch := BatchAt(items, i);
      var e := call(st.calls, batch);
      if e.Some? || st.errors + 1 < ErrorLimit {
        var next := if e.Some? then BatchState(st.results + Attach(batch, e.value), 0, st.calls + 1, st.saved + [i])
                    else BatchState(st.results, st.errors + 1, st.calls + 1, st.saved);
        RunBatchesSaved(items, i + BatchSize, next, call);
        assert r == RunBatches(items, i + BatchSize, next, call);
        assert next.saved[..|st.saved|] == st.saved;
        assert r.saved[..|st.saved|] == r.saved[..|next.saved|][..|st.saved|];
        forall s | s in r.saved[|st.saved|..] ensures i <= s < |items| && (s - i) % BatchSize == 0 {
          var k :| |st.saved| <= k < |r.saved| && r.saved[k] == s;
          if k < |next.saved| {
            assert s == r.saved[..|next.saved|][k] == next.saved[k] == i;
          } else {
            assert s in r.saved[|next.saved|..];
            assert (s - i) == (s - (i + BatchSize)) + BatchSize;
          }
        }
      } else {
        assert r.saved[|st.saved|..] == [];
      }
    } else {
      assert r.saved[|st.saved|..] == [];
    }
  }

  /** The loop keeps the results saved before, and the chunks it appends are
      exactly the items of the batches it saved, batch after batch. */
  lemma {:induction false} RunBatchesAppends(items: seq<Record>, i: nat, st: BatchState, call: BatchCall)
    ensures var r := RunBatches(items, i, st, call);
      && |r.saved| >= |st.saved|
      && |r.results| >= |st.results| && r.results[..|st.results|] == st.results
      && Detach(r.results) == Detach(st.results) + BatchItems(items, r.saved[|st.saved|..])
    decreases |items| - i
  {
    var r := RunBatches(items, i, st, call);
    if i >= |items| {
      assert r.saved[|st.saved|..] == [];
    } else {
      var batch := BatchAt(items, i);
      var e := call(st.calls, batch);
      if e.Some? {
        var next := BatchState(st.results + Attach(batch, e.value), 0, st.calls + 1, st.saved + [i]);
        assert r == RunBatches(items, i + BatchSize, next, call);
        assert |r.saved| >= |next.saved| && r.saved[..|next.saved|] == next.saved by {
          RunBatchesSaved(items, i + BatchSize, next, call);
        }
        assert |r.results| >= |next.results| && r.results[..|next.results|] == next.results
          && Detach(r.results) == Detach(next.results) + BatchItems(items, r.saved[|next.saved|..]) by {
          RunBatchesAppends(items, i + BatchSize, next, call);
        }
        assert Detach(Attach(batch, e.value)) == batch by {
          AttachKeepsChunks(batch, e.value);
        }
        CombineBatch(items, i, st.results, st.saved, Attach(batch, e.value), r.results, r.saved);
      } else if st.errors + 1 < ErrorLimit {
        var next := BatchState(st.results, st.errors + 1, st.calls + 1, st.saved);
        RunBatchesAppends(items, i + BatchSize, next, call);
      } else {
        assert r.saved[|st.saved|..] == [];
      }
    }
  }

  /** Saving one batch and then the batches after it appends the batch's
      items and then theirs. */
  /** The saved starts of a run that kept batch `i` begin with `i`. */
  lemma SavedTail(saved: seq<nat>, rSaved: seq<nat>, i: nat)
    requires |rSaved| >= |saved| + 1 && rSaved[..|saved| + 1] == saved + [i]
    ensures rSaved[|saved|..] == [i] + rSaved[|saved| + 1..]
  {
    assert rSaved[|saved|] == rSaved[..|saved| + 1][|saved|];
  }

  lemma BatchItemsCons(items: seq<Record>, i: nat, rest: seq<nat>)
    requires i < |items|
    ensures BatchItems(items, [i] + rest) == BatchAt(items, i) + BatchItems(items, rest)
  {
    assert BatchItems(items, [i]) == BatchAt(items, i) by {
      assert [i][..0] == [];
      assert BatchItems(items, [i]) == BatchItems(items, []) + BatchAt(items, i);
    }
    BatchItemsAppend(items, [i], rest);
  }

  lemma CombineBatch(items: seq<Record>, i: nat, results: seq<Embedded>, saved: seq<nat>,
                     attached: seq<Embedded>, rResults: seq<Embedded>, rSaved: seq<nat>)
    requires i < |items| && Detach(attached) == BatchAt(items, i)
    requires |rSaved| >= |saved| + 1 && rSaved[..|saved| + 1] == saved + [i]
    requires |rResults| >= |results + attached| && rResults[..|results + attached|] == results + attached
    requires Detach(rResults) == Detach(results + attached) + BatchItems(items, rSaved[|saved| + 1..])
    ensures rResults[..|results|] == results
    ensures Detach(rResults) == Detach(results) + BatchItems(items, rSaved[|saved|..])
  {
    assert rResults[..|results|] == results by {
      assert rResults[..|results|] == rResults[..|results + attached|][..|results|];
    }
    var rest := rSaved[|saved| + 1..];
    var head, batch, tail := Detach(results), BatchAt(items, i), BatchItems(items, rest);
    assert BatchItems(items, rSaved[|saved|..]) == batch + tail by {
      SavedTail(saved, rSaved, i);
      BatchItemsCons(items, i, rest);
    }
    assert Detach(results + attached) == head + batch by {
      DetachAppend(results, attached);
    }
    Reassociate(Detach(rResults), Detach(results + attached), head, batch, tail, BatchItems(items, rSaved[|saved|..]));
  }

  /** When every call fails, nothing is saved and the loop stops after as
      many calls as the counter still allows, or after the last batch. */
  lemma {:induction false} AllFailing(items: seq<Record>, i: nat, st: BatchState, call: BatchCall)
    requires st.errors < ErrorLimit
    requires forall c, b :: call(c, b).None?
    ensures var r := RunBatches(items, i, st, call);
      && r.results == st.results
      && r.calls == st.calls + Min(ErrorLimit - st.errors, BatchCount(|items|, i))
    decreases |items| - i
  {
    if i < |items| && st.errors + 1 < ErrorLimit {
      AllFailing(items, i + BatchSize, BatchState(st.results, st.errors + 1, st.calls + 1, st.saved), call);
    }
  }

  /** When every call succeeds, every item is saved, in order, and the
      counter is back at 0. */
  lemma {:induction false} AllSucceeding(items: seq<Record>, i: nat, st: BatchState, call: BatchCall)
    requires forall c, b :: call(c, b).Some?
    ensures var r := RunBatches(items, i, st, call);
      && Detach(r.results) == Detach(st.results) + (if i < |items| then items[i..] else [])
      && (i < |items| ==> r.errors == 0)
      && r.calls == st.calls + BatchCount(|items|, i)
    decreases |items| - i
  {
    if i < |items| {
      var batch := BatchAt(items, i);
      var e := call(st.calls, batch);
      var next := BatchState(st.results + Attach(batch, e.value), 0, st.calls + 1, st.saved + [i]);
      AllSucceeding(items, i + BatchSize, next, call);
      AttachKeepsChunks(batch, e.value);
      DetachAppend(st.results, Attach(batch, e.value));
      var rest := if i + BatchSize < |items| then items[i + BatchSize..] else [];
      assert items[i..] == batch + rest;
      var head := Detach(st.results);
      assert (head + batch) + rest == head + (batch + rest);
    }
  }

  // ---------------------------------------------------------------------
  // The run

  /** `main`, given the chunks, the output file and the embedder: the
      results in the output file and the final counter. */
  function EmbedRun(chunks: seq<Record>, out: OutputFile, embed: Embedder): BatchState {
    var todo := ToProcess(chunks, ProcessedIds(out));
    if todo == [] then BatchState(Prior(out), 0, 0, [])
    else RunBatches(todo, 0, BatchState(Prior(out), 0, 0, []), EmbedBatch(embed))
  }

  /** A run keeps the earlier results, and what it adds are chunks without
      an embedding yet, whole batches at a time. */
  lemma EmbedRunSpec(chunks: seq<Record>, out: OutputFile, embed: Embedder)
    ensures var r := EmbedRun(chunks, out, embed);
      var todo := ToProcess(chunks, ProcessedIds(out));
      && |r.results| >= |Prior(out)| && r.results[..|Prior(out)|] == Prior(out)
      && Detach(r.results) == Detach(Prior(out)) + BatchItems(todo, r.saved)
      && (forall s :: s in r.saved ==> s < |todo| && s % BatchSize == 0)
  {
    var todo := ToProcess(chunks, ProcessedIds(out));
    if todo != [] {
      RunFromStart(todo, Prior(out), EmbedBatch(embed));
    }
  }

  /** The batch loop from the first item keeps the earlier results and
      appends the items of the batches it saved. */
  lemma RunFromStart(items: seq<Record>, prior: seq<Embedded>, call: BatchCall)
    ensures var r := RunBatches(items, 0, BatchState(prior, 0, 0, []), call);
      && |r.results| >= |prior| && r.results[..|prior|] == prior
      && Detach(r.results) == Detach(prior) + BatchItems(items, r.saved)
      && (forall s :: s in r.saved ==> s < |items| && s % BatchSize == 0)
  {
    var st := BatchState(prior, 0, 0, []);
    RunBatchesAppends(items, 0, st, call);
    RunBatchesSaved(items, 0, st, call);
    var r := RunBatches(items, 0, st, call);
    assert r.saved[|st.saved|..] == r.saved;
  }

  /** The batch loop of `main`. */
  method EmbedBatches(items: seq<Record>, prior: seq<Embedded>, embed: Embedder) returns (r: BatchState)
    ensures r == RunBatches(items, 0, BatchState(prior, 0, 0, []), EmbedBatch(embed))
  {
    var results := prior;
    var consecutive: nat := 0;
    var calls: nat := 0;
    var saved: seq<nat> := [];
    var i: nat := 0;
    while i < |items|
      invariant RunBatches(items, 0, BatchState(prior, 0, 0, []), EmbedBatch(embed))
             == RunBatches(items, i, BatchState(results, consecutive, calls, saved), EmbedBatch(embed))
      decreases |items| - i
    {
      var batch := items[i..Min(i + BatchSize, |items|)];
      var texts := seq(|batch|, k requires 0 <= k < |batch| => TextToEmbed(batch[k]));
      var e := embed(calls, texts);
      assert texts == Texts(batch);
      assert e == EmbedBatch(embed)(calls, batch);
      calls := calls + 1;
      if e.Some? {
        var vectors := e.value;
        var attached := seq(|batch|, k requires 0 <= k < |batch| =>
          Embedded(batch[k], if k < |vectors| then Some(vectors[k]) else None));
        results := results + attached;
        saved := saved + [i];
        consecutive := 0;
      } else {
        consecutive := consecutive + 1;
        if consecutive >= ErrorLimit {
          break;
        }
      }
      i := i + BatchSize;
    }
    r := BatchState(results, consecutive, calls, saved);
  }

  /** `main` */
  method CreateEmbeddings(chunks: seq<Record>, out: OutputFile, embed: Embedder) returns (r: BatchState)
    ensures r == EmbedRun(chunks, out, embed)
  {
    var prior := if out.Saved? then out.items else [];
    var done := set e | e in prior :: Chunks.TagKey(e.chunk);
    var todo := ToProcess(chunks, done);
    if todo == [] {
      return BatchState(prior, 0, 0, []);
    }
    r := EmbedBatches(todo, prior, embed);
  }
}
