// The page structurer of the OCR pipeline
// (`b_ocr/scripts/c_gianniti_lupo/04_create_structured_text.py`): the
// entities Document AI found on a page are filtered, ordered by where
// their text starts in the raw OCR text, and reduced to a type and a
// stripped text.
module OcrBlocks {
  import opened Wrappers
  import opened Text
  import opened StableSort

  /** The text anchor of an entity: absent (`[{}]` by default, so the
      start index defaults to -1), or its text segments, each with its
      start index when it has one. */
  datatype Anchor = NoAnchor | Segments(starts: seq<Option<int>>)

  /** An entity of the page: its `type`, its `mentionText` and its anchor
      (None where the key is absent). */
  datatype Entity = Entity(kind: Option<string>, mention: Option<string>, anchor: Anchor)

  /** A logical block: the entity's type, its stripped text and its start. */
  datatype Block = Block(kind: string, text: string, start: int)

  /** A block of the output file, without its start index. */
  datatype Output = Output(kind: string, text: string)

  /** `int(text_segments[0].get('startIndex', -1))`; None where the
      segment list is empty, so that indexing it fails. */
  function StartOf(e: Entity): Option<int> {
    match e.anchor
    case NoAnchor => Some(-1)
    case Segments(starts) => if starts == [] then None else Some(starts[0].GetOr(-1))
  }

  /** The entity is kept: a non-empty type, a mention text, and a start
      index other than -1. */
  predicate Kept(e: Entity) {
    e.kind.Some? && e.kind.value != "" && e.mention.Some? && StartOf(e).Some? && StartOf(e).value != -1
  }

  /** The logical blocks of the first entities; None once an entity's
      anchor has an empty segment list (the page is then not written). */
  function Blocks(entities: seq<Entity>): Option<seq<Block>> {
    if entities == [] then Some([])
    else
      var e := entities[|entities| - 1];
      var prior := Blocks(entities[..|entities| - 1]);
      if prior.None? || StartOf(e).None? then None
      else if Kept(e) then Some(prior.value + [Block(e.kind.value, Strip(e.mention.value), StartOf(e).value)])
      else prior
  }

  /** The kept entities, in order. */
  function KeptEntities(entities: seq<Entity>): (r: seq<Entity>)
    ensures |r| <= |entities|
    ensures forall k :: 0 <= k < |r| ==> Kept(r[k])
  {
    if entities == [] then []
    else
      var e := entities[|entities| - 1];
      KeptEntities(entities[..|entities| - 1]) + (if Kept(e) then [e] else [])
  }

  /** The block made of a kept entity. */
  function BlockOf(e: Entity): Block
    requires Kept(e)
  {
    Block(e.kind.value, Strip(e.mention.value), StartOf(e).value)
  }

  predicate NoEmptyList(entities: seq<Entity>) {
    forall k :: 0 <= k < |entities| ==> StartOf(entities[k]).Some?
  }

  /** The blocks are made exactly when no entity has an empty segment
      list, and then they are the kept entities' blocks, one each, in page
      order: a block has a non-empty type, a stripped text and a start
      index other than -1. */
  lemma {:induction false} BlocksSpec(entities: seq<Entity>)
    ensures Blocks(entities).Some? <==> NoEmptyList(entities)
    ensures Blocks(entities).Some? ==>
      var bs := Blocks(entities).value;
      var ks := KeptEntities(entities);
      && |bs| == |ks|
      && forall k :: 0 <= k < |bs| ==> bs[k] == BlockOf(ks[k])
  {
    if entities != [] {
      var init := entities[..|entities| - 1];
      var e := entities[|entities| - 1];
      BlocksSpec(init);
      assert forall k :: 0 <= k < |init| ==> init[k] == entities[k];
      if NoEmptyList(init) && StartOf(e).Some? {
        assert NoEmptyList(entities);
      }
    }
  }

  /** The key that puts the smallest start first. */
  function Earliest(b: Block): real {
    -(b.start as real)
  }

  /** `sorted(logical_blocks, key=lambda b: b['startIndex'])` */
  function ByStart(blocks: seq<Block>): seq<Block> {
    SortDesc(blocks, Earliest)
  }

  /** The sort is a permutation in non-decreasing start order that keeps
      the page order of blocks starting at the same index. */
  lemma ByStartSpec(blocks: seq<Block>)
    ensures multiset(ByStart(blocks)) == multiset(blocks)
    ensures forall i, j :: 0 <= i < j < |ByStart(blocks)| ==> ByStart(blocks)[i].start <= ByStart(blocks)[j].start
    ensures forall v :: WithKey(ByStart(blocks), v, Earliest) == WithKey(blocks, v, Earliest)
  {
    SortDescFacts(blocks, Earliest);
    var s := ByStart(blocks);
    forall i, j | 0 <= i < j < |s| ensures s[i].start <= s[j].start {
      assert Earliest(s[i]) >= Earliest(s[j]);
    }
  }

  /** The final structure: each block without its start index. */
  function Project(blocks: seq<Block>): (r: seq<Output>)
    ensures |r| == |blocks|
    ensures forall k :: 0 <= k < |r| ==> r[k] == Output(blocks[k].kind, blocks[k].text)
  {
    if blocks == [] then [] else [Output(blocks[0].kind, blocks[0].text)] + Project(blocks[1..])
  }

  /** `process_single_json_file`: the list written for a page, or None when
      the page fails and nothing is written. */
  function StructuredPage(entities: seq<Entity>): Option<seq<Output>> {
    if entities == [] then Some([])
    else
      var blocks := Blocks(entities);
      if blocks.None? then None else Some(Project(ByStart(blocks.value)))
  }

  /** A page without entities gives an empty list; otherwise the page is
      written exactly when no entity has an empty segment list, with one
      output block per kept entity, in non-decreasing start order. */
  lemma StructuredPageSpec(entities: seq<Entity>)
    ensures entities == [] ==> StructuredPage(entities) == Some([])
    ensures StructuredPage(entities).Some? <==> NoEmptyList(entities)
    ensures StructuredPage(entities).Some? ==>
      var out := StructuredPage(entities).value;
      var sorted := ByStart(Blocks(entities).value);
      && |out| == |KeptEntities(entities)|
      && multiset(sorted) == multiset(Blocks(entities).value)
      && (forall i, j :: 0 <= i < j < |sorted| ==> sorted[i].start <= sorted[j].start)
      && (forall k :: 0 <= k < |out| ==> out[k] == Output(sorted[k].kind, sorted[k].text))
  {
    BlocksSpec(entities);
    if StructuredPage(entities).Some? && entities != [] {
      var bs := Blocks(entities).value;
      assert multiset(ByStart(bs)) == multiset(bs)
        && forall i, j :: 0 <= i < j < |ByStart(bs)| ==> ByStart(bs)[i].start <= ByStart(bs)[j].start
      by { ByStartSpec(bs); }
      assert StructuredPage(entities) == Some(Project(ByStart(bs)));
    }
  }

  /** Every block written has a non-empty type and a stripped text. */
  lemma StructuredPageClean(entities: seq<Entity>)
    requires StructuredPage(entities).Some?
    ensures forall k :: 0 <= k < |StructuredPage(entities).value| ==>
      StructuredPage(entities).value[k].kind != ""
      && StructuredPage(entities).value[k].text == Strip(StructuredPage(entities).value[k].text)
  {
    if entities != [] {
      var bs := Blocks(entities).value;
      BlocksClean(entities);
      ByStartKeepsClean(bs);
      ProjectClean(ByStart(bs));
    }
  }

  /** A block with a non-empty type and a stripped text. */
  predicate CleanBlock(b: Block) {
    b.kind != "" && b.text == Strip(b.text)
  }

  lemma BlocksClean(entities: seq<Entity>)
    requires Blocks(entities).Some?
    ensures forall k :: 0 <= k < |Blocks(entities).value| ==> CleanBlock(Blocks(entities).value[k])
  {
    BlocksSpec(entities);
    var bs := Blocks(entities).value;
    forall k | 0 <= k < |bs| ensures CleanBlock(bs[k]) {
      StripIdempotent(KeptEntities(entities)[k].mention.value);
    }
  }

  lemma ByStartKeepsClean(bs: seq<Block>)
    requires forall k :: 0 <= k < |bs| ==> CleanBlock(bs[k])
    ensures forall k :: 0 <= k < |ByStart(bs)| ==> CleanBlock(ByStart(bs)[k])
  {
    var sorted := ByStart(bs);
    assert multiset(sorted) == multiset(bs) by { ByStartSpec(bs); }
    forall k | 0 <= k < |sorted| ensures CleanBlock(sorted[k]) {
      assert sorted[k] in multiset(bs);
    }
  }

  lemma ProjectClean(blocks: seq<Block>)
    requires forall k :: 0 <= k < |blocks| ==> CleanBlock(blocks[k])
    ensures forall k :: 0 <= k < |Project(blocks)| ==>
      Project(blocks)[k].kind != "" && Project(blocks)[k].text == Strip(Project(blocks)[k].text)
  {
    var out := Project(blocks);
    forall k | 0 <= k < |out| ensures out[k].kind != "" && out[k].text == Strip(out[k].text) {
      assert CleanBlock(blocks[k]);
    }
  }

  /** Stripping a stripped text changes nothing. */
  lemma StripIdempotent(s: string)
    ensures Strip(Strip(s)) == Strip(s)
  {
    StripOfStripped(Strip(s));
  }

  lemma StripOfStripped(s: string)
    requires s == [] || (!IsSpace(s[0]) && !IsSpace(s[|s| - 1]))
    ensures Strip(s) == s
  {
  }

  /** The loop of `process_single_json_file` that collects the blocks. */
  method CollectBlocks(entities: seq<Entity>) returns (r: Option<seq<Block>>)
    ensures r == Blocks(entities)
  {
    var blocks: seq<Block> := [];
    var i := 0;
    while i < |entities|
      invariant 0 <= i <= |entities|
      invariant Blocks(entities[..i]) == Some(blocks)
    {
      var e := entities[i];
      assert entities[..i + 1][..i] == entities[..i];
      var start: int;
      match e.anchor {
        case NoAnchor => start := -1;
        case Segments(starts) =>
          if starts == [] {
            assert StartOf(entities[i]).None?;
            BlocksSpec(entities);
            return None;
          }
          start := starts[0].GetOr(-1);
      }
      if e.kind.Some? && e.kind.value != "" && e.mention.Some? && start != -1 {
        blocks := blocks + [Block(e.kind.value, Strip(e.mention.value), start)];
      }
      i := i + 1;
    }
    assert entities[..i] == entities;
    r := Some(blocks);
  }

  /** `process_single_json_file` on the entities of one page. */
  method ProcessPage(entities: seq<Entity>) returns (r: Option<seq<Output>>)
    ensures r == StructuredPage(entities)
  {
    if entities == [] {
      return Some([]);
    }
    var blocks := CollectBlocks(entities);
    if blocks.None? {
      return None;
    }
    r := Some(Project(ByStart(blocks.value)));
  }
}
