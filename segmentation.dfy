// Article segmentation of a document converted to plain text. The regular
// expression that finds the article headings is not re-implemented: its
// matches (`re.finditer`, or the delimiters kept by `re.split`) are an
// input, each with its start, its end and the article id it captures.
//   - c_processors/a_cost: a heading is "Art. N" at a line start or a line
//     made of roman-numeral letters; the article text follows the heading.
//   - c_processors/b_regcam: a heading is "ART. N[-bis|-ter|...]" at a
//     line start; the article text includes its heading.
//   - the earlier b_regcam script: the heading, a newline, then the text.
module Segmentation {
  import opened Wrappers
  import opened Text
  import opened OrderedMaps

  /** One heading match: where it starts and ends, and the id it captures. */
  datatype Heading = Heading(start: nat, end: nat, id: string)

  /** What the regular-expression engine guarantees of its matches: inside
      the text, in order and not overlapping. */
  predicate Ordered(text: string, hs: seq<Heading>) {
    && (forall i :: 0 <= i < |hs| ==> hs[i].start <= hs[i].end <= |text|)
    && (forall i :: 0 <= i < |hs| - 1 ==> hs[i].end <= hs[i + 1].start)
  }

  /** Python's `s[a:b]` for non-negative bounds: clipped to the text, empty
      when the bounds cross. */
  function Slice(s: string, a: nat, b: nat): (r: string)
    ensures a <= b <= |s| ==> r == s[a..b]
    ensures |r| <= |s|
  {
    var hi := if b <= |s| then b else |s|;
    if a < hi then s[a..hi] else ""
  }

  /** Where article `i` ends: at the start of the next heading, or at the
      end of the text after the last one. */
  function NextStart(text: string, hs: seq<Heading>, i: nat): nat
    requires i < |hs|
  {
    if i + 1 < |hs| then hs[i + 1].start else |text|
  }

  /** Where an article's text begins and how it is shaped. */
  datatype Layout =
    | AfterHeading  // from the end of the heading, stripped
    | FromHeading   // from the start of the heading, stripped
    | HeadingLine   // the heading, a newline, the rest stripped

  function ArticleText(layout: Layout, text: string, hs: seq<Heading>, i: nat): string
    requires i < |hs|
  {
    var next := NextStart(text, hs, i);
    match layout
    case AfterHeading => Strip(Slice(text, hs[i].end, next))
    case FromHeading => Strip(Slice(text, hs[i].start, next))
    case HeadingLine => Slice(text, hs[i].start, hs[i].end) + "\n" + Strip(Slice(text, hs[i].end, next))
  }

  /** The (id, text) assignments made heading by heading. */
  function ArticlePairs(layout: Layout, text: string, hs: seq<Heading>): (ps: seq<(string, string)>)
    ensures |ps| == |hs|
    ensures forall i :: 0 <= i < |hs| ==> ps[i].0 == hs[i].id
  {
    seq(|hs|, i requires 0 <= i < |hs| => (hs[i].id, ArticleText(layout, text, hs, i)))
  }

  function Ids(hs: seq<Heading>): (ids: seq<string>)
    ensures |ids| == |hs| && forall i :: 0 <= i < |hs| ==> ids[i] == hs[i].id
  {
    seq(|hs|, i requires 0 <= i < |hs| => hs[i].id)
  }

  /** The article map: `converted` is the converted text, None when the
      conversion failed. */
  function ArticleMap(layout: Layout, converted: Option<string>, hs: seq<Heading>): Dict<string, string> {
    if converted.None? then EmptyDict() else FromPairs(ArticlePairs(layout, converted.value, hs))
  }

  /** `extract_articles_from_docx`: an article map filled heading by heading;
      a failed conversion gives an empty map. */
  method ExtractArticles(layout: Layout, converted: Option<string>, hs: seq<Heading>) returns (m: Dict<string, string>)
    ensures m == ArticleMap(layout, converted, hs)
    ensures m.Valid()
    ensures converted.None? ==> m.keys == []
  {
    m := EmptyDict();
    if converted.None? {
      return;
    }
    var text := converted.value;
    ghost var ps := ArticlePairs(layout, text, hs);
    var i := 0;
    while i < |hs|
      invariant 0 <= i <= |hs|
      invariant m == PutAll(EmptyDict(), ps[..i])
    {
      var body := ArticleText(layout, text, hs, i);
      assert ps[i] == (hs[i].id, body);
      PutAllStep(EmptyDict(), ps, i);
      m := m.Put(hs[i].id, body);
      i := i + 1;
    }
    assert ps[..|hs|] == ps;
  }

  /** The map lists each id once, in order of first appearance; an id is
      bound to the text of its last heading; and an id is bound exactly
      when some heading captured it. */
  lemma ArticleMapSpec(layout: Layout, text: string, hs: seq<Heading>)
    ensures ArticleMap(layout, Some(text), hs).Valid()
    ensures ArticleMap(layout, Some(text), hs).keys == NewKeys([], Ids(hs))
    ensures forall k :: k in ArticleMap(layout, Some(text), hs).values <==> k in Ids(hs)
    ensures forall i :: 0 <= i < |hs| && (forall j :: i < j < |hs| ==> hs[j].id != hs[i].id) ==>
      ArticleMap(layout, Some(text), hs).values[hs[i].id] == ArticleText(layout, text, hs, i)
  {
    ArticleMapKeys(layout, text, hs);
    forall i | 0 <= i < |hs| && (forall j :: i < j < |hs| ==> hs[j].id != hs[i].id)
      ensures ArticleMap(layout, Some(text), hs).values[hs[i].id] == ArticleText(layout, text, hs, i)
    {
      ArticleMapLast(layout, text, hs, i);
    }
  }

  lemma ArticleMapKeys(layout: Layout, text: string, hs: seq<Heading>)
    ensures ArticleMap(layout, Some(text), hs).Valid()
    ensures ArticleMap(layout, Some(text), hs).keys == NewKeys([], Ids(hs))
    ensures forall k :: k in ArticleMap(layout, Some(text), hs).values <==> k in Ids(hs)
  {
    ArticleKeys(layout, text, hs);
    FromPairsKeys(ArticlePairs(layout, text, hs));
  }

  lemma ArticleMapLast(layout: Layout, text: string, hs: seq<Heading>, i: nat)
    requires i < |hs| && forall j :: i < j < |hs| ==> hs[j].id != hs[i].id
    ensures hs[i].id in ArticleMap(layout, Some(text), hs).values
    ensures ArticleMap(layout, Some(text), hs).values[hs[i].id] == ArticleText(layout, text, hs, i)
  {
    var ps := ArticlePairs(layout, text, hs);
    assert ps[i] == (hs[i].id, ArticleText(layout, text, hs, i));
    FromPairsLast(ps, i);
  }

  lemma ArticleKeys(layout: Layout, text: string, hs: seq<Heading>)
    ensures PairKeys(ArticlePairs(layout, text, hs)) == Ids(hs)
  {
  }

  /** Each article text is taken from between its own heading and the next
      one: the stripped part is a slice of the text that starts no earlier
      than the heading (its end, when the text follows the heading) and
      stops before the next heading. */
  lemma ArticleTextWithin(layout: Layout, text: string, hs: seq<Heading>, i: nat)
    requires Ordered(text, hs) && i < |hs|
    ensures var from := if layout.FromHeading? then hs[i].start else hs[i].end;
      var body := Strip(Slice(text, from, NextStart(text, hs, i)));
      && (exists a, b :: from <= a <= b <= NextStart(text, hs, i) && body == text[a..b])
      && (layout.HeadingLine? ==> ArticleText(layout, text, hs, i) == text[hs[i].start..hs[i].end] + "\n" + body)
      && (!layout.HeadingLine? ==> ArticleText(layout, text, hs, i) == body)
  {
    var from := if layout.FromHeading? then hs[i].start else hs[i].end;
    var next := NextStart(text, hs, i);
    assert from <= next <= |text|;
    StripWithin(text, from, next);
  }

  /** Stripping a slice of the text gives a slice of the text inside it. */
  lemma StripWithin(text: string, from: nat, next: nat)
    requires from <= next <= |text|
    ensures exists a, b :: from <= a <= b <= next && Strip(text[from..next]) == text[a..b]
  {
    var s := text[from..next];
    var a, b := StripSpec(s);
    SliceOfSlice(text, from, next, a, b);
    assert from <= from + a <= from + b <= next && Strip(s) == text[from + a..from + b];
  }

  lemma SliceOfSlice(text: string, from: nat, next: nat, a: nat, b: nat)
    requires from <= next <= |text| && a <= b <= next - from
    ensures text[from..next][a..b] == text[from + a..from + b]
  {
    assert forall k :: 0 <= k < b - a ==> text[from..next][a..b][k] == text[from + a + k];
  }

  /** With the text taken from the heading on, an article's text begins
      with its heading whenever the heading starts and ends with a visible
      character (as "ART. 12-bis" does). */
  lemma ArticleTextStartsWithHeading(text: string, hs: seq<Heading>, i: nat)
    requires Ordered(text, hs) && i < |hs|
    requires hs[i].start < hs[i].end
    requires !IsSpace(text[hs[i].start]) && !IsSpace(text[hs[i].end - 1])
    ensures StartsWith(ArticleText(FromHeading, text, hs, i), text[hs[i].start..hs[i].end])
  {
    var s := text[hs[i].start..NextStart(text, hs, i)];
    var k := hs[i].end - 1 - hs[i].start;
    StripKeepsPrefix(s, k);
    assert s[..k + 1] == text[hs[i].start..hs[i].end] by {
      assert forall m :: 0 <= m <= k ==> s[..k + 1][m] == s[m] == text[hs[i].start + m];
    }
  }
}
