// Tolerant extraction of a JSON document from a language-model reply
// (`clean_json_from_text`, in its object form, its list form and the
// two-form variant taking the expected type):
//   1. the bracketed body of the first ```json fence, if there is one;
//   2. otherwise the slice from the first opening bracket to the last
//      closing one;
//   3. otherwise an empty document.
// The fence pattern is `'```json\s*(\{[\s\S]*?\})\s*```'` (with `[`/`]` in
// the list form); it is stated here exactly: leftmost fence, greedy
// whitespace, shortest body.
module JsonExtract {
  import opened Wrappers
  import opened Text

  /** Which bracket pair is looked for. */
  datatype Shape = ObjectShape | ListShape {
    function Open(): char {
      if ObjectShape? then '{' else '['
    }
    function Close(): char {
      if ObjectShape? then '}' else ']'
    }
    /** What is returned when nothing bracketed is found. */
    function Empty(): string {
      [Open(), Close()]
    }
  }

  const FenceTag := "```json"
  const FenceEnd := "```"

  /** The number of leading whitespace characters (a greedy `\s*`). */
  function WsLen(s: string): (n: nat)
    ensures n <= |s|
  {
    if s != [] && IsSpace(s[0]) then 1 + WsLen(s[1..]) else 0
  }

  /** `\s*` is greedy: it takes the leading spaces and stops at the first non-space. */
  lemma {:induction false} WsLenSpec(s: string)
    ensures forall i :: 0 <= i < WsLen(s) ==> IsSpace(s[i])
    ensures WsLen(s) < |s| ==> !IsSpace(s[WsLen(s)])
  {
    if s != [] && IsSpace(s[0]) {
      WsLenSpec(s[1..]);
      forall i | 1 <= i < WsLen(s) ensures IsSpace(s[i]) {
        assert s[i] == s[1..][i - 1];
      }
    }
  }

  /** A closing bracket at `e` followed by optional whitespace and the closing fence. */
  predicate ClosesAt(text: string, e: int, close: char) {
    0 <= e < |text| && text[e] == close && StartsWith(text[e + 1 + WsLen(text[e + 1..])..], FenceEnd)
  }

  /** The first `e >= i` at which the fence can close (the lazy `[\s\S]*?`). */
  function FirstClose(text: string, i: nat, close: char): (r: Option<nat>)
    ensures r.Some? ==> i <= r.value < |text|
    decreases |text| - i
  {
    if i >= |text| then None
    else if ClosesAt(text, i, close) then Some(i)
    else FirstClose(text, i + 1, close)
  }

  /** The position found closes the fence and no earlier one from `i` does;
      None means that no position from `i` does. */
  lemma {:induction false} FirstCloseSpec(text: string, i: nat, close: char)
    ensures var r := FirstClose(text, i, close);
      && (r.Some? ==> i <= r.value && ClosesAt(text, r.value, close))
      && (r.Some? ==> forall e :: i <= e < r.value ==> !ClosesAt(text, e, close))
      && (r.None? ==> forall e :: i <= e ==> !ClosesAt(text, e, close))
    decreases |text| - i
  {
    if i < |text| && !ClosesAt(text, i, close) {
      FirstCloseSpec(text, i + 1, close);
    }
  }

  /** The captured group of a fence match starting at `p`, if one starts there. */
  function FenceAt(text: string, p: int, sh: Shape): Option<string> {
    if !OccursAt(FenceTag, text, p) then None
    else
      var q := p + |FenceTag| + WsLen(text[p + |FenceTag|..]);
      if q < |text| && text[q] == sh.Open() then
        match FirstClose(text, q + 1, sh.Close())
        case Some(e) => Some(text[q..e + 1])
        case None => None
      else None
  }

  /** The leftmost position at or after `p` where a fence match starts (`re.search`). */
  function FirstFence(text: string, p: nat, sh: Shape): Option<nat>
    decreases |text| - p
  {
    if p > |text| then None
    else if FenceAt(text, p, sh).Some? then Some(p)
    else FirstFence(text, p + 1, sh)
  }

  /** A match starts at the position found and at no earlier one from `p`;
      None means that none starts at or after `p`. */
  lemma {:induction false} FirstFenceSpec(text: string, p: nat, sh: Shape)
    ensures var r := FirstFence(text, p, sh);
      && (r.Some? ==> p <= r.value && FenceAt(text, r.value, sh).Some?)
      && (r.Some? ==> forall k :: p <= k < r.value ==> FenceAt(text, k, sh).None?)
      && (r.None? ==> forall k :: p <= k ==> FenceAt(text, k, sh).None?)
    decreases |text| - p
  {
    if p <= |text| && FenceAt(text, p, sh).None? {
      FirstFenceSpec(text, p + 1, sh);
      var r := FirstFence(text, p + 1, sh);
      assert FirstFence(text, p, sh) == r;
      forall k | p <= k && (r.Some? ==> k < r.value) ensures FenceAt(text, k, sh).None? {
        if k > p {
          assert p + 1 <= k;
        }
      }
    }
  }

  /** A captured group is a bracketed slice of the text. */
  lemma FenceGroup(text: string, p: int, sh: Shape)
    requires FenceAt(text, p, sh).Some?
    ensures var g := FenceAt(text, p, sh).value;
      |g| >= 2 && g[0] == sh.Open() && g[|g| - 1] == sh.Close() && Contains(text, g)
  {
    var q := p + |FenceTag| + WsLen(text[p + |FenceTag|..]);
    FirstCloseSpec(text, q + 1, sh.Close());
    var e := FirstClose(text, q + 1, sh.Close()).value;
    var g := text[q..e + 1];
    assert FenceAt(text, p, sh) == Some(g);
    assert g[0] == text[q] == sh.Open();
    assert g[|g| - 1] == text[e] == sh.Close();
    assert OccursAt(g, text, q);
    ContainsAt(text, g, q);
  }

  /** `match.group(1)` of `re.search` with the fence pattern: the captured
      body of the leftmost fence, None when the text has none. */
  function FencedGroup(text: string, sh: Shape): (r: Option<string>)
    ensures r.None? <==> FirstFence(text, 0, sh).None?
    ensures r.Some? ==>
      |r.value| >= 2 && r.value[0] == sh.Open() && r.value[|r.value| - 1] == sh.Close() && Contains(text, r.value)
  {
    match FirstFence(text, 0, sh)
    case Some(p) =>
      FirstFenceSpec(text, 0, sh);
      FenceGroup(text, p, sh);
      FenceAt(text, p, sh)
    case None => None
  }

  /** `clean_json_from_text(text)` for the given bracket shape. */
  function CleanJson(text: string, sh: Shape): (r: string)
    ensures r == sh.Empty() || r == "" || (|r| >= 2 && r[0] == sh.Open() && r[|r| - 1] == sh.Close() && Contains(text, r))
    ensures FirstFence(text, 0, sh).None? && (sh.Open() !in text || sh.Close() !in text) ==> r == sh.Empty()
    ensures FencedGroup(text, sh).Some? ==> r == FencedGroup(text, sh).value
  {
    match FencedGroup(text, sh)
    case Some(g) => g
    case None =>
      match (Find(text, sh.Open()), RFind(text, sh.Close()))
      case (Some(a), Some(b)) =>
        if a <= b then
          assert OccursAt(text[a..b + 1], text, a);
          ContainsAt(text, text[a..b + 1], a);
          text[a..b + 1]
        else ""
      case _ => sh.Empty()
  }

  /** Without a fence, with an opening bracket before the last closing one, the
      result runs from the first opening bracket to the last closing one. */
  lemma CleanJsonFallback(text: string, sh: Shape, a: nat, b: nat)
    requires FirstFence(text, 0, sh).None?
    requires a <= b < |text| && text[a] == sh.Open() && text[b] == sh.Close()
    requires sh.Open() !in text[..a] && sh.Close() !in text[b + 1..]
    ensures CleanJson(text, sh) == text[a..b + 1]
  {
    FindIs(text, sh.Open(), a);
    RFindIs(text, sh.Close(), b);
  }

  /** The first position at or after `i` that closes the fence is found. */
  lemma {:induction false} FirstCloseIs(text: string, i: nat, e: nat, close: char)
    requires i <= e && ClosesAt(text, e, close)
    requires forall k :: i <= k < e ==> !ClosesAt(text, k, close)
    ensures FirstClose(text, i, close) == Some(e)
    decreases e - i
  {
    if i < e {
      FirstCloseIs(text, i + 1, e, close);
    }
  }

  /** Wrapping a bracketed document (with no closing bracket inside) in a
      ```json fence and extracting it gives the document back. */
  lemma CleanJsonFenceRoundTrip(inner: string, sh: Shape)
    requires sh.Close() !in inner
    ensures CleanJson(FenceTag + "\n" + ([sh.Open()] + inner + [sh.Close()]) + "\n" + FenceEnd, sh)
         == [sh.Open()] + inner + [sh.Close()]
  {
    var body := [sh.Open()] + inner + [sh.Close()];
    var text := FenceTag + "\n" + body + "\n" + FenceEnd;
    FencedBody(inner, sh);
    CleanJsonFenceAtStart(text, sh);
  }

  lemma CleanJsonFenceAtStart(text: string, sh: Shape)
    requires FenceAt(text, 0, sh).Some?
    ensures CleanJson(text, sh) == FenceAt(text, 0, sh).value
  {
    assert FirstFence(text, 0, sh) == Some(0);
  }

  lemma FencedBody(inner: string, sh: Shape)
    requires sh.Close() !in inner
    ensures var body := [sh.Open()] + inner + [sh.Close()];
      FenceAt(FenceTag + "\n" + body + "\n" + FenceEnd, 0, sh) == Some(body)
  {
    var body := [sh.Open()] + inner + [sh.Close()];
    var text := FenceTag + "\n" + body + "\n" + FenceEnd;
    var e := 8 + |body| - 1;
    FenceOpens(text, body, sh);
    assert text[8..e + 1] == body;
    assert text[e] == sh.Close() && text[e + 1..] == "\n" + FenceEnd;
    FenceCloses(text, e, sh.Close());
    InnerDoesNotClose(text, inner, sh);
    FirstCloseIs(text, 9, e, sh.Close());
  }

  lemma FenceOpens(text: string, body: string, sh: Shape)
    requires text == FenceTag + "\n" + body + "\n" + FenceEnd && body != [] && body[0] == sh.Open()
    ensures OccursAt(FenceTag, text, 0) && WsLen(text[|FenceTag|..]) == 1 && text[8] == sh.Open()
  {
    assert text[..7] == FenceTag;
    assert text[7..][0] == '\n' && text[7..][1] == sh.Open();
    assert WsLen(text[7..][1..]) == 0;
  }

  lemma InnerDoesNotClose(text: string, inner: string, sh: Shape)
    requires text == FenceTag + "\n" + ([sh.Open()] + inner + [sh.Close()]) + "\n" + FenceEnd
    requires sh.Close() !in inner
    ensures forall k :: 9 <= k < 9 + |inner| ==> !ClosesAt(text, k, sh.Close())
  {
    forall k | 9 <= k < 9 + |inner|
      ensures !ClosesAt(text, k, sh.Close())
    {
      assert text[k] == inner[k - 9];
    }
  }

  lemma FenceCloses(text: string, e: nat, close: char)
    requires e + 5 == |text| && text[e] == close && text[e + 1..] == "\n" + FenceEnd
    ensures ClosesAt(text, e, close)
  {
    assert WsLen(text[e + 1..]) == 1 by {
      assert WsLen(text[e + 1..][1..]) == 0;
    }
    assert text[e + 2..] == FenceEnd;
  }
}
