// The newline normalisation applied to the plain text a document converter
// produces (`clean_text`):
//   1. every newline with no newline on either side becomes a space
//      (`(?<!\n)\n(?!\n)` replaced by " ", all matches judged on the
//      original text);
//   2. every maximal run of two or more newlines, leftmost first, is
//      replaced (`\n{2,}`): by one newline in the structure scripts, by a
//      blank line in the earlier enrichment script;
//   3. the result is stripped.
module Newlines {
  import opened Text

  /** Position `j` of `s` holds a newline (false outside the text). */
  predicate NewlineAt(s: string, j: int) {
    0 <= j < |s| && s[j] == '\n'
  }

  /** A newline with no newline on either side. */
  predicate Isolated(s: string, i: int) {
    NewlineAt(s, i) && !NewlineAt(s, i - 1) && !NewlineAt(s, i + 1)
  }

  /** The first substitution. */
  function JoinLines(s: string): (r: string)
    ensures |r| == |s|
  {
    seq(|s|, i requires 0 <= i < |s| => if Isolated(s, i) then ' ' else s[i])
  }

  /** The number of newlines `s` starts with. */
  function RunLen(s: string): (n: nat)
    ensures n <= |s|
    ensures forall k :: 0 <= k < n ==> s[k] == '\n'
    ensures n < |s| ==> s[n] != '\n'
  {
    if s != [] && s[0] == '\n' then 1 + RunLen(s[1..]) else 0
  }

  /** The second substitution: each maximal run of at least two newlines
      becomes `rep`; a single newline is left alone. */
  function CollapseRuns(s: string, rep: string): string
    decreases |s|
  {
    if s == [] then []
    else if s[0] != '\n' then [s[0]] + CollapseRuns(s[1..], rep)
    else
      var n := RunLen(s);
      (if n >= 2 then rep else "\n") + CollapseRuns(s[n..], rep)
  }

  /** `clean_text` of c_processors/a_cost/00_create_structure.py */
  function CleanText(s: string): string {
    Strip(CollapseRuns(JoinLines(s), "\n"))
  }

  /** `clean_text` of c_processors/b_regcam/old/00_summarize_and_keyword.py */
  function CleanTextBlankLines(s: string): string {
    Strip(CollapseRuns(JoinLines(s), "\n\n"))
  }

  // ---------------------------------------------------------------------
  // Shapes of the results

  predicate NoIsolated(s: string) {
    forall i :: 0 <= i < |s| ==> !Isolated(s, i)
  }

  /** No two newlines in a row. */
  predicate NoDoubleNewline(s: string) {
    forall i :: 0 <= i < |s| && s[i] == '\n' ==> !NewlineAt(s, i + 1)
  }

  /** Every newline has exactly one newline beside it: newlines come in
      runs of exactly two (blank lines). */
  predicate PairedNewlines(s: string) {
    forall i :: 0 <= i < |s| && s[i] == '\n' ==> NewlineAt(s, i - 1) != NewlineAt(s, i + 1)
  }

  /** No whitespace at either end (what `strip` leaves). */
  predicate Stripped(s: string) {
    s == [] || (!IsSpace(s[0]) && !IsSpace(s[|s| - 1]))
  }

  /** After the first substitution no newline is isolated, and every
      newline that had a newline beside it is still there. */
  lemma JoinLinesSpec(s: string)
    ensures NoIsolated(JoinLines(s))
    ensures forall i :: 0 <= i < |s| && s[i] == '\n' && !Isolated(s, i) ==> JoinLines(s)[i] == '\n'
    ensures forall i :: 0 <= i < |s| && Isolated(s, i) ==> JoinLines(s)[i] == ' '
  {
    var r := JoinLines(s);
    forall i | 0 <= i < |r| ensures !Isolated(r, i) {
      if NewlineAt(r, i) {
        assert NewlineAt(s, i) && !Isolated(s, i);
        if NewlineAt(s, i - 1) {
          assert !Isolated(s, i - 1);
          assert NewlineAt(r, i - 1);
        } else {
          assert NewlineAt(s, i + 1) && !Isolated(s, i + 1);
          assert NewlineAt(r, i + 1);
        }
      }
    }
  }

  /** Collapsing runs into one newline leaves no two newlines in a row, and
      the result starts with a newline exactly when the input does. */
  lemma {:induction false} CollapseToNewline(s: string)
    ensures NoDoubleNewline(CollapseRuns(s, "\n"))
    ensures CollapseRuns(s, "\n") != [] ==> (CollapseRuns(s, "\n")[0] == '\n' <==> s[0] == '\n')
    decreases |s|
  {
    if s != [] {
      var n := if s[0] != '\n' then 1 else RunLen(s);
      var t := CollapseRuns(s[n..], "\n");
      CollapseToNewline(s[n..]);
      var head := if s[0] != '\n' then [s[0]] else "\n";
      assert CollapseRuns(s, "\n") == head + t;
      assert t != [] ==> (t[0] == '\n' <==> s[n] == '\n');
      var r := head + t;
      forall i | 0 <= i < |r| && r[i] == '\n' ensures !NewlineAt(r, i + 1) {
        if i > 0 {
          assert r[i] == t[i - 1];
          if i < |r| - 1 { assert r[i + 1] == t[i]; }
        }
      }
    }
  }

  /** A slice whose ends are not whitespace keeps the neighbours of every
      newline inside it. */
  lemma SliceKeepsNeighbours(t: string, a: nat, b: nat, i: nat)
    requires a <= b <= |t| && Stripped(t[a..b]) && i < b - a && t[a + i] == '\n'
    ensures 0 < i < b - a - 1
    ensures NewlineAt(t[a..b], i - 1) == NewlineAt(t, a + i - 1)
    ensures NewlineAt(t[a..b], i + 1) == NewlineAt(t, a + i + 1)
  {
    assert t[a..b][i] == '\n';
  }

  /** The structure scripts' `clean_text` leaves no blank line and no
      whitespace at either end. */
  lemma CleanTextSpec(s: string)
    ensures NoDoubleNewline(CleanText(s)) && Stripped(CleanText(s))
  {
    var j := JoinLines(s);
    var t := CollapseRuns(j, "\n");
    assert NoDoubleNewline(t) by {
      CollapseToNewline(j);
    }
    StripKeepsNoDouble(t);
  }

  lemma StripKeepsNoDouble(t: string)
    requires NoDoubleNewline(t)
    ensures NoDoubleNewline(Strip(t)) && Stripped(Strip(t))
  {
    var r := Strip(t);
    var a, b := StripSpec(t);
    NoDoubleSlice(t, a, b);
  }

  lemma NoDoubleSlice(t: string, a: nat, b: nat)
    requires a <= b <= |t| && NoDoubleNewline(t)
    ensures NoDoubleNewline(t[a..b])
  {
    var r := t[a..b];
    forall i | 0 <= i < |r| && r[i] == '\n' ensures !NewlineAt(r, i + 1) {
      assert r[i] == t[a + i];
      if i + 1 < |r| {
        assert r[i + 1] == t[a + i + 1];
      }
    }
  }

  /** A newline-free text is left as it is by the run collapse. */
  lemma {:induction false} CollapseWithoutNewlines(s: string, rep: string)
    requires '\n' !in s
    ensures CollapseRuns(s, rep) == s
    decreases |s|
  {
    if s != [] {
      assert s[0] != '\n';
      assert '\n' !in s[1..];
      CollapseWithoutNewlines(s[1..], rep);
    }
  }

  /** Cleaning twice removes every newline: the single newlines the first
      pass leaves are isolated, so the second pass turns them into spaces.
      The normalisation is therefore not idempotent. */
  lemma CleanTwiceHasNoNewline(s: string)
    ensures '\n' !in CleanText(CleanText(s))
  {
    var u := CleanText(s);
    assert NoDoubleNewline(u) by {
      CleanTextSpec(s);
    }
    var j := JoinLines(u);
    JoinLinesSingles(u);
    CollapseWithoutNewlines(j, "\n");
    StripNoNewline(j);
  }

  /** Without two newlines in a row every newline is isolated, so the first
      substitution removes them all. */
  lemma JoinLinesSingles(u: string)
    requires NoDoubleNewline(u)
    ensures '\n' !in JoinLines(u)
  {
    var j := JoinLines(u);
    forall i | 0 <= i < |u| ensures j[i] != '\n' {
      if u[i] == '\n' {
        assert !NewlineAt(u, i - 1) && !NewlineAt(u, i + 1);
        assert Isolated(u, i);
      }
    }
  }

  lemma StripNoNewline(j: string)
    requires '\n' !in j
    ensures '\n' !in Strip(j)
  {
    var r := Strip(j);
    var a, b := StripSpec(j);
    assert forall i :: 0 <= i < |r| ==> r[i] == j[a + i];
  }

  // ---------------------------------------------------------------------
  // The blank-line variant

  lemma NoIsolatedTail(s: string, n: nat)
    requires NoIsolated(s) && 0 < n <= |s|
    requires (n == 1 && s[0] != '\n') || n == RunLen(s)
    ensures NoIsolated(s[n..])
  {
    var t := s[n..];
    forall k | 0 <= k < |t| ensures !Isolated(t, k) {
      if Isolated(t, k) {
        assert t[k] == s[n + k];
        assert !NewlineAt(s, n + k - 1) by {
          if k > 0 { assert t[k - 1] == s[n + k - 1]; }
        }
        assert !NewlineAt(s, n + k + 1) by {
          if k + 1 < |t| { assert t[k + 1] == s[n + k + 1]; }
        }
        assert Isolated(s, n + k);
      }
    }
  }

  /** On a text with no isolated newline, replacing runs by a blank line
      leaves every newline with exactly one newline beside it; the result
      starts with a newline exactly when the input does. */
  lemma {:induction false} CollapseToBlankLines(s: string)
    requires NoIsolated(s)
    ensures PairedNewlines(CollapseRuns(s, "\n\n"))
    ensures CollapseRuns(s, "\n\n") != [] ==> (CollapseRuns(s, "\n\n")[0] == '\n' <==> s[0] == '\n')
    decreases |s|
  {
    if s != [] {
      var n := if s[0] != '\n' then 1 else RunLen(s);
      if s[0] == '\n' {
        assert !Isolated(s, 0);
        assert n >= 2;
      }
      NoIsolatedTail(s, n);
      var t := CollapseRuns(s[n..], "\n\n");
      CollapseToBlankLines(s[n..]);
      var head := if s[0] != '\n' then [s[0]] else "\n\n";
      assert CollapseRuns(s, "\n\n") == head + t;
      assert t != [] ==> (t[0] == '\n' <==> s[n] == '\n');
      PairedCons(head, t);
    }
  }

  /** A non-newline character, or a blank line followed by no newline, put
      in front of a text whose newlines come in pairs keeps them in pairs. */
  lemma PairedCons(head: string, t: string)
    requires PairedNewlines(t)
    requires (|head| == 1 && head[0] != '\n') || (head == "\n\n" && (t == [] || t[0] != '\n'))
    ensures PairedNewlines(head + t)
  {
    var r := head + t;
    forall i | 0 <= i < |r| && r[i] == '\n'
      ensures NewlineAt(r, i - 1) != NewlineAt(r, i + 1)
    {
      if i >= |head| {
        var k := i - |head|;
        assert r[i] == t[k];
        assert NewlineAt(r, i + 1) == NewlineAt(t, k + 1) by {
          if k + 1 < |t| { assert r[i + 1] == t[k + 1]; }
        }
        if k > 0 {
          assert r[i - 1] == t[k - 1];
        }
      }
    }
  }

  /** The earlier script's `clean_text` leaves newlines only in blank lines
      (runs of exactly two) and no whitespace at either end. */
  lemma CleanTextBlankLinesSpec(s: string)
    ensures PairedNewlines(CleanTextBlankLines(s)) && Stripped(CleanTextBlankLines(s))
  {
    JoinLinesSpec(s);
    CollapseToBlankLines(JoinLines(s));
    StripKeepsPaired(CollapseRuns(JoinLines(s), "\n\n"));
  }

  lemma StripKeepsPaired(t: string)
    requires PairedNewlines(t)
    ensures PairedNewlines(Strip(t))
  {
    var r := Strip(t);
    var a, b := StripSpec(t);
    forall i | 0 <= i < |r| && r[i] == '\n'
      ensures NewlineAt(r, i - 1) != NewlineAt(r, i + 1)
    {
      assert t[a + i] == '\n';
      SliceKeepsNeighbours(t, a, b, i);
    }
  }

  /** Text already in blank-line shape passes through the run collapse
      unchanged. */
  lemma {:induction false} CollapseKeepsBlankLines(s: string)
    requires PairedNewlines(s)
    ensures CollapseRuns(s, "\n\n") == s
    decreases |s|
  {
    if s != [] {
      var n := if s[0] != '\n' then 1 else 2;
      if s[0] == '\n' {
        assert NewlineAt(s, 1);
        assert !NewlineAt(s, 2);
        assert RunLen(s) == 2 by {
          assert RunLen(s[1..]) == 1 + RunLen(s[2..]);
        }
      }
      var t := s[n..];
      forall k | 0 <= k < |t| && t[k] == '\n'
        ensures NewlineAt(t, k - 1) != NewlineAt(t, k + 1)
      {
        assert t[k] == s[n + k];
        assert NewlineAt(t, k + 1) == NewlineAt(s, n + k + 1) by {
          if k + 1 < |t| { assert t[k + 1] == s[n + k + 1]; }
        }
        if k > 0 {
          assert t[k - 1] == s[n + k - 1];
        } else {
          assert s[n - 1] != '\n' || NewlineAt(s, n - 2);
        }
      }
      CollapseKeepsBlankLines(t);
      assert s == s[..n] + t;
    }
  }

  lemma StripStripped(s: string)
    requires Stripped(s)
    ensures Strip(s) == s
  {
    assert TrimStart(s) == s;
    assert TrimEnd(s) == s;
  }

  /** The earlier script's `clean_text` is idempotent. */
  lemma CleanTextBlankLinesIdempotent(s: string)
    ensures CleanTextBlankLines(CleanTextBlankLines(s)) == CleanTextBlankLines(s)
  {
    var u := CleanTextBlankLines(s);
    CleanTextBlankLinesSpec(s);
    var j := JoinLines(u);
    forall i | 0 <= i < |u| ensures j[i] == u[i] {
      if u[i] == '\n' {
        assert !Isolated(u, i);
      }
    }
    assert j == u;
    CollapseKeepsBlankLines(u);
    StripStripped(u);
  }
}
