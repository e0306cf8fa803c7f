// Whole-word substitution, `re.sub(r'\b' + w + r'\b', r, s)`, for a word `w`
// made only of word characters. Such a pattern matches exactly the maximal
// runs of word characters of `s` that spell `w` (compared lower-cased under
// `re.IGNORECASE`), and `re.sub` replaces all of them in one left-to-right
// pass over the original string. A table of such substitutions applied one
// after another is what the ordinal and roman-numeral rewrites do.
module WordReplace {
  import opened Text

  /** The number of leading word characters of `s`. */
  function RunLen(s: string): (n: nat)
    ensures n <= |s|
    ensures forall i :: 0 <= i < n ==> IsWordChar(s[i])
    ensures n < |s| ==> !IsWordChar(s[n])
  {
    if s != [] && IsWordChar(s[0]) then 1 + RunLen(s[1..]) else 0
  }

  predicate AllWord(s: string) {
    forall i :: 0 <= i < |s| ==> IsWordChar(s[i])
  }

  /** A run of word characters followed by a non-word character (or nothing)
      is the whole leading run. */
  lemma {:induction false} RunLenConcat(p: string, rest: string)
    requires AllWord(p)
    requires rest == [] || !IsWordChar(rest[0])
    ensures RunLen(p + rest) == |p|
  {
    if p != [] {
      assert (p + rest)[1..] == p[1..] + rest;
      RunLenConcat(p[1..], rest);
    } else {
      assert p + rest == rest;
    }
  }

  /** A leading run that ends inside `a` is not lengthened by what follows `a`. */
  lemma {:induction false} RunLenPrefix(a: string, rest: string)
    requires RunLen(a) < |a|
    ensures RunLen(a + rest) == RunLen(a)
  {
    if IsWordChar(a[0]) {
      assert (a + rest)[1..] == a[1..] + rest;
      RunLenPrefix(a[1..], rest);
    }
  }

  /** What a run is compared with: itself, or lower-cased under IGNORECASE. */
  function Key(run: string, ignoreCase: bool): string {
    if ignoreCase then Lower(run) else run
  }

  /** `re.sub(r'\bw\b', r, s, flags)` */
  function ReplaceWord(s: string, w: string, r: string, ignoreCase: bool): string
    decreases |s|
  {
    if s == [] then []
    else if !IsWordChar(s[0]) then [s[0]] + ReplaceWord(s[1..], w, r, ignoreCase)
    else
      var n := RunLen(s);
      (if Key(s[..n], ignoreCase) == w then r else s[..n]) + ReplaceWord(s[n..], w, r, ignoreCase)
  }

  /** No maximal run of word characters of `s` has its key in `ws`. */
  predicate NoRun(s: string, ws: set<string>, ignoreCase: bool)
    decreases |s|
  {
    if s == [] then true
    else if !IsWordChar(s[0]) then NoRun(s[1..], ws, ignoreCase)
    else
      var n := RunLen(s);
      Key(s[..n], ignoreCase) !in ws && NoRun(s[n..], ws, ignoreCase)
  }

  /** The non-word characters of `s`, in order: everything the substitutions must keep. */
  function NonWord(s: string): string {
    if s == [] then []
    else (if IsWordChar(s[0]) then [] else [s[0]]) + NonWord(s[1..])
  }

  lemma {:induction false} NonWordAppend(a: string, b: string)
    ensures NonWord(a + b) == NonWord(a) + NonWord(b)
  {
    if a != [] {
      assert (a + b)[1..] == a[1..] + b;
      NonWordAppend(a[1..], b);
    } else {
      assert a + b == b;
    }
  }

  lemma {:induction false} NonWordOfWord(s: string)
    requires AllWord(s)
    ensures NonWord(s) == []
  {
    if s != [] {
      NonWordOfWord(s[1..]);
    }
  }

  lemma {:induction false} NoRunEmpty(s: string, ignoreCase: bool)
    ensures NoRun(s, {}, ignoreCase)
    decreases |s|
  {
    if s != [] {
      if !IsWordChar(s[0]) {
        NoRunEmpty(s[1..], ignoreCase);
      } else {
        NoRunEmpty(s[RunLen(s)..], ignoreCase);
      }
    }
  }

  /** A text with no run spelling `w` is returned unchanged. */
  lemma {:induction false} ReplaceWordIdentity(s: string, ws: set<string>, w: string, r: string, ignoreCase: bool)
    requires NoRun(s, ws, ignoreCase) && w in ws
    ensures ReplaceWord(s, w, r, ignoreCase) == s
    decreases |s|
  {
    if s != [] {
      if !IsWordChar(s[0]) {
        ReplaceWordIdentity(s[1..], ws, w, r, ignoreCase);
      } else {
        var n := RunLen(s);
        ReplaceWordIdentity(s[n..], ws, w, r, ignoreCase);
        assert s[..n] + s[n..] == s;
      }
    }
  }

  /** Substitution starts a text that starts with a non-word character with that character. */
  lemma ReplaceWordHead(s: string, w: string, r: string, ignoreCase: bool)
    requires s != [] && !IsWordChar(s[0])
    ensures ReplaceWord(s, w, r, ignoreCase) == [s[0]] + ReplaceWord(s[1..], w, r, ignoreCase)
  {
  }

  /** Substitution keeps every non-word character, in order, when the
      replacement is itself made of word characters. */
  lemma {:induction false} ReplaceWordKeepsNonWord(s: string, w: string, r: string, ignoreCase: bool)
    requires AllWord(r)
    ensures NonWord(ReplaceWord(s, w, r, ignoreCase)) == NonWord(s)
    decreases |s|
  {
    if s != [] {
      if !IsWordChar(s[0]) {
        ReplaceWordKeepsNonWord(s[1..], w, r, ignoreCase);
        NonWordAppend([s[0]], ReplaceWord(s[1..], w, r, ignoreCase));
        NonWordAppend([s[0]], s[1..]);
        assert [s[0]] + s[1..] == s;
      } else {
        var n := RunLen(s);
        var piece := if Key(s[..n], ignoreCase) == w then r else s[..n];
        ReplaceWordKeepsNonWord(s[n..], w, r, ignoreCase);
        NonWordAppend(piece, ReplaceWord(s[n..], w, r, ignoreCase));
        NonWordOfWord(piece);
        NonWordAppend(s[..n], s[n..]);
        NonWordOfWord(s[..n]);
        assert s[..n] + s[n..] == s;
      }
    }
  }

  /** After substituting `w` by a word whose key is neither `w` nor in `ws`,
      no run spells `w` or anything in `ws` that none spelled before. */
  lemma {:induction false} ReplaceWordClears(s: string, ws: set<string>, w: string, r: string, ignoreCase: bool)
    requires NoRun(s, ws, ignoreCase)
    requires r != [] && AllWord(r) && Key(r, ignoreCase) !in ws + {w}
    ensures NoRun(ReplaceWord(s, w, r, ignoreCase), ws + {w}, ignoreCase)
    decreases |s|
  {
    var out := ReplaceWord(s, w, r, ignoreCase);
    if s != [] {
      if !IsWordChar(s[0]) {
        ReplaceWordClears(s[1..], ws, w, r, ignoreCase);
        assert out[1..] == ReplaceWord(s[1..], w, r, ignoreCase);
      } else {
        var n := RunLen(s);
        var piece := if Key(s[..n], ignoreCase) == w then r else s[..n];
        var rest := ReplaceWord(s[n..], w, r, ignoreCase);
        ReplaceWordClears(s[n..], ws, w, r, ignoreCase);
        if s[n..] != [] {
          ReplaceWordHead(s[n..], w, r, ignoreCase);
        }
        RunLenConcat(piece, rest);
        assert out == piece + rest;
        assert out[..|piece|] == piece && out[|piece|..] == rest;
      }
    }
  }

  /** No run of word characters crosses the seam between `a` and `c`. */
  predicate Boundary(a: string, c: string) {
    a == [] || c == [] || !IsWordChar(a[|a| - 1]) || !IsWordChar(c[0])
  }

  /** Substitution distributes over a seam that no run crosses. */
  lemma {:induction false} ReplaceWordSplit(a: string, c: string, w: string, r: string, ignoreCase: bool)
    requires Boundary(a, c)
    ensures ReplaceWord(a + c, w, r, ignoreCase) == ReplaceWord(a, w, r, ignoreCase) + ReplaceWord(c, w, r, ignoreCase)
    decreases |a|
  {
    if a == [] {
      assert a + c == c;
    } else if !IsWordChar(a[0]) {
      assert (a + c)[1..] == a[1..] + c;
      ReplaceWordSplit(a[1..], c, w, r, ignoreCase);
    } else if RunLen(a) < |a| {
      var n := RunLen(a);
      RunLenPrefix(a, c);
      assert (a + c)[..n] == a[..n];
      assert (a + c)[n..] == a[n..] + c;
      assert a[n..][|a[n..]| - 1] == a[|a| - 1];
      ReplaceWordSplit(a[n..], c, w, r, ignoreCase);
      SplitAfterRun(a, c, w, r, ignoreCase);
    } else {
      ReplaceWordSingle(a, w, r, ignoreCase);
      ReplaceWordWordFirst(a, c, w, r, ignoreCase);
    }
  }

  lemma SplitAfterRun(a: string, c: string, w: string, r: string, ignoreCase: bool)
    requires a != [] && IsWordChar(a[0]) && RunLen(a) < |a|
    requires RunLen(a + c) == RunLen(a)
    requires ReplaceWord(a[RunLen(a)..] + c, w, r, ignoreCase)
          == ReplaceWord(a[RunLen(a)..], w, r, ignoreCase) + ReplaceWord(c, w, r, ignoreCase)
    ensures ReplaceWord(a + c, w, r, ignoreCase) == ReplaceWord(a, w, r, ignoreCase) + ReplaceWord(c, w, r, ignoreCase)
  {
    var n := RunLen(a);
    assert (a + c)[..n] == a[..n];
    assert (a + c)[n..] == a[n..] + c;
    ReplaceWordRun(a + c, w, r, ignoreCase);
    ReplaceWordRun(a, w, r, ignoreCase);
    var piece := if Key(a[..n], ignoreCase) == w then r else a[..n];
    var x := ReplaceWord(a[n..], w, r, ignoreCase);
    var y := ReplaceWord(c, w, r, ignoreCase);
    assert ReplaceWord(a + c, w, r, ignoreCase) == piece + ReplaceWord(a[n..] + c, w, r, ignoreCase);
    assert ReplaceWord(a, w, r, ignoreCase) == piece + x;
    Regroup(ReplaceWord(a + c, w, r, ignoreCase), piece, ReplaceWord(a[n..] + c, w, r, ignoreCase), x, y,
            ReplaceWord(a, w, r, ignoreCase));
  }

  lemma Regroup(whole: string, piece: string, tail: string, x: string, y: string, front: string)
    requires whole == piece + tail && tail == x + y && front == piece + x
    ensures whole == front + y
  {
  }

  /** Unfolding of the substitution at a leading run. */
  lemma ReplaceWordRun(s: string, w: string, r: string, ignoreCase: bool)
    requires s != [] && IsWordChar(s[0])
    ensures ReplaceWord(s, w, r, ignoreCase)
         == (if Key(s[..RunLen(s)], ignoreCase) == w then r else s[..RunLen(s)]) + ReplaceWord(s[RunLen(s)..], w, r, ignoreCase)
  {
  }

  /** A whole word followed by text that starts with a non-word character. */
  lemma ReplaceWordWordFirst(v: string, c: string, w: string, r: string, ignoreCase: bool)
    requires v != [] && AllWord(v)
    requires c == [] || !IsWordChar(c[0])
    ensures ReplaceWord(v + c, w, r, ignoreCase) == (if Key(v, ignoreCase) == w then r else v) + ReplaceWord(c, w, r, ignoreCase)
  {
    RunLenConcat(v, c);
    assert (v + c)[..|v|] == v && (v + c)[|v|..] == c;
  }

  /** A single word goes to the replacement if it spells `w`, and stays otherwise. */
  lemma ReplaceWordSingle(v: string, w: string, r: string, ignoreCase: bool)
    requires v != [] && AllWord(v)
    ensures ReplaceWord(v, w, r, ignoreCase) == if Key(v, ignoreCase) == w then r else v
  {
    RunLenConcat(v, []);
    assert v + [] == v;
    assert v[|v|..] == [];
  }

  /** Substitution keeps a non-word character at either end of the text. */
  lemma ReplaceWordKeepsEnds(s: string, w: string, r: string, ignoreCase: bool)
    ensures s != [] && !IsWordChar(s[0]) ==>
      var o := ReplaceWord(s, w, r, ignoreCase); o != [] && o[0] == s[0]
    ensures s != [] && !IsWordChar(s[|s| - 1]) ==>
      var o := ReplaceWord(s, w, r, ignoreCase); o != [] && o[|o| - 1] == s[|s| - 1]
    ensures s == [] ==> ReplaceWord(s, w, r, ignoreCase) == []
  {
    if s != [] && !IsWordChar(s[|s| - 1]) {
      var init := s[..|s| - 1];
      ReplaceWordSplit(init, [s[|s| - 1]], w, r, ignoreCase);
      assert init + [s[|s| - 1]] == s;
    }
  }

  /** Substitution keeps a text free of upper-case ASCII letters when the replacement is. */
  lemma {:induction false} ReplaceWordKeepsLower(s: string, w: string, r: string, ignoreCase: bool)
    requires IsLower(s) && IsLower(r)
    ensures IsLower(ReplaceWord(s, w, r, ignoreCase))
    decreases |s|
  {
    if s != [] {
      if !IsWordChar(s[0]) {
        ReplaceWordKeepsLower(s[1..], w, r, ignoreCase);
      } else {
        ReplaceWordKeepsLower(s[RunLen(s)..], w, r, ignoreCase);
      }
    }
  }

  // ---------------------------------------------------------------------
  // Tables of substitutions applied in order

  type Table = seq<(string, string)>

  function Keys(t: Table): set<string> {
    set i | 0 <= i < |t| :: t[i].0
  }

  /** Every replacement is a non-empty word whose key is not itself a key of the table. */
  predicate WellFormed(t: Table, ignoreCase: bool) {
    forall i :: 0 <= i < |t| ==> t[i].1 != [] && AllWord(t[i].1) && Key(t[i].1, ignoreCase) !in Keys(t)
  }

  /** `for w, r in table.items(): s = re.sub(r'\b' + w + r'\b', r, s, flags)` */
  function ApplyTable(s: string, t: Table, ignoreCase: bool): string {
    if t == [] then s
    else
      var last := t[|t| - 1];
      ReplaceWord(ApplyTable(s, t[..|t| - 1], ignoreCase), last.0, last.1, ignoreCase)
  }

  /** After the whole table, no run spells any key of it. */
  lemma {:induction false} TableClears(s: string, t: Table, ignoreCase: bool)
    requires WellFormed(t, ignoreCase)
    ensures NoRun(ApplyTable(s, t, ignoreCase), Keys(t), ignoreCase)
  {
    if t == [] {
      NoRunEmpty(s, ignoreCase);
      assert Keys(t) == {};
    } else {
      var init := t[..|t| - 1];
      var last := t[|t| - 1];
      assert Keys(t) == Keys(init) + {last.0} by {
        forall k | k in Keys(t) ensures k in Keys(init) + {last.0} {
          var i :| 0 <= i < |t| && t[i].0 == k;
          if i < |t| - 1 { assert init[i] == t[i]; }
        }
        forall k | k in Keys(init) ensures k in Keys(t) {
          var i :| 0 <= i < |init| && init[i].0 == k;
          assert t[i] == init[i];
        }
      }
      assert WellFormed(init, ignoreCase) by {
        forall i | 0 <= i < |init|
          ensures init[i].1 != [] && AllWord(init[i].1) && Key(init[i].1, ignoreCase) !in Keys(init)
        {
          assert init[i] == t[i];
        }
      }
      TableClears(s, init, ignoreCase);
      ReplaceWordClears(ApplyTable(s, init, ignoreCase), Keys(init), last.0, last.1, ignoreCase);
    }
  }

  /** A text in which no run spells a key of the table is left unchanged. */
  lemma {:induction false} TableIdentity(s: string, t: Table, ws: set<string>, ignoreCase: bool)
    requires NoRun(s, ws, ignoreCase) && Keys(t) <= ws
    ensures ApplyTable(s, t, ignoreCase) == s
  {
    if t != [] {
      var init := t[..|t| - 1];
      assert Keys(init) <= Keys(t) by {
        forall k | k in Keys(init) ensures k in Keys(t) {
          var i :| 0 <= i < |init| && init[i].0 == k;
          assert t[i] == init[i];
        }
      }
      TableIdentity(s, init, ws, ignoreCase);
      assert t[|t| - 1].0 in Keys(t);
      ReplaceWordIdentity(s, ws, t[|t| - 1].0, t[|t| - 1].1, ignoreCase);
    }
  }

  /** The whole table keeps every non-word character, in order. */
  lemma {:induction false} TableKeepsNonWord(s: string, t: Table, ignoreCase: bool)
    requires WellFormed(t, ignoreCase)
    ensures NonWord(ApplyTable(s, t, ignoreCase)) == NonWord(s)
  {
    if t != [] {
      var init := t[..|t| - 1];
      assert WellFormed(init, ignoreCase) by {
        forall i | 0 <= i < |init|
          ensures init[i].1 != [] && AllWord(init[i].1) && Key(init[i].1, ignoreCase) !in Keys(init)
        {
          assert init[i] == t[i];
          assert Keys(init) <= Keys(t) by {
            forall k | k in Keys(init) ensures k in Keys(t) {
              var j :| 0 <= j < |init| && init[j].0 == k;
              assert t[j] == init[j];
            }
          }
        }
      }
      TableKeepsNonWord(s, init, ignoreCase);
      ReplaceWordKeepsNonWord(ApplyTable(s, init, ignoreCase), t[|t| - 1].0, t[|t| - 1].1, ignoreCase);
    }
  }

  /** The whole table keeps a text free of upper-case ASCII letters when its replacements are. */
  lemma {:induction false} TableKeepsLower(s: string, t: Table, ignoreCase: bool)
    requires IsLower(s)
    requires forall i :: 0 <= i < |t| ==> IsLower(t[i].1)
    ensures IsLower(ApplyTable(s, t, ignoreCase))
  {
    if t != [] {
      var init := t[..|t| - 1];
      assert forall i :: 0 <= i < |init| ==> init[i] == t[i];
      TableKeepsLower(s, init, ignoreCase);
      ReplaceWordKeepsLower(ApplyTable(s, init, ignoreCase), t[|t| - 1].0, t[|t| - 1].1, ignoreCase);
    }
  }

  /** The whole table distributes over a seam that no run crosses, and no
      run crosses the seam afterwards either. */
  lemma {:induction false} TableSplit(a: string, c: string, t: Table, ignoreCase: bool)
    requires Boundary(a, c)
    ensures ApplyTable(a + c, t, ignoreCase) == ApplyTable(a, t, ignoreCase) + ApplyTable(c, t, ignoreCase)
    ensures Boundary(ApplyTable(a, t, ignoreCase), ApplyTable(c, t, ignoreCase))
  {
    if t != [] {
      var init := t[..|t| - 1];
      var last := t[|t| - 1];
      TableSplit(a, c, init, ignoreCase);
      var a' := ApplyTable(a, init, ignoreCase);
      var c' := ApplyTable(c, init, ignoreCase);
      ReplaceWordSplit(a', c', last.0, last.1, ignoreCase);
      ReplaceWordKeepsEnds(a', last.0, last.1, ignoreCase);
      ReplaceWordKeepsEnds(c', last.0, last.1, ignoreCase);
    }
  }

  /** A single word whose key is not a key of the table passes through it unchanged. */
  lemma TableSkipsWord(v: string, t: Table, ignoreCase: bool)
    requires v != [] && AllWord(v) && Key(v, ignoreCase) !in Keys(t)
    ensures ApplyTable(v, t, ignoreCase) == v
  {
    RunLenConcat(v, []);
    assert v + [] == v;
    assert v[|v|..] == [];
    assert NoRun(v, Keys(t), ignoreCase);
    TableIdentity(v, t, Keys(t), ignoreCase);
  }

  /** A single word spelling the key of entry `j` (its first occurrence) comes
      out of the table as the replacement of entry `j`. */
  lemma {:induction false} TableReplacesWord(v: string, t: Table, j: nat, ignoreCase: bool)
    requires WellFormed(t, ignoreCase)
    requires v != [] && AllWord(v)
    requires j < |t| && Key(v, ignoreCase) == t[j].0
    requires forall i :: 0 <= i < j ==> t[i].0 != t[j].0
    ensures ApplyTable(v, t, ignoreCase) == t[j].1
  {
    var init := t[..|t| - 1];
    var last := t[|t| - 1];
    assert Keys(init) <= Keys(t) by {
      forall k | k in Keys(init) ensures k in Keys(t) {
        var i :| 0 <= i < |init| && init[i].0 == k;
        assert t[i] == init[i];
      }
    }
    assert last.0 in Keys(t);
    if j < |t| - 1 {
      assert WellFormed(init, ignoreCase) by {
        forall i | 0 <= i < |init|
          ensures init[i].1 != [] && AllWord(init[i].1) && Key(init[i].1, ignoreCase) !in Keys(init)
        {
          assert init[i] == t[i];
        }
      }
      assert init[j] == t[j];
      TableReplacesWord(v, init, j, ignoreCase);
      ReplaceWordSingle(t[j].1, last.0, last.1, ignoreCase);
    } else {
      assert Key(v, ignoreCase) !in Keys(init) by {
        forall k | k in Keys(init) ensures k != t[j].0 {
          var i :| 0 <= i < |init| && init[i].0 == k;
          assert t[i] == init[i];
        }
      }
      TableSkipsWord(v, init, ignoreCase);
      ReplaceWordSingle(v, last.0, last.1, ignoreCase);
    }
  }

  /** In `a + v + b`, with `v` a whole word spelling the key of entry `j`,
      the table puts that entry's replacement in place of `v` and treats the
      text on either side independently. */
  lemma TableReplacesAt(a: string, v: string, b: string, t: Table, j: nat, ignoreCase: bool)
    requires WellFormed(t, ignoreCase)
    requires a == [] || !IsWordChar(a[|a| - 1])
    requires b == [] || !IsWordChar(b[0])
    requires v != [] && AllWord(v)
    requires j < |t| && Key(v, ignoreCase) == t[j].0
    requires forall i :: 0 <= i < j ==> t[i].0 != t[j].0
    ensures ApplyTable(a + v + b, t, ignoreCase)
         == ApplyTable(a, t, ignoreCase) + t[j].1 + ApplyTable(b, t, ignoreCase)
  {
    assert Boundary(a, v + b) && Boundary(v, b);
    TableSplit3(a, v, b, t, ignoreCase);
    TableReplacesWord(v, t, j, ignoreCase);
  }

  lemma TableSplit3(a: string, v: string, b: string, t: Table, ignoreCase: bool)
    requires Boundary(a, v + b) && Boundary(v, b)
    ensures ApplyTable(a + v + b, t, ignoreCase)
         == ApplyTable(a, t, ignoreCase) + ApplyTable(v, t, ignoreCase) + ApplyTable(b, t, ignoreCase)
  {
    var c := v + b;
    assert a + v + b == a + c;
    TableSplitEq(a, c, t, ignoreCase);
    TableSplitEq(v, b, t, ignoreCase);
  }

  lemma TableSplitEq(a: string, c: string, t: Table, ignoreCase: bool)
    requires Boundary(a, c)
    ensures ApplyTable(a + c, t, ignoreCase) == ApplyTable(a, t, ignoreCase) + ApplyTable(c, t, ignoreCase)
  {
    TableSplit(a, c, t, ignoreCase);
  }

  /** One more entry of the table is one more substitution. */
  lemma ApplyTableStep(s: string, t: Table, i: nat, ignoreCase: bool)
    requires i < |t|
    ensures ApplyTable(s, t[..i + 1], ignoreCase) == ReplaceWord(ApplyTable(s, t[..i], ignoreCase), t[i].0, t[i].1, ignoreCase)
  {
    assert t[..i + 1][..i] == t[..i];
  }

  /** A table whose replacements are numerals and whose keys start with a
      non-digit is well formed. */
  lemma NumeralTableWellFormed(t: Table, ignoreCase: bool)
    requires forall i :: 0 <= i < |t| ==> t[i].0 != [] && !IsDigit(t[i].0[0])
    requires forall i :: 0 <= i < |t| ==> t[i].1 != [] && forall k :: 0 <= k < |t[i].1| ==> IsDigit(t[i].1[k])
    ensures WellFormed(t, ignoreCase)
  {
    forall i | 0 <= i < |t|
      ensures t[i].1 != [] && AllWord(t[i].1) && Key(t[i].1, ignoreCase) !in Keys(t)
    {
      var d := t[i].1;
      assert Lower(d) == d;
      assert forall k :: 0 <= k < |t| ==> t[k].0[0] != d[0];
    }
  }
}
