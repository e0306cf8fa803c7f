// Python's `list.sort(key=..., reverse=True)` and `sorted(..., key=...)`:
// a stable sort. Both orders are expressed as a descending sort on a real
// key (an ascending sort is the descending sort on the negated key), and
// stability means that the elements sharing a key keep their input order.
module StableSort {

  predicate SortedDesc<T>(xs: seq<T>, key: T -> real) {
    forall i, j :: 0 <= i < j < |xs| ==> key(xs[i]) >= key(xs[j])
  }

  /** `x` placed after every element whose key is at least its own. */
  function Insert<T>(x: T, s: seq<T>, key: T -> real): (r: seq<T>)
    ensures |r| == |s| + 1
  {
    if s == [] then [x]
    else if key(s[0]) >= key(x) then [s[0]] + Insert(x, s[1..], key)
    else [x] + s
  }

  /** The stable descending sort, inserting the elements in input order. */
  function SortDesc<T>(xs: seq<T>, key: T -> real): (r: seq<T>)
    ensures |r| == |xs|
  {
    if xs == [] then []
    else Insert(xs[|xs| - 1], SortDesc(xs[..|xs| - 1], key), key)
  }

  /** The elements whose key is `v`, in order. */
  function WithKey<T>(xs: seq<T>, v: real, key: T -> real): seq<T> {
    if xs == [] then []
    else (if key(xs[0]) == v then [xs[0]] else []) + WithKey(xs[1..], v, key)
  }

  lemma {:induction false} WithKeyAppend<T>(a: seq<T>, b: seq<T>, v: real, key: T -> real)
    ensures WithKey(a + b, v, key) == WithKey(a, v, key) + WithKey(b, v, key)
  {
    if a == [] {
      assert a + b == b;
    } else {
      var h := if key(a[0]) == v then [a[0]] else [];
      assert (a + b)[0] == a[0];
      assert (a + b)[1..] == a[1..] + b;
      WithKeyAppend(a[1..], b, v, key);
      calc {
        WithKey(a + b, v, key);
        h + WithKey(a[1..] + b, v, key);
        h + (WithKey(a[1..], v, key) + WithKey(b, v, key));
        (h + WithKey(a[1..], v, key)) + WithKey(b, v, key);
      }
    }
  }

  lemma {:induction false} WithKeyNone<T>(s: seq<T>, v: real, key: T -> real)
    requires forall i :: 0 <= i < |s| ==> key(s[i]) < v
    ensures WithKey(s, v, key) == []
  {
    if s != [] {
      WithKeyNone(s[1..], v, key);
    }
  }

  lemma {:induction false} InsertPermutes<T>(x: T, s: seq<T>, key: T -> real)
    ensures multiset(Insert(x, s, key)) == multiset(s) + multiset{x}
  {
    if s != [] && key(s[0]) >= key(x) {
      InsertPermutes(x, s[1..], key);
      assert s == [s[0]] + s[1..];
    }
  }

  lemma {:induction false} InsertSorted<T>(x: T, s: seq<T>, key: T -> real)
    requires SortedDesc(s, key)
    ensures SortedDesc(Insert(x, s, key), key)
  {
    if s != [] && key(s[0]) >= key(x) {
      var t := s[1..];
      InsertSorted(x, t, key);
      InsertPermutes(x, t, key);
      var r := Insert(x, s, key);
      assert r == [s[0]] + Insert(x, t, key);
      forall j | 0 < j < |r| ensures key(s[0]) >= key(r[j]) {
        assert r[j] == Insert(x, t, key)[j - 1];
        assert r[j] in multiset(t) + multiset{x};
      }
    }
  }

  lemma {:induction false} InsertWithKey<T>(x: T, s: seq<T>, v: real, key: T -> real)
    requires SortedDesc(s, key)
    ensures WithKey(Insert(x, s, key), v, key) == WithKey(s, v, key) + (if key(x) == v then [x] else [])
  {
    var hx := if key(x) == v then [x] else [];
    if s == [] {
      assert Insert(x, s, key) == [x];
      assert WithKey([x], v, key) == hx + WithKey([x][1..], v, key);
    } else if key(s[0]) >= key(x) {
      var t := s[1..];
      var h := if key(s[0]) == v then [s[0]] else [];
      assert SortedDesc(t, key);
      InsertWithKey(x, t, v, key);
      var r := Insert(x, s, key);
      assert r == [s[0]] + Insert(x, t, key);
      assert r[0] == s[0] && r[1..] == Insert(x, t, key);
      calc {
        WithKey(r, v, key);
        h + WithKey(Insert(x, t, key), v, key);
        h + (WithKey(t, v, key) + hx);
        (h + WithKey(t, v, key)) + hx;
        WithKey(s, v, key) + hx;
      }
    } else {
      var r := [x] + s;
      assert Insert(x, s, key) == r;
      assert r[0] == x && r[1..] == s;
      assert WithKey(r, v, key) == hx + WithKey(s, v, key);
      if key(x) == v {
        WithKeyNone(s, v, key);
      }
    }
  }

  lemma InsertFacts<T>(x: T, s: seq<T>, key: T -> real)
    requires SortedDesc(s, key)
    ensures multiset(Insert(x, s, key)) == multiset(s) + multiset{x}
    ensures SortedDesc(Insert(x, s, key), key)
    ensures forall v :: WithKey(Insert(x, s, key), v, key) == WithKey(s, v, key) + (if key(x) == v then [x] else [])
  {
    InsertPermutes(x, s, key);
    InsertSorted(x, s, key);
    forall v ensures WithKey(Insert(x, s, key), v, key) == WithKey(s, v, key) + (if key(x) == v then [x] else []) {
      InsertWithKey(x, s, v, key);
    }
  }

  /** The sort returns a permutation of its input, in non-increasing key
      order, and the elements sharing a key keep their input order. */
  lemma {:induction false} SortDescFacts<T>(xs: seq<T>, key: T -> real)
    ensures multiset(SortDesc(xs, key)) == multiset(xs)
    ensures SortedDesc(SortDesc(xs, key), key)
    ensures forall v :: WithKey(SortDesc(xs, key), v, key) == WithKey(xs, v, key)
  {
    if xs != [] {
      var init := xs[..|xs| - 1];
      var x := xs[|xs| - 1];
      assert xs == init + [x];
      SortDescFacts(init, key);
      InsertFacts(x, SortDesc(init, key), key);
      forall v ensures WithKey(SortDesc(xs, key), v, key) == WithKey(xs, v, key) {
        WithKeyAppend(init, [x], v, key);
        assert [x][1..] == [];
      }
    }
  }

  lemma {:induction false} InsertLast<T>(x: T, s: seq<T>, key: T -> real)
    requires forall i :: 0 <= i < |s| ==> key(s[i]) >= key(x)
    ensures Insert(x, s, key) == s + [x]
  {
    if s != [] {
      InsertLast(x, s[1..], key);
      assert s == [s[0]] + s[1..];
    }
  }

  /** An input already in non-increasing key order is returned as it is. */
  lemma {:induction false} SortDescIdentity<T>(xs: seq<T>, key: T -> real)
    requires SortedDesc(xs, key)
    ensures SortDesc(xs, key) == xs
  {
    if xs != [] {
      var init := xs[..|xs| - 1];
      SortDescIdentity(init, key);
      InsertLast(xs[|xs| - 1], init, key);
      assert init + [xs[|xs| - 1]] == xs;
    }
  }

  /** Each element paired with its key, as `(key(x), x)`. */
  function Decorate<T>(xs: seq<T>, key: T -> real): seq<(real, T)> {
    seq(|xs|, i requires 0 <= i < |xs| => (key(xs[i]), xs[i]))
  }

  /** The elements of decorated pairs. */
  function Undecorate<T>(ps: seq<(real, T)>): seq<T> {
    seq(|ps|, i requires 0 <= i < |ps| => ps[i].1)
  }

  /** The key of a decorated pair: its first component. */
  function PairKey<T>(): ((real, T)) -> real {
    (p: (real, T)) => p.0
  }

  lemma {:induction false} InsertDecorated<T>(x: T, s: seq<T>, key: T -> real)
    ensures Insert((key(x), x), Decorate(s, key), PairKey()) == Decorate(Insert(x, s, key), key)
  {
    if s != [] {
      assert Decorate(s, key)[1..] == Decorate(s[1..], key);
      InsertDecorated(x, s[1..], key);
    }
  }

  /** Sorting `(key(x), x)` pairs on their first component and keeping the
      second sorts the elements by their key. */
  lemma {:induction false} SortDecorated<T>(xs: seq<T>, key: T -> real)
    ensures Undecorate(SortDesc(Decorate(xs, key), PairKey())) == SortDesc(xs, key)
  {
    DecoratedSortCommutes(xs, key);
  }

  lemma {:induction false} DecoratedSortCommutes<T>(xs: seq<T>, key: T -> real)
    ensures SortDesc(Decorate(xs, key), PairKey()) == Decorate(SortDesc(xs, key), key)
  {
    if xs != [] {
      var n := |xs| - 1;
      assert Decorate(xs, key)[..n] == Decorate(xs[..n], key);
      DecoratedSortCommutes(xs[..n], key);
      InsertDecorated(xs[n], SortDesc(xs[..n], key), key);
    }
  }
}
