// Python dicts as the scripts use them: a key keeps the position of its
// first insertion, and assigning an existing key overwrites its value
// (the last write wins). Iteration (`keys()`, `items()`) follows the
// insertion order.
module OrderedMaps {
  datatype Dict<K(==,!new), V> = Dict(keys: seq<K>, values: map<K, V>) {
    /** The keys are distinct and are exactly the keys of the map. */
    ghost predicate Valid() {
      && (forall i, j :: 0 <= i < j < |keys| ==> keys[i] != keys[j])
      && (forall k :: k in values <==> k in keys)
    }

    /** `d[k] = v` */
    function Put(k: K, v: V): (r: Dict<K, V>)
      requires Valid()
      ensures r.Valid()
      ensures r.values == values[k := v]
      ensures r.keys == if k in values then keys else keys + [k]
    {
      if k in values then Dict(keys, values[k := v]) else Dict(keys + [k], values[k := v])
    }

    /** `d.get(k, default)` */
    function Get(k: K, default: V): V {
      if k in values then values[k] else default
    }

    /** `list(d.items())` */
    function Items(): (ps: seq<(K, V)>)
      requires Valid()
      ensures |ps| == |keys| && forall i :: 0 <= i < |ps| ==> ps[i] == (keys[i], values[keys[i]])
    {
      seq(|keys|, i requires 0 <= i < |keys| => (keys[i], values[keys[i]]))
    }
  }

  function EmptyDict<K(==,!new), V>(): (r: Dict<K, V>)
    ensures r.Valid() && r.keys == [] && r.values == map[]
  {
    Dict([], map[])
  }

  /** The pairs assigned one after another into `d`. */
  function PutAll<K(==,!new), V>(d: Dict<K, V>, ps: seq<(K, V)>): (r: Dict<K, V>)
    requires d.Valid()
    ensures r.Valid()
  {
    if ps == [] then d
    else PutAll(d, ps[..|ps| - 1]).Put(ps[|ps| - 1].0, ps[|ps| - 1].1)
  }

  /** The map the pairs leave behind: for each key, the value of its last pair. */
  function LastWins<K(==,!new), V>(ps: seq<(K, V)>): map<K, V> {
    if ps == [] then map[]
    else LastWins(ps[..|ps| - 1])[ps[|ps| - 1].0 := ps[|ps| - 1].1]
  }

  /** The keys of the pairs, in order. */
  function PairKeys<K(==,!new), V>(ps: seq<(K, V)>): seq<K> {
    seq(|ps|, i requires 0 <= i < |ps| => ps[i].0)
  }

  /** `dict(pairs)` or a dict filled by a loop of assignments. */
  function FromPairs<K(==,!new), V>(ps: seq<(K, V)>): Dict<K, V> {
    PutAll(EmptyDict(), ps)
  }

  /** `d.update(e)` */
  function Update<K(==,!new), V>(d: Dict<K, V>, e: Dict<K, V>): Dict<K, V>
    requires d.Valid() && e.Valid()
  {
    PutAll(d, e.Items())
  }

  lemma {:induction false} PutAllValues<K(!new), V>(d: Dict<K, V>, ps: seq<(K, V)>)
    requires d.Valid()
    ensures PutAll(d, ps).values == d.values + LastWins(ps)
  {
    if ps != [] {
      var init := ps[..|ps| - 1];
      var p := ps[|ps| - 1];
      PutAllValues(d, init);
      calc {
        PutAll(d, ps).values;
        PutAll(d, init).values[p.0 := p.1];
        (d.values + LastWins(init))[p.0 := p.1];
        { UnionUpdate(d.values, LastWins(init), p.0, p.1); }
        d.values + LastWins(init)[p.0 := p.1];
      }
    }
  }

  /** A key of the pairs is bound to the value of its last pair. */
  lemma {:induction false} LastWinsIs<K(!new), V>(ps: seq<(K, V)>, i: nat)
    requires i < |ps| && forall j :: i < j < |ps| ==> ps[j].0 != ps[i].0
    ensures ps[i].0 in LastWins(ps) && LastWins(ps)[ps[i].0] == ps[i].1
  {
    if i < |ps| - 1 {
      LastWinsIs(ps[..|ps| - 1], i);
    }
  }

  /** The keys bound are exactly the keys of the pairs. */
  lemma {:induction false} LastWinsKeys<K(!new), V>(ps: seq<(K, V)>)
    ensures forall k :: k in LastWins(ps) <==> exists i :: 0 <= i < |ps| && ps[i].0 == k
  {
    if ps != [] {
      LastWinsKeys(ps[..|ps| - 1]);
      var last := |ps| - 1;
      forall k | exists i :: 0 <= i < |ps| && ps[i].0 == k
        ensures k in LastWins(ps)
      {
        var i :| 0 <= i < |ps| && ps[i].0 == k;
        if i < last {
          assert ps[..last][i].0 == k;
        }
      }
      forall k | k in LastWins(ps)
        ensures exists i :: 0 <= i < |ps| && ps[i].0 == k
      {
        if k != ps[last].0 {
          assert k in LastWins(ps[..last]);
          var i :| 0 <= i < last && ps[..last][i].0 == k;
          assert ps[i].0 == k;
        }
      }
    }
  }

  /** The keys keep their first-insertion order: the earlier keys, then the new
      ones in order of first appearance. */
  lemma {:induction false} PutAllKeys<K(!new), V>(d: Dict<K, V>, ps: seq<(K, V)>)
    requires d.Valid()
    ensures PutAll(d, ps).keys == d.keys + NewKeys(d.keys, PairKeys(ps))
  {
    if ps != [] {
      var init := ps[..|ps| - 1];
      var k := ps[|ps| - 1].0;
      PutAllKeys(d, init);
      PutKeys(PutAll(d, init), k, ps[|ps| - 1].1, d.keys, NewKeys(d.keys, PairKeys(init)));
      PairKeysSnoc(ps);
      NewKeysStep(d.keys, PairKeys(init), k);
    }
  }

  lemma PairKeysSnoc<K(!new), V>(ps: seq<(K, V)>)
    requires ps != []
    ensures PairKeys(ps) == PairKeys(ps[..|ps| - 1]) + [ps[|ps| - 1].0]
  {
  }

  lemma PutKeys<K(!new), V>(prev: Dict<K, V>, k: K, v: V, a: seq<K>, n: seq<K>)
    requires prev.Valid() && prev.keys == a + n
    ensures prev.Put(k, v).keys == a + (if k in a || k in n then n else n + [k])
  {
    if k !in prev.values {
      assert (a + n) + [k] == a + (n + [k]);
    }
  }

  /** The elements of `ks` not in `prior`, each once, in order of first appearance. */
  function NewKeys<K(==)>(prior: seq<K>, ks: seq<K>): seq<K> {
    if ks == [] then []
    else
      var n := NewKeys(prior, ks[..|ks| - 1]);
      var k := ks[|ks| - 1];
      if k in prior || k in n then n else n + [k]
  }

  lemma {:induction false} NewKeysStep<K>(prior: seq<K>, ks: seq<K>, k: K)
    ensures NewKeys(prior, ks + [k]) == if k in prior || k in NewKeys(prior, ks) then NewKeys(prior, ks) else NewKeys(prior, ks) + [k]
  {
    assert (ks + [k])[..|ks|] == ks;
  }

  /** `d.update(e)`: every key of `e` takes its value from `e`, the other
      keys of `d` keep theirs. */
  lemma UpdateValues<K(!new), V>(d: Dict<K, V>, e: Dict<K, V>)
    requires d.Valid() && e.Valid()
    ensures Update(d, e).values == d.values + e.values
  {
    var ps := e.Items();
    PutAllValues(d, ps);
    LastWinsKeys(ps);
    forall k | k in e.values
      ensures k in LastWins(ps) && LastWins(ps)[k] == e.values[k]
    {
      var i :| 0 <= i < |e.keys| && e.keys[i] == k;
      LastWinsIs(ps, i);
    }
    forall k | k in LastWins(ps) ensures k in e.values {
      var i :| 0 <= i < |ps| && ps[i].0 == k;
    }
    assert LastWins(ps) == e.values;
  }

  /** Assigning two runs of pairs one after the other is assigning their
      concatenation. */
  lemma {:induction false} PutAllAppend<K(!new), V>(d: Dict<K, V>, a: seq<(K, V)>, b: seq<(K, V)>)
    requires d.Valid()
    ensures PutAll(PutAll(d, a), b) == PutAll(d, a + b)
  {
    if b != [] {
      var init := b[..|b| - 1];
      PutAllAppend(d, a, init);
      assert (a + b)[..|a + b| - 1] == a + init;
    } else {
      assert a + b == a;
    }
  }

  /** Later pairs override earlier ones. */
  lemma {:induction false} LastWinsAppend<K(!new), V>(a: seq<(K, V)>, b: seq<(K, V)>)
    ensures LastWins(a + b) == LastWins(a) + LastWins(b)
  {
    if b == [] {
      assert a + b == a;
    } else {
      var init := b[..|b| - 1];
      LastWinsAppend(a, init);
      assert (a + b)[..|a + b| - 1] == a + init;
    }
  }

  /** Writing a key after a union is writing it into the right operand. */
  lemma UnionUpdate<K, V>(m: map<K, V>, l: map<K, V>, k: K, v: V)
    ensures (m + l)[k := v] == m + l[k := v]
  {
  }

  lemma UnionAssoc<K, V>(a: map<K, V>, b: map<K, V>, c: map<K, V>)
    ensures (a + b) + c == a + (b + c)
  {
  }

  /** Every binding comes from one of the pairs. */
  lemma {:induction false} LastWinsFromPairs<K(!new), V>(ps: seq<(K, V)>)
    ensures forall k :: k in LastWins(ps) ==> (k, LastWins(ps)[k]) in ps
  {
    if ps != [] {
      var init := ps[..|ps| - 1];
      LastWinsFromPairs(init);
      forall k | k in LastWins(ps) ensures (k, LastWins(ps)[k]) in ps {
        if k != ps[|ps| - 1].0 {
          assert (k, LastWins(init)[k]) in init;
        }
      }
    }
  }

  lemma PutAllStep<K(!new), V>(d: Dict<K, V>, ps: seq<(K, V)>, i: nat)
    requires d.Valid() && i < |ps|
    ensures PutAll(d, ps[..i + 1]) == PutAll(d, ps[..i]).Put(ps[i].0, ps[i].1)
  {
    assert ps[..i + 1][..i] == ps[..i];
  }

  /** A dict filled from pairs lists each key once, in order of first
      appearance, binds exactly the keys of the pairs, and binds each to
      the value of its last pair. */
  /** A key of the pairs that is not assigned again is bound to its value. */
  lemma FromPairsLast<K(!new), V>(ps: seq<(K, V)>, i: nat)
    requires i < |ps| && forall j :: i < j < |ps| ==> ps[j].0 != ps[i].0
    ensures ps[i].0 in FromPairs(ps).values && FromPairs(ps).values[ps[i].0] == ps[i].1
  {
    var d: Dict<K, V> := EmptyDict();
    PutAllValues(d, ps);
    LastWinsIs(ps, i);
    assert d.values + LastWins(ps) == LastWins(ps);
  }

  /** The keys of `dict(pairs)`, in order of first appearance. */
  lemma FromPairsKeys<K(!new), V>(ps: seq<(K, V)>)
    ensures FromPairs(ps).Valid()
    ensures FromPairs(ps).keys == NewKeys([], PairKeys(ps))
    ensures forall k :: k in FromPairs(ps).values <==> k in PairKeys(ps)
  {
    var d: Dict<K, V> := EmptyDict();
    PutAllKeys(d, ps);
    PutAllValues(d, ps);
    assert d.values + LastWins(ps) == LastWins(ps);
    LastWinsKeys(ps);
    forall k ensures k in LastWins(ps) <==> k in PairKeys(ps) {
      if k in PairKeys(ps) {
        var i :| 0 <= i < |ps| && PairKeys(ps)[i] == k;
        assert ps[i].0 == k;
      }
      if k in LastWins(ps) {
        var i :| 0 <= i < |ps| && ps[i].0 == k;
        assert PairKeys(ps)[i] == k;
      }
    }
  }

  lemma FromPairsSpec<K(!new), V>(ps: seq<(K, V)>)
    ensures FromPairs(ps).Valid()
    ensures FromPairs(ps).keys == NewKeys([], PairKeys(ps))
    ensures forall k :: k in FromPairs(ps).values <==> k in PairKeys(ps)
    ensures forall i :: 0 <= i < |ps| && (forall j :: i < j < |ps| ==> PairKeys(ps)[j] != PairKeys(ps)[i]) ==>
      ps[i].0 in FromPairs(ps).values && FromPairs(ps).values[ps[i].0] == ps[i].1
  {
    FromPairsKeys(ps);
    forall i | 0 <= i < |ps| && (forall j :: i < j < |ps| ==> PairKeys(ps)[j] != PairKeys(ps)[i])
      ensures ps[i].0 in FromPairs(ps).values && FromPairs(ps).values[ps[i].0] == ps[i].1
    {
      assert forall j :: i < j < |ps| ==> ps[j].0 == PairKeys(ps)[j];
      FromPairsLast(ps, i);
    }
  }

}
