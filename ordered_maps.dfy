/**
 * Python dictionaries as ordered association lists. A dictionary remembers the
 * order in which its keys were first inserted; assigning to a key that is
 * already present replaces its value and keeps the key where it was.
 */
module OrderedMaps {
  import opened Wrappers
  import opened Seqs

  type Assoc<K, V> = seq<(K, V)>

  function Keys<K, V>(m: Assoc<K, V>): (ks: seq<K>)
    ensures |ks| == |m|
    ensures forall i :: 0 <= i < |m| ==> ks[i] == m[i].0
  {
    if m == [] then [] else [m[0].0] + Keys(m[1..])
  }

  /** Entries whose keys differ pairwise make a dictionary with distinct keys. */
  lemma DistinctKeys<K, V>(m: Assoc<K, V>)
    requires forall i, j :: 0 <= i < j < |m| ==> m[i].0 != m[j].0
    ensures Distinct(Keys(m))
  {
    var ks := Keys(m);
    forall i, j | 0 <= i < j < |ks| ensures ks[i] != ks[j] {
      assert ks[i] == m[i].0 && ks[j] == m[j].0;
    }
  }

  function Values<K, V>(m: Assoc<K, V>): (vs: seq<V>)
    ensures |vs| == |m|
    ensures forall i :: 0 <= i < |m| ==> vs[i] == m[i].1
  {
    if m == [] then [] else [m[0].1] + Values(m[1..])
  }

  /** `d.get(k)`: the value of the first entry with key `k` (dictionaries have one). */
  function Get<K(==), V>(m: Assoc<K, V>, k: K): (r: Option<V>)
    ensures r.None? <==> k !in Keys(m)
    ensures r.Some? ==> exists i :: 0 <= i < |m| && m[i] == (k, r.value)
  {
    if m == [] then None
    else if m[0].0 == k then Some(m[0].1)
    else
      var r := Get(m[1..], k);
      assert Keys(m) == [m[0].0] + Keys(m[1..]);
      assert r.Some? ==> exists i :: 0 <= i < |m[1..]| && m[1..][i] == (k, r.value);
      r
  }

  /** `d[k] = v` */
  function Put<K(==), V>(m: Assoc<K, V>, k: K, v: V): (r: Assoc<K, V>)
  {
    if m == [] then [(k, v)]
    else if m[0].0 == k then [(k, v)] + m[1..]
    else [m[0]] + Put(m[1..], k, v)
  }

  /** Assigning to a present key keeps the key order; a new key goes last. */
  lemma {:induction false} PutKeys<K, V>(m: Assoc<K, V>, k: K, v: V)
    ensures Keys(Put(m, k, v)) == if k in Keys(m) then Keys(m) else Keys(m) + [k]
  {
    if m != [] {
      assert Keys(m) == [m[0].0] + Keys(m[1..]);
      if m[0].0 != k {
        PutKeys(m[1..], k, v);
        assert Keys(Put(m, k, v)) == [m[0].0] + Keys(Put(m[1..], k, v));
      } else {
        assert Keys(Put(m, k, v)) == [k] + Keys(m[1..]);
      }
    }
  }

  /** After `d[k] = v`, `d[k]` is `v` and every other key keeps its value. */
  lemma {:induction false} GetPut<K, V>(m: Assoc<K, V>, k: K, v: V, k': K)
    ensures Get(Put(m, k, v), k') == if k' == k then Some(v) else Get(m, k')
  {
    if m != [] && m[0].0 != k {
      GetPut(m[1..], k, v, k');
    }
  }

  /** Assignment never creates a second entry for a key. */
  lemma PutDistinct<K, V>(m: Assoc<K, V>, k: K, v: V)
    requires Distinct(Keys(m))
    ensures Distinct(Keys(Put(m, k, v)))
  {
    PutKeys(m, k, v);
    if k !in Keys(m) {
      DistinctSnoc(Keys(m), k);
    }
  }

  /** The entry of a present key is replaced in place: only its position changes value. */
  lemma {:induction false} PutAt<K, V>(m: Assoc<K, V>, k: K, v: V, i: nat)
    requires i < |m| && m[i].0 == k
    requires forall j :: 0 <= j < i ==> m[j].0 != k
    ensures Put(m, k, v) == m[i := (k, v)]
  {
    if i > 0 {
      PutAt(m[1..], k, v, i - 1);
      assert m[i := (k, v)] == [m[0]] + m[1..][i - 1 := (k, v)];
    }
  }

  /** A dictionary built from key/value pairs in order: later pairs win. */
  function ToMap<K(==,!new), V>(m: Assoc<K, V>): (d: map<K, V>)
    ensures forall k :: k in d <==> k in Keys(m)
  {
    if m == [] then map[]
    else
      var p := m[..|m| - 1];
      assert Keys(m) == Keys(p) + [m[|m| - 1].0];
      ToMap(p)[m[|m| - 1].0 := m[|m| - 1].1]
  }

  /** With distinct keys, the dictionary holds exactly the pairs. */
  lemma {:induction false} ToMapAt<K(!new), V>(m: Assoc<K, V>, i: nat)
    requires Distinct(Keys(m))
    requires i < |m|
    ensures m[i].0 in ToMap(m) && ToMap(m)[m[i].0] == m[i].1
  {
    var p := m[..|m| - 1];
    if i < |m| - 1 {
      assert Keys(p) == Keys(m)[..|m| - 1];
      ToMapAt(p, i);
      assert m[|m| - 1].0 != m[i].0 by { assert Keys(m)[i] != Keys(m)[|m| - 1]; }
    }
  }

  /** The value of the first entry with key `k` sits at that entry's position. */
  lemma {:induction false} GetAt<K, V>(m: Assoc<K, V>, i: nat)
    requires Distinct(Keys(m))
    requires i < |m|
    ensures Get(m, m[i].0) == Some(m[i].1)
  {
    if i > 0 {
      assert Keys(m)[0] != Keys(m)[i];
      assert Keys(m[1..]) == Keys(m)[1..];
      GetAt(m[1..], i - 1);
    }
  }

  /** Two dictionaries with the same keys in the same order and the same lookups are equal. */
  lemma Extensionality<K, V>(a: Assoc<K, V>, b: Assoc<K, V>)
    requires Distinct(Keys(a)) && Keys(a) == Keys(b)
    requires forall k :: Get(a, k) == Get(b, k)
    ensures a == b
  {
    assert |a| == |b|;
    forall i | 0 <= i < |a|
      ensures a[i] == b[i]
    {
      GetAt(a, i);
      GetAt(b, i);
      assert Get(a, a[i].0) == Get(b, b[i].0);
    }
  }

  /** `for k, v in pairs: d[k] = v`, starting from `m`. */
  function PutAll<K(==), V>(m: Assoc<K, V>, ps: seq<(K, V)>): Assoc<K, V> {
    if ps == [] then m else Put(PutAll(m, ps[..|ps| - 1]), ps[|ps| - 1].0, ps[|ps| - 1].1)
  }

  /** One more pair is one more assignment. */
  lemma PutAllSnoc<K, V>(m: Assoc<K, V>, ps: seq<(K, V)>, p: (K, V))
    ensures PutAll(m, ps + [p]) == Put(PutAll(m, ps), p.0, p.1)
  {
    assert (ps + [p])[..|ps|] == ps;
  }

  /** The value of the last pair with key `k`, if any. */
  function LastValue<K(==), V>(ps: seq<(K, V)>, k: K): (r: Option<V>)
    ensures r.None? <==> k !in Keys(ps)
  {
    if ps == [] then None
    else if ps[|ps| - 1].0 == k then Some(ps[|ps| - 1].1)
    else
      assert Keys(ps) == Keys(ps[..|ps| - 1]) + [ps[|ps| - 1].0];
      LastValue(ps[..|ps| - 1], k)
  }

  /** After assigning the pairs in order, each of their keys holds its last value; other keys are untouched. */
  lemma {:induction false} GetPutAll<K, V>(m: Assoc<K, V>, ps: seq<(K, V)>, k: K)
    ensures Get(PutAll(m, ps), k) == if k in Keys(ps) then LastValue(ps, k) else Get(m, k)
  {
    if ps != [] {
      var init := ps[..|ps| - 1];
      assert Keys(ps) == Keys(init) + [ps[|ps| - 1].0];
      GetPutAll(m, init, k);
      GetPut(PutAll(m, init), ps[|ps| - 1].0, ps[|ps| - 1].1, k);
    }
  }

  /** Assigning pairs whose keys are all present keeps the keys and their order. */
  lemma {:induction false} PutAllPresentKeys<K, V>(m: Assoc<K, V>, ps: seq<(K, V)>)
    requires forall i :: 0 <= i < |ps| ==> ps[i].0 in Keys(m)
    ensures Keys(PutAll(m, ps)) == Keys(m)
  {
    if ps != [] {
      PutAllPresentKeys(m, ps[..|ps| - 1]);
      PutKeys(PutAll(m, ps[..|ps| - 1]), ps[|ps| - 1].0, ps[|ps| - 1].1);
    }
  }

  /** Every assigned key ends up present. */
  lemma {:induction false} PutAllHasKeys<K, V>(m: Assoc<K, V>, ps: seq<(K, V)>)
    ensures forall i :: 0 <= i < |ps| ==> ps[i].0 in Keys(PutAll(m, ps))
    ensures forall k :: k in Keys(m) ==> k in Keys(PutAll(m, ps))
  {
    if ps != [] {
      var init := ps[..|ps| - 1];
      var last := ps[|ps| - 1];
      PutAllHasKeys(m, init);
      var prev := PutAll(m, init);
      PutKeys(prev, last.0, last.1);
      assert forall k :: k in Keys(prev) ==> k in Keys(Put(prev, last.0, last.1));
      forall i | 0 <= i < |ps| - 1
        ensures ps[i].0 in Keys(PutAll(m, ps))
      {
        assert ps[i] == init[i];
      }
    }
  }

  lemma {:induction false} PutAllDistinct<K, V>(m: Assoc<K, V>, ps: seq<(K, V)>)
    requires Distinct(Keys(m))
    ensures Distinct(Keys(PutAll(m, ps)))
  {
    if ps != [] {
      PutAllDistinct(m, ps[..|ps| - 1]);
      PutDistinct(PutAll(m, ps[..|ps| - 1]), ps[|ps| - 1].0, ps[|ps| - 1].1);
    }
  }

  /**
   * Assigning the same pairs a second time changes nothing: every key is
   * already present and already holds its last value.
   */
  lemma PutAllTwice<K, V>(m: Assoc<K, V>, ps: seq<(K, V)>)
    requires Distinct(Keys(m))
    ensures PutAll(PutAll(m, ps), ps) == PutAll(m, ps)
  {
    var once := PutAll(m, ps);
    PutAllHasKeys(m, ps);
    PutAllPresentKeys(once, ps);
    PutAllDistinct(m, ps);
    forall k
      ensures Get(PutAll(once, ps), k) == Get(once, k)
    {
      GetPutAll(once, ps, k);
      GetPutAll(m, ps, k);
    }
    Extensionality(PutAll(once, ps), once);
  }

  /** `{k: f(v) for k, v in d.items()}` */
  function MapValues<K, V, W>(m: Assoc<K, V>, f: V -> W): (r: Assoc<K, W>)
    ensures |r| == |m|
    ensures forall i :: 0 <= i < |m| ==> r[i] == (m[i].0, f(m[i].1))
  {
    if m == [] then [] else [(m[0].0, f(m[0].1))] + MapValues(m[1..], f)
  }

  /** Assigning two runs of pairs is assigning their concatenation. */
  lemma {:induction false} PutAllAppend<K, V>(m: Assoc<K, V>, a: seq<(K, V)>, b: seq<(K, V)>)
    ensures PutAll(PutAll(m, a), b) == PutAll(m, a + b)
  {
    if b == [] {
      assert a + b == a;
    } else {
      PutAllAppend(m, a, b[..|b| - 1]);
      assert (a + b)[..|a + b| - 1] == a + b[..|b| - 1];
    }
  }

  /** When every pair with key `k` carries `v`, the last one does too. */
  lemma {:induction false} LastValueOfAgreeing<K, V>(ps: seq<(K, V)>, k: K, v: V)
    requires k in Keys(ps)
    requires forall i :: 0 <= i < |ps| && ps[i].0 == k ==> ps[i].1 == v
    ensures LastValue(ps, k) == Some(v)
  {
    var init := ps[..|ps| - 1];
    if ps[|ps| - 1].0 != k {
      assert Keys(ps) == Keys(init) + [ps[|ps| - 1].0];
      LastValueOfAgreeing(init, k, v);
    }
  }

  /** Looking up in a dictionary with transformed values. */
  lemma {:induction false} GetMapValues<K, V, W>(m: Assoc<K, V>, f: V -> W, k: K)
    ensures Get(MapValues(m, f), k) == if Get(m, k).Some? then Some(f(Get(m, k).value)) else None
  {
    if m != [] {
      assert MapValues(m, f)[1..] == MapValues(m[1..], f);
      GetMapValues(m[1..], f, k);
    }
  }
}
