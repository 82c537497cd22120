/**
 * Sequence operations the pipeline builds on: filtering, and keeping the
 * first occurrence of each element (or of each key), which is what Python's
 * dictionary insertion order and pandas' drop_duplicates(keep='first') do.
 */
module Seqs {

  predicate Distinct<T(==)>(s: seq<T>) {
    forall i, j :: 0 <= i < j < |s| ==> s[i] != s[j]
  }

  /** A new element at the end keeps the elements distinct. */
  lemma DistinctSnoc<T>(s: seq<T>, x: T)
    requires Distinct(s) && x !in s
    ensures Distinct(s + [x])
  {
    var c := s + [x];
    forall i, j | 0 <= i < j < |c| ensures c[i] != c[j] {
      assert c[i] == s[i];
    }
  }

  /** A non-empty sequence is its prefix followed by its last element. */
  lemma SplitLast<T>(s: seq<T>)
    requires s != []
    ensures s[..|s| - 1] + [s[|s| - 1]] == s
  {
  }

  /** Strictly increasing positions. */
  predicate Increasing(ps: seq<nat>) {
    forall i, j :: 0 <= i < j < |ps| ==> ps[i] < ps[j]
  }

  /** `r` is `s` read at the increasing positions `ps`: a subsequence of `s`, in order. */
  predicate ReadAt<T(==)>(r: seq<T>, s: seq<T>, ps: seq<nat>) {
    && |r| == |ps|
    && Increasing(ps)
    && forall m :: 0 <= m < |ps| ==> ps[m] < |s| && r[m] == s[ps[m]]
  }

  /** The positions of the elements of `s` that satisfy `p`, in increasing order. */
  function Where<T>(s: seq<T>, p: T -> bool): (ps: seq<nat>)
    ensures Increasing(ps)
    ensures forall m :: 0 <= m < |ps| ==> ps[m] < |s|
    ensures forall i :: 0 <= i < |s| ==> (i in ps <==> p(s[i]))
  {
    if s == [] then []
    else
      var init := s[..|s| - 1];
      var w := Where(init, p);
      assert forall i :: 0 <= i < |init| ==> s[i] == init[i];
      if p(s[|s| - 1]) then w + [|s| - 1] else w
  }

  /** The elements of `s` that satisfy `p`, in order. */
  function Filter<T>(s: seq<T>, p: T -> bool): (r: seq<T>)
    ensures |r| <= |s|
    ensures forall i :: 0 <= i < |r| ==> r[i] in s && p(r[i])
    ensures forall i :: 0 <= i < |s| && p(s[i]) ==> s[i] in r
  {
    if s == [] then []
    else
      var rest := Filter(s[1..], p);
      assert forall i :: 1 <= i < |s| ==> s[i] == s[1..][i - 1];
      if p(s[0]) then [s[0]] + rest else rest
  }

  lemma {:induction false} FilterAppend<T>(a: seq<T>, b: seq<T>, p: T -> bool)
    ensures Filter(a + b, p) == Filter(a, p) + Filter(b, p)
  {
    if a != [] {
      var ab := a + b;
      assert ab[0] == a[0] && ab[1..] == a[1..] + b;
      FilterAppend(a[1..], b, p);
    } else {
      assert a + b == b;
    }
  }

  /** `Filter` keeps exactly the elements at the positions `Where` finds, in their order. */
  lemma {:induction false} FilterAt<T>(s: seq<T>, p: T -> bool)
    ensures ReadAt(Filter(s, p), s, Where(s, p))
  {
    if s != [] {
      var init := s[..|s| - 1];
      var last := s[|s| - 1];
      FilterAt(init, p);
      SplitLast(s);
      FilterAppend(init, [last], p);
      assert Filter([last], p) == if p(last) then [last] else [] by {
        assert [last][1..] == [];
      }
    }
  }

  /** Filtering by `p`, then by `q`, is filtering once by a predicate meaning "both". */
  lemma {:induction false} FilterFilter<T>(s: seq<T>, p: T -> bool, q: T -> bool, both: T -> bool)
    requires forall x :: x in s ==> both(x) == (p(x) && q(x))
    ensures Filter(Filter(s, p), q) == Filter(s, both)
  {
    if s != [] {
      FilterFilter(s[1..], p, q, both);
    }
  }

  /** A filter that keeps everything changes nothing. */
  lemma {:induction false} FilterAll<T>(s: seq<T>, p: T -> bool)
    requires forall x :: x in s ==> p(x)
    ensures Filter(s, p) == s
  {
    if s != [] {
      FilterAll(s[1..], p);
    }
  }

  /** The first occurrence of each element, in order of first appearance. */
  function FirstOccurrences<T(==)>(s: seq<T>): (r: seq<T>)
    ensures |r| <= |s|
  {
    if s == [] then []
    else
      var p := FirstOccurrences(s[..|s| - 1]);
      if s[|s| - 1] in p then p else p + [s[|s| - 1]]
  }

  /** The positions where an element appears for the first time, in increasing order. */
  function FirstPositions<T(==)>(s: seq<T>): (ps: seq<nat>)
    ensures Increasing(ps)
    ensures forall m :: 0 <= m < |ps| ==> ps[m] < |s|
    ensures forall i :: 0 <= i < |s| ==> (i in ps <==> s[i] !in s[..i])
  {
    if s == [] then []
    else
      var init := s[..|s| - 1];
      var w := FirstPositions(init);
      var ps := if s[|s| - 1] in init then w else w + [|s| - 1];
      FirstPositionsStep(s, w, ps);
      ps
  }

  lemma FirstPositionsSnoc<T>(s: seq<T>)
    requires s != []
    ensures FirstPositions(s) == if s[|s| - 1] in s[..|s| - 1] then FirstPositions(s[..|s| - 1])
                                 else FirstPositions(s[..|s| - 1]) + [|s| - 1]
  {
  }

  lemma FirstPositionsStep<T>(s: seq<T>, w: seq<nat>, ps: seq<nat>)
    requires s != []
    requires forall i :: 0 <= i < |s| - 1 ==> (i in w <==> s[..|s| - 1][i] !in s[..|s| - 1][..i])
    requires forall m :: 0 <= m < |w| ==> w[m] < |s| - 1
    requires ps == if s[|s| - 1] in s[..|s| - 1] then w else w + [|s| - 1]
    ensures forall i :: 0 <= i < |s| ==> (i in ps <==> s[i] !in s[..i])
  {
    var init := s[..|s| - 1];
    forall i | 0 <= i < |s| ensures i in ps <==> s[i] !in s[..i] {
      if i < |init| {
        assert init[..i] == s[..i];
        assert (i in ps <==> i in w);
      }
    }
  }

  /**
   * No element twice, none lost, none invented, and the kept elements are
   * those at the first-occurrence positions, in their order in `s`.
   */
  lemma {:induction false} FirstOccurrencesSpec<T>(s: seq<T>)
    ensures Distinct(FirstOccurrences(s))
    ensures forall x :: x in FirstOccurrences(s) <==> x in s
    ensures ReadAt(FirstOccurrences(s), s, FirstPositions(s))
  {
    FirstOccurrencesMembers(s);
    FirstOccurrencesOrder(s);
  }

  lemma {:induction false} FirstOccurrencesMembers<T>(s: seq<T>)
    ensures Distinct(FirstOccurrences(s))
    ensures forall x :: x in FirstOccurrences(s) <==> x in s
  {
    if s != [] {
      var init := s[..|s| - 1];
      FirstOccurrencesMembers(init);
      SplitLast(s);
      if s[|s| - 1] !in init {
        DistinctSnoc(FirstOccurrences(init), s[|s| - 1]);
      }
    }
  }

  lemma {:induction false} FirstOccurrencesOrder<T>(s: seq<T>)
    ensures ReadAt(FirstOccurrences(s), s, FirstPositions(s))
  {
    if s != [] {
      var init := s[..|s| - 1];
      FirstOccurrencesOrder(init);
      FirstOccurrencesMembers(init);
      FirstPositionsSnoc(s);
      ReadAtSnoc(FirstOccurrences(init), s, FirstPositions(init), !(s[|s| - 1] in init));
    }
  }

  /**
   * A reading of the prefix of `s` is a reading of `s`, and stays one when
   * the last element is read too.
   */
  lemma ReadAtSnoc<T>(r: seq<T>, s: seq<T>, ps: seq<nat>, more: bool)
    requires s != [] && ReadAt(r, s[..|s| - 1], ps)
    ensures ReadAt(if more then r + [s[|s| - 1]] else r, s, if more then ps + [|s| - 1] else ps)
  {
  }

  /** A sequence without repeats is its own first occurrences. */
  lemma {:induction false} FirstOccurrencesDistinct<T>(s: seq<T>)
    requires Distinct(s)
    ensures FirstOccurrences(s) == s
  {
    if s != [] {
      var init := s[..|s| - 1];
      FirstOccurrencesDistinct(init);
      assert s[|s| - 1] !in init by {
        forall i | 0 <= i < |init| ensures init[i] != s[|s| - 1] {
          assert s[i] != s[|s| - 1];
        }
      }
      assert init + [s[|s| - 1]] == s;
    }
  }

  /** Removing duplicates twice is removing them once. */
  lemma FirstOccurrencesIdempotent<T>(s: seq<T>)
    ensures FirstOccurrences(FirstOccurrences(s)) == FirstOccurrences(s)
  {
    FirstOccurrencesSpec(s);
    FirstOccurrencesDistinct(FirstOccurrences(s));
  }

  /** The keys of the elements, in order. */
  function MapSeq<T, K>(s: seq<T>, key: T -> K): (r: seq<K>)
    ensures |r| == |s|
    ensures forall i :: 0 <= i < |s| ==> r[i] == key(s[i])
  {
    if s == [] then [] else MapSeq(s[..|s| - 1], key) + [key(s[|s| - 1])]
  }

  /** Filtering the images is mapping the elements whose image passes. */
  lemma {:induction false} FilterMap<T, U>(s: seq<T>, f: T -> U, p: U -> bool, pf: T -> bool)
    requires forall x :: x in s ==> pf(x) == p(f(x))
    ensures Filter(MapSeq(s, f), p) == MapSeq(Filter(s, pf), f)
  {
    if s != [] {
      FilterMap(s[1..], f, p, pf);
      MapSeqTail(s, f);
      if pf(s[0]) {
        MapSeqCons(s[0], Filter(s[1..], pf), f);
      }
    }
  }

  lemma MapSeqTail<T, U>(s: seq<T>, f: T -> U)
    requires s != []
    ensures MapSeq(s, f)[1..] == MapSeq(s[1..], f)
  {
  }

  lemma MapSeqCons<T, U>(x: T, s: seq<T>, f: T -> U)
    ensures MapSeq([x] + s, f) == [f(x)] + MapSeq(s, f)
  {
  }

  /**
   * Keeps an element only when no element kept before it has the same key:
   * drop_duplicates(subset=...) with keep='first'.
   */
  function DedupBy<T, K(==)>(s: seq<T>, key: T -> K): (r: seq<T>)
    ensures |r| <= |s|
  {
    if s == [] then []
    else
      var p := DedupBy(s[..|s| - 1], key);
      if key(s[|s| - 1]) in MapSeq(p, key) then p else p + [s[|s| - 1]]
  }

  /**
   * The kept elements have pairwise different keys, every key of the input
   * is kept, and the kept elements are the elements whose key appears for
   * the first time (the positions `FirstPositions` finds in the keys), in
   * their order in `s`.
   */
  lemma DedupBySpec<T, K>(s: seq<T>, key: T -> K)
    ensures Distinct(MapSeq(DedupBy(s, key), key))
    ensures forall k :: k in MapSeq(DedupBy(s, key), key) <==> k in MapSeq(s, key)
    ensures forall x :: x in DedupBy(s, key) ==> x in s
    ensures MapSeq(DedupBy(s, key), key) == FirstOccurrences(MapSeq(s, key))
    ensures ReadAt(DedupBy(s, key), s, FirstPositions(MapSeq(s, key)))
  {
    DedupByMembers(s, key);
    DedupByKeys(s, key);
    DedupByOrder(s, key);
  }

  lemma {:induction false} DedupByMembers<T, K>(s: seq<T>, key: T -> K)
    ensures forall x :: x in DedupBy(s, key) ==> x in s
    ensures forall k :: k in MapSeq(DedupBy(s, key), key) <==> k in MapSeq(s, key)
  {
    if s != [] {
      var init := s[..|s| - 1];
      var last := s[|s| - 1];
      DedupByMembers(init, key);
      var p := DedupBy(init, key);
      assert MapSeq(s, key) == MapSeq(init, key) + [key(last)];
      if key(last) !in MapSeq(p, key) {
        assert MapSeq(p + [last], key) == MapSeq(p, key) + [key(last)];
      }
    }
  }

  lemma {:induction false} DedupByKeys<T, K>(s: seq<T>, key: T -> K)
    ensures MapSeq(DedupBy(s, key), key) == FirstOccurrences(MapSeq(s, key))
    ensures Distinct(MapSeq(DedupBy(s, key), key))
  {
    if s != [] {
      var init := s[..|s| - 1];
      var last := s[|s| - 1];
      DedupByKeys(init, key);
      DedupByMembers(init, key);
      var p := DedupBy(init, key);
      assert MapSeq(s, key)[..|s| - 1] == MapSeq(init, key);
      if key(last) !in MapSeq(p, key) {
        assert MapSeq(p + [last], key) == MapSeq(p, key) + [key(last)];
        DistinctSnoc(MapSeq(p, key), key(last));
      }
    }
  }

  lemma {:induction false} DedupByOrder<T, K>(s: seq<T>, key: T -> K)
    ensures ReadAt(DedupBy(s, key), s, FirstPositions(MapSeq(s, key)))
  {
    if s != [] {
      var init := s[..|s| - 1];
      DedupByOrder(init, key);
      DedupByOrderStep(s, key, DedupBy(init, key), FirstPositions(MapSeq(init, key)));
    }
  }

  lemma DedupByOrderStep<T, K>(s: seq<T>, key: T -> K, p: seq<T>, before: seq<nat>)
    requires s != []
    requires p == DedupBy(s[..|s| - 1], key) && before == FirstPositions(MapSeq(s[..|s| - 1], key))
    requires ReadAt(p, s[..|s| - 1], before)
    ensures ReadAt(DedupBy(s, key), s, FirstPositions(MapSeq(s, key)))
  {
    var novel := key(s[|s| - 1]) !in MapSeq(s[..|s| - 1], key);
    DedupBySnoc(s, key);
    var keys := MapSeq(s, key);
    assert keys[..|s| - 1] == MapSeq(s[..|s| - 1], key);
    FirstPositionsSnoc(keys);
    ReadAtSnoc(p, s, before, novel);
  }

  /** The last element is kept exactly when its key is new. */
  lemma DedupBySnoc<T, K>(s: seq<T>, key: T -> K)
    requires s != []
    ensures DedupBy(s, key) == if key(s[|s| - 1]) in MapSeq(s[..|s| - 1], key) then DedupBy(s[..|s| - 1], key)
                               else DedupBy(s[..|s| - 1], key) + [s[|s| - 1]]
  {
    DedupByKeeps(s[..|s| - 1], key, s[|s| - 1]);
  }

  lemma DedupByKeeps<T, K>(s: seq<T>, key: T -> K, x: T)
    ensures key(x) in MapSeq(DedupBy(s, key), key) <==> key(x) in MapSeq(s, key)
  {
    DedupByMembers(s, key);
  }

  /** Appending elements already seen adds no first occurrence. */
  lemma {:induction false} FirstOccurrencesAppendSeen<T>(a: seq<T>, b: seq<T>)
    requires forall x :: x in b ==> x in a
    ensures FirstOccurrences(a + b) == FirstOccurrences(a)
  {
    if b == [] {
      assert a + b == a;
    } else {
      var init := b[..|b| - 1];
      FirstOccurrencesAppendSeen(a, init);
      assert (a + b)[..|a + b| - 1] == a + init;
      FirstOccurrencesSpec(a + init);
      assert b[|b| - 1] in a + init;
    }
  }

  /** No two elements share a key. */
  predicate DistinctBy<T, K(==)>(s: seq<T>, key: T -> K) {
    forall i, j :: 0 <= i < j < |s| ==> key(s[i]) != key(s[j])
  }

  /** Filtering keeps keys apart. */
  lemma {:induction false} FilterDistinctBy<T, K>(s: seq<T>, p: T -> bool, key: T -> K)
    requires DistinctBy(s, key)
    ensures DistinctBy(Filter(s, p), key)
  {
    if s != [] {
      var rest := Filter(s[1..], p);
      FilterDistinctBy(s[1..], p, key);
      if p(s[0]) {
        forall j | 0 <= j < |rest| ensures key(s[0]) != key(rest[j]) {
          var m :| 0 <= m < |s[1..]| && s[1..][m] == rest[j];
          assert s[m + 1] == rest[j];
        }
        var r := [s[0]] + rest;
        forall i, j | 0 <= i < j < |r| ensures key(r[i]) != key(r[j]) {
          if i > 0 { assert r[i] == rest[i - 1] && r[j] == rest[j - 1]; }
        }
      }
    }
  }

  /** The first element is always kept. */
  lemma {:induction false} DedupByFirst<T, K>(s: seq<T>, key: T -> K)
    requires s != []
    ensures DedupBy(s, key) != [] && DedupBy(s, key)[0] == s[0]
  {
    if |s| > 1 {
      DedupByFirst(s[..|s| - 1], key);
    }
  }

  /** `zip(a, b)`: pairs up to the shorter length. */
  function Zip<A, B>(a: seq<A>, b: seq<B>): (r: seq<(A, B)>)
    ensures |r| == if |a| <= |b| then |a| else |b|
    ensures forall i :: 0 <= i < |r| ==> r[i] == (a[i], b[i])
  {
    if a == [] || b == [] then [] else [(a[0], b[0])] + Zip(a[1..], b[1..])
  }
}
