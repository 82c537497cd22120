/**
 * Ordering of decoder columns and of the values inside a column. Python's
 * `sorted` is a stable sort by a key; both keys used here are an integer
 * pair or "infinity", which compares above every pair.
 */
module Sorting {
  import opened Wrappers
  import opened Seqs
  import opened Text
  import opened Tables
  import opened ScriptParser

  /** A sort key: a pair of integers compared lexicographically, or the sentinel that sorts last. */
  datatype Key = Finite(major: int, minor: int) | Last

  predicate KeyLe(x: Key, y: Key) {
    match (x, y)
    case (_, Last) => true
    case (Last, Finite(_, _)) => false
    case (Finite(a, b), Finite(c, d)) => a < c || (a == c && b <= d)
  }

  lemma KeyLeTotal(x: Key, y: Key)
    ensures KeyLe(x, y) || KeyLe(y, x)
    ensures KeyLe(x, y) && KeyLe(y, x) ==> x == y
  {
  }

  lemma KeyLeTransitive(x: Key, y: Key, z: Key)
    requires KeyLe(x, y) && KeyLe(y, z)
    ensures KeyLe(x, z)
  {
  }

  // ---------------------------------------------------------------------------
  // A stable sort by key

  predicate SortedBy<T>(s: seq<T>, key: T -> Key) {
    forall i, j :: 0 <= i < j < |s| ==> KeyLe(key(s[i]), key(s[j]))
  }

  /** Places `x` after every element whose key is not above its own. */
  function Insert<T>(t: seq<T>, x: T, key: T -> Key): (r: seq<T>)
    ensures multiset(r) == multiset(t) + multiset{x}
  {
    if t == [] then [x]
    else if KeyLe(key(t[|t| - 1]), key(x)) then t + [x]
    else
      var init := t[..|t| - 1];
      assert t == init + [t[|t| - 1]];
      Insert(init, x, key) + [t[|t| - 1]]
  }

  /** `sorted(s, key=key)`: insertion sort, which keeps equal keys in their input order. */
  function SortBy<T>(s: seq<T>, key: T -> Key): (r: seq<T>)
    ensures multiset(r) == multiset(s)
  {
    if s == [] then []
    else
      assert s == s[..|s| - 1] + [s[|s| - 1]];
      Insert(SortBy(s[..|s| - 1], key), s[|s| - 1], key)
  }

  lemma {:induction false} InsertSorted<T>(t: seq<T>, x: T, key: T -> Key)
    requires SortedBy(t, key)
    ensures SortedBy(Insert(t, x, key), key)
  {
    if t != [] {
      var last := t[|t| - 1];
      if KeyLe(key(last), key(x)) {
        forall i | 0 <= i < |t| ensures KeyLe(key(t[i]), key(x)) {
          if i < |t| - 1 { KeyLeTransitive(key(t[i]), key(last), key(x)); }
        }
      } else {
        var init := t[..|t| - 1];
        InsertSorted(init, x, key);
        var r := Insert(init, x, key);
        KeyLeTotal(key(last), key(x));
        forall i | 0 <= i < |r| ensures KeyLe(key(r[i]), key(last)) {
          assert r[i] in multiset(r);
          if r[i] != x {
            assert r[i] in multiset(init);
            var m :| 0 <= m < |init| && init[m] == r[i];
            assert t[m] == r[i];
          }
        }
      }
    }
  }

  /** The result is in key order. */
  lemma {:induction false} SortBySorted<T>(s: seq<T>, key: T -> Key)
    ensures SortedBy(SortBy(s, key), key)
  {
    if s != [] {
      SortBySorted(s[..|s| - 1], key);
      InsertSorted(SortBy(s[..|s| - 1], key), s[|s| - 1], key);
    }
  }

  /** A sequence already in key order is left as it is. */
  lemma {:induction false} SortBySortedInput<T>(s: seq<T>, key: T -> Key)
    requires SortedBy(s, key)
    ensures SortBy(s, key) == s
  {
    if s != [] {
      var init := s[..|s| - 1];
      var x := s[|s| - 1];
      assert SortedBy(init, key) by {
        forall i, j | 0 <= i < j < |init| ensures KeyLe(key(init[i]), key(init[j])) {
          assert init[i] == s[i] && init[j] == s[j];
        }
      }
      SortBySortedInput(init, key);
      assert SortBy(s, key) == Insert(init, x, key);
      InsertAtEnd(s, key);
    }
  }

  /** An element whose key is not below the one before it goes at the end. */
  lemma InsertAtEnd<T>(s: seq<T>, key: T -> Key)
    requires s != [] && (|s| == 1 || KeyLe(key(s[|s| - 2]), key(s[|s| - 1])))
    ensures Insert(s[..|s| - 1], s[|s| - 1], key) == s
  {
    var init := s[..|s| - 1];
    if init != [] {
      assert init[|init| - 1] == s[|s| - 2];
    }
    assert init + [s[|s| - 1]] == s;
  }

  /** The elements whose key is `k`. */
  function HasKey<T>(key: T -> Key, k: Key): T -> bool {
    (x: T) => key(x) == k
  }

  lemma {:induction false} InsertStable<T>(t: seq<T>, x: T, key: T -> Key, k: Key)
    ensures Filter(Insert(t, x, key), HasKey(key, k))
         == Filter(t, HasKey(key, k)) + Filter([x], HasKey(key, k))
  {
    var p := HasKey(key, k);
    if t == [] {
      assert Insert(t, x, key) == [] + [x];
    } else if KeyLe(key(t[|t| - 1]), key(x)) {
      FilterAppend(t, [x], p);
    } else {
      var init := t[..|t| - 1];
      var last := t[|t| - 1];
      var r0 := Insert(init, x, key);
      assert Insert(t, x, key) == r0 + [last];
      InsertStable(init, x, key, k);
      FilterAppend(r0, [last], p);
      SplitLast(t);
      FilterAppend(init, [last], p);
      FilterSwap(x, last, key, k);
      calc {
        Filter(r0 + [last], p);
        Filter(r0, p) + Filter([last], p);
        (Filter(init, p) + Filter([x], p)) + Filter([last], p);
        Filter(init, p) + (Filter([x], p) + Filter([last], p));
        Filter(init, p) + (Filter([last], p) + Filter([x], p));
        (Filter(init, p) + Filter([last], p)) + Filter([x], p);
        Filter(t, p) + Filter([x], p);
      }
    }
  }

  /** Two elements with different keys cannot both have key `k`. */
  lemma FilterSwap<T>(x: T, y: T, key: T -> Key, k: Key)
    requires !KeyLe(key(y), key(x))
    ensures Filter([x], HasKey(key, k)) + Filter([y], HasKey(key, k))
         == Filter([y], HasKey(key, k)) + Filter([x], HasKey(key, k))
  {
    KeyLeTotal(key(x), key(y));
    if key(x) == k {
      assert Filter([y], HasKey(key, k)) == [];
    } else {
      assert Filter([x], HasKey(key, k)) == [];
    }
  }

  /** Stability: the elements with any one key keep their relative order. */
  lemma {:induction false} SortByStable<T>(s: seq<T>, key: T -> Key, k: Key)
    ensures Filter(SortBy(s, key), HasKey(key, k)) == Filter(s, HasKey(key, k))
  {
    if s != [] {
      var init := s[..|s| - 1];
      SortByStable(init, key, k);
      InsertStable(SortBy(init, key), s[|s| - 1], key, k);
      SplitLast(s);
      FilterAppend(init, [s[|s| - 1]], HasKey(key, k));
    }
  }

  /** The first element whose key cannot be computed: Python's `sorted` computes every key before comparing. */
  function FirstFailure<T>(s: seq<T>, f: T -> Result<Key>): (e: Option<Failure>)
    ensures e.None? <==> forall i :: 0 <= i < |s| ==> f(s[i]).Ok?
    ensures e.Some? ==> exists i :: 0 <= i < |s| && f(s[i]) == Err(e.value)
                          && forall m :: 0 <= m < i ==> f(s[m]).Ok?
  {
    if s == [] then None
    else if f(s[0]).Err? then Some(f(s[0]).failure)
    else
      var e := FirstFailure(s[1..], f);
      if e.Some? then
        var i :| 0 <= i < |s[1..]| && f(s[1..][i]) == Err(e.value) && forall m :: 0 <= m < i ==> f(s[1..][m]).Ok?;
        assert f(s[i + 1]) == Err(e.value);
        e
      else e
  }

  function OrLast(f: Result<Key>): Key {
    if f.Ok? then f.value else Last
  }

  /** The key of an element whose key computation succeeded. */
  function OrLastOf<T>(f: T -> Result<Key>): T -> Key {
    (x: T) => OrLast(f(x))
  }

  /** `sorted(s, key=f)` where computing a key may raise. */
  function SortWith<T>(s: seq<T>, f: T -> Result<Key>): (r: Result<seq<T>>)
    ensures r.Err? <==> exists i :: 0 <= i < |s| && f(s[i]).Err?
  {
    match FirstFailure(s, f)
    case Some(e) => Err(e)
    case None => Ok(SortBy(s, OrLastOf(f)))
  }

  // ---------------------------------------------------------------------------
  // custom_sort

  /** Length of the run of `c` at the start of `s`. */
  function LeadingRun(s: string, c: char): (n: nat)
    ensures n <= |s|
    ensures forall i :: 0 <= i < n ==> s[i] == c
    ensures n < |s| ==> s[n] != c
  {
    if |s| > 0 && s[0] == c then 1 + LeadingRun(s[1..], c) else 0
  }

  const FlowPrefix: string := "FlowNo_"

  /**
   * `custom_sort`: a label starting with `FlowNo_`, digits, any run of `=`
   * and optional digits sorts as (first number, second number or 0); any
   * other string sorts last. The regular expression is only applied to
   * strings: any other label raises TypeError.
   */
  function ColumnKey(l: Label): (r: Result<Key>)
    ensures !l.Name? ==> r == Err(TypeError)
  {
    match l
    case Name(s) => Ok(if StartsWith(s, FlowPrefix) then FlowNumbers(s[|FlowPrefix|..]) else Last)
    case _ => Err(TypeError)
  }

  /** What follows `FlowNo_`: the first number, then the second one after the run of `=`. */
  function FlowNumbers(rest: string): Key {
    var n := LeadingDigits(rest);
    if n == 0 then Last else Finite(DigitsValue(rest[..n]), SecondNumber(rest[n..]))
  }

  /** `int(group(2)) if group(2) else 0`: the digits after the run of `=`, 0 when there are none. */
  function SecondNumber(tail: string): nat {
    var digits := tail[LeadingRun(tail, '=')..];
    DigitsValue(digits[..LeadingDigits(digits)])
  }

  /** A label that does not start with `FlowNo_` and a digit sorts last, after every flow key. */
  lemma ColumnKeyNoMatch(s: string)
    requires !StartsWith(s, FlowPrefix) || |s| == |FlowPrefix| || !IsDigit(s[|FlowPrefix|])
    ensures ColumnKey(Name(s)) == Ok(Last)
    ensures forall a, b :: KeyLe(Finite(a, b), Last) && !KeyLe(Last, Finite(a, b))
  {
  }

  /**
   * Only the start of the label matters: `FlowNo_<n>=<k>` followed by anything
   * that does not continue the number sorts as (n, k).
   */
  lemma ColumnKeyOfFlowKey(n: nat, k: nat, suffix: string)
    requires suffix == [] || !IsDigit(suffix[0])
    ensures ColumnKey(Name(FlowKey(n, k) + suffix)) == Ok(Finite(n, k))
  {
    var dn := NatToString(n);
    var tail := "=" + (NatToString(k) + suffix);
    var s := FlowKey(n, k) + suffix;
    assert s == FlowPrefix + (dn + tail);
    assert StartsWith(s, FlowPrefix);
    assert s[|FlowPrefix|..] == dn + tail;
    FlowNumbersOf(dn, tail);
    SecondNumberOf(k, suffix);
  }

  lemma FlowNumbersOf(dn: string, tail: string)
    requires IsNumeral(dn)
    requires tail == [] || !IsDigit(tail[0])
    ensures FlowNumbers(dn + tail) == Finite(DigitsValue(dn), SecondNumber(tail))
  {
    LeadingDigitsOf(dn, tail);
    assert (dn + tail)[..|dn|] == dn;
    assert (dn + tail)[|dn|..] == tail;
  }

  lemma SecondNumberOf(k: nat, suffix: string)
    requires suffix == [] || !IsDigit(suffix[0])
    ensures SecondNumber("=" + (NatToString(k) + suffix)) == k
  {
    var dk := NatToString(k);
    var tail := "=" + (dk + suffix);
    assert tail[1..] == dk + suffix;
    assert LeadingRun(tail, '=') == 1;
    LeadingDigitsOf(dk, suffix);
    assert (dk + suffix)[..|dk|] == dk;
  }

  /** `c` repeated `m` times. */
  function Repeat(c: char, m: nat): (s: string)
    ensures |s| == m
    ensures forall i :: 0 <= i < m ==> s[i] == c
  {
    if m == 0 then [] else [c] + Repeat(c, m - 1)
  }

  lemma {:induction false} LeadingRunOf(c: char, m: nat, rest: string)
    requires rest == [] || rest[0] != c
    ensures LeadingRun(Repeat(c, m) + rest, c) == m
  {
    if m > 0 {
      assert (Repeat(c, m) + rest)[1..] == Repeat(c, m - 1) + rest;
      LeadingRunOf(c, m - 1, rest);
    }
  }

  /**
   * Every label the regular expression matches: `FlowNo_`, a run of digits
   * (leading zeros allowed), a run of `=` of any length, an optional run of
   * digits, then anything that does not continue the match, sorts as
   * (first number, second number or 0). Without any `=` the second run of
   * digits is part of the first one, hence `m == 0 ==> dk == []`.
   */
  lemma ColumnKeyOfMatch(dn: string, m: nat, dk: string, suffix: string)
    requires IsNumeral(dn) && AllDigits(dk)
    requires m == 0 ==> dk == []
    requires suffix == [] || !IsDigit(suffix[0])
    requires dk == [] ==> suffix == [] || suffix[0] != '='
    ensures ColumnKey(Name(FlowPrefix + (dn + (Repeat('=', m) + (dk + suffix)))))
            == Ok(Finite(DigitsValue(dn), DigitsValue(dk)))
  {
    var tail := Repeat('=', m) + (dk + suffix);
    var s := FlowPrefix + (dn + tail);
    assert s[|FlowPrefix|..] == dn + tail;
    assert tail == [] || !IsDigit(tail[0]);
    FlowNumbersOf(dn, tail);
    SecondNumberOfMatch(m, dk, suffix);
  }

  lemma SecondNumberOfMatch(m: nat, dk: string, suffix: string)
    requires AllDigits(dk)
    requires suffix == [] || !IsDigit(suffix[0])
    requires dk == [] ==> suffix == [] || suffix[0] != '='
    ensures SecondNumber(Repeat('=', m) + (dk + suffix)) == DigitsValue(dk)
  {
    var rest := dk + suffix;
    assert rest == [] || rest[0] != '=';
    LeadingRunOf('=', m, rest);
    assert (Repeat('=', m) + rest)[m..] == rest;
    LeadingDigitsOf(dk, suffix);
    assert rest[..|dk|] == dk;
  }

  /** Answer columns of the text format sort by question number, then by answer rank. */
  lemma FlowKeysInOrder(n1: nat, k1: nat, n2: nat, k2: nat)
    ensures KeyLe(ColumnKey(Name(FlowKey(n1, k1))).value, ColumnKey(Name(FlowKey(n2, k2))).value)
        <==> n1 < n2 || (n1 == n2 && k1 <= k2)
  {
    ColumnKeyOfFlowKey(n1, k1, []);
    ColumnKeyOfFlowKey(n2, k2, []);
    assert FlowKey(n1, k1) + [] == FlowKey(n1, k1);
    assert FlowKey(n2, k2) + [] == FlowKey(n2, k2);
  }

  // ---------------------------------------------------------------------------
  // The key of a keypress value

  /**
   * The decoder's value key: the integer between the first and the second `=`
   * when there is a non-empty one (ValueError when it is not an integer),
   * otherwise last.
   */
  function ValueKey(x: string): (r: Result<Key>)
    ensures '=' !in x ==> r == Ok(Last)
    ensures '=' in x && SecondField(x) == [] ==> r == Ok(Last)
    ensures '=' in x && SecondField(x) != [] ==>
              (r.Ok? <==> ParseInt(SecondField(x)).Some?)
              && (r.Ok? ==> r.value == Finite(ParseInt(SecondField(x)).value, 0))
  {
    if '=' in x && SecondField(x) != [] then
      match ParseInt(SecondField(x))
      case None => Err(ValueError)
      case Some(v) => Ok(Finite(v, 0))
    else Ok(Last)
  }

  /** A keypress value recorded as a flow key sorts by its answer rank. */
  lemma ValueKeyOfFlowKey(n: nat, k: nat)
    ensures ValueKey(FlowKey(n, k)) == Ok(Finite(k, 0))
  {
    var dn := NatToString(n);
    var dk := NatToString(k);
    var s := FlowKey(n, k);
    assert s == (FlowPrefix + dn) + "=" + dk;
    var i := |FlowPrefix + dn|;
    assert '=' !in FlowPrefix;
    assert forall m :: 0 <= m < |dn| ==> dn[m] != '=';
    assert s[..i] == FlowPrefix + dn;
    assert '=' !in s[..i];
    assert s[i] == '=';
    assert FindOrEnd(s, '=') == i;
    assert s[i + 1..] == dk;
    assert '=' !in dk;
    assert FindOrEnd(dk, '=') == |dk|;
    assert SecondField(s) == dk;
    ParseIntNatToString(k);
  }

  /** A value whose second field is not an integer raises ValueError, before any sorting. */
  lemma ValueKeyNotInteger(x: string)
    requires '=' in x && SecondField(x) != [] && ParseInt(SecondField(x)).None?
    ensures ValueKey(x) == Err(ValueError)
  {
  }
}
