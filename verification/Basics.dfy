/** Small shared vocabulary: optional values, outcomes that may be a thrown error, and sums over
    sequences and maps. */
module Basics {

  datatype Option<+T> = None | Some(value: T)

  /** `Fault` stands for the exception the runtime solvency check throws. */
  datatype Outcome<+T> = Done(value: T) | Fault

  /** The sum of `f` over a sequence, last element outermost so that appending is one unfolding. */
  ghost function SumSeq<T>(s: seq<T>, f: T -> int): int {
    if s == [] then 0 else SumSeq(s[..|s| - 1], f) + f(s[|s| - 1])
  }

  lemma SumSeqAppend<T>(s: seq<T>, x: T, f: T -> int)
    ensures SumSeq(s + [x], f) == SumSeq(s, f) + f(x)
  {
    assert (s + [x])[..|s|] == s;
  }

  lemma {:induction false} SumSeqUpdate<T>(s: seq<T>, i: nat, x: T, f: T -> int)
    requires i < |s|
    ensures SumSeq(s[i := x], f) == SumSeq(s, f) - f(s[i]) + f(x)
  {
    var n := |s| - 1;
    if i == n {
      assert s[i := x][..n] == s[..n];
    } else {
      assert s[i := x][..n] == s[..n][i := x];
      SumSeqUpdate(s[..n], i, x, f);
    }
  }

  lemma {:induction false} SumSeqZero<T>(s: seq<T>, f: T -> int)
    requires forall x | x in s :: f(x) == 0
    ensures SumSeq(s, f) == 0
  {
    if s != [] {
      SumSeqZero(s[..|s| - 1], f);
    }
  }

  /** Extends a prefix by one element: the shape loops over sequences use. */
  lemma SumSeqStep<T>(s: seq<T>, i: nat, f: T -> int)
    requires i < |s|
    ensures SumSeq(s[..i + 1], f) == SumSeq(s[..i], f) + f(s[i])
  {
    assert s[..i + 1][..i] == s[..i];
  }

  /** The sum of `f` over the values of a map. */
  ghost function SumMap<K, V>(m: map<K, V>, f: V -> int): int
    decreases |m|
  {
    if m == map[] then 0 else
      var k :| k in m;
      f(m[k]) + SumMap(m - {k}, f)
  }

  lemma {:induction false} SumMapTake<K, V>(m: map<K, V>, k: K, f: V -> int)
    requires k in m
    ensures SumMap(m, f) == f(m[k]) + SumMap(m - {k}, f)
    decreases |m|
  {
    var j :| j in m && SumMap(m, f) == f(m[j]) + SumMap(m - {j}, f);
    if j != k {
      SumMapTake(m - {j}, k, f);
      SumMapTake(m - {k}, j, f);
      assert m - {j} - {k} == m - {k} - {j};
    }
  }

  lemma SumMapPut<K, V>(m: map<K, V>, k: K, v: V, f: V -> int)
    ensures SumMap(m[k := v], f) == SumMap(m, f) - (if k in m then f(m[k]) else 0) + f(v)
  {
    SumMapTake(m[k := v], k, f);
    assert m[k := v] - {k} == m - {k};
    if k in m {
      SumMapTake(m, k, f);
    } else {
      assert m - {k} == m;
    }
  }

  lemma SplitWithout<K, V>(m: map<K, V>, ks: set<K>, k: K)
    requires k in m
    ensures var n := m - {k};
      if k in ks then n - ks == m - ks && n - (n.Keys - ks) == m - (m.Keys - ks) - {k}
      else n - ks == m - ks - {k} && n - (n.Keys - ks) == m - (m.Keys - ks)
    ensures
      if k in ks then k in m - (m.Keys - ks) && (m - (m.Keys - ks))[k] == m[k]
      else k in m - ks && (m - ks)[k] == m[k]
  {}

  lemma {:induction false} SumMapSplit<K, V>(m: map<K, V>, ks: set<K>, f: V -> int)
    ensures SumMap(m, f) == SumMap(m - ks, f) + SumMap(m - (m.Keys - ks), f)
    decreases |m|
  {
    if m == map[] {
      assert m - ks == map[] && m - (m.Keys - ks) == map[];
    } else {
      hide SumMap;
      var k :| k in m;
      SumMapTake(m, k, f);
      SumMapSplit(m - {k}, ks, f);
      SplitWithout(m, ks, k);
      SumMapTake(if k in ks then m - (m.Keys - ks) else m - ks, k, f);
    }
  }

  lemma {:induction false} SumMapZero<K, V>(m: map<K, V>, f: V -> int)
    requires forall k | k in m :: f(m[k]) == 0
    ensures SumMap(m, f) == 0
    decreases |m|
  {
    if m != map[] {
      var k :| k in m;
      SumMapTake(m, k, f);
      SumMapZero(m - {k}, f);
    }
  }

  predicate Distinct<T(==)>(s: seq<T>) {
    forall i, j | 0 <= i < j < |s| :: s[i] != s[j]
  }

  /** The elements of `listed`, each once, in any order. */
  ghost predicate Reorders<T(!new)>(rows: seq<T>, listed: seq<T>) {
    Distinct(rows) && forall x :: x in rows <==> x in listed
  }

  /** A list without repetition is as long as the set of its elements. */
  lemma {:induction false} DistinctCount<T(!new)>(s: seq<T>, t: set<T>)
    requires Distinct(s) && forall x :: x in s <==> x in t
    ensures |s| == |t|
    decreases |s|
  {
    if s == [] {
      assert t == {};
    } else {
      var n := |s| - 1;
      assert s[n] in t && s[n] !in s[..n] && s == s[..n] + [s[n]];
      DistinctCount(s[..n], t - {s[n]});
    }
  }
}
