/** Small vocabulary shared by all modules: optional values, results, and sums over finite maps. */
module Basics {

  datatype Option<+T> = None | Some(value: T)

  datatype Result<+T, +E> = Ok(value: T) | Err(error: E)

  /** The set of elements of a sequence. */
  function Elems<T>(s: seq<T>): set<T> {
    set x | x in s
  }

  ghost predicate NoDup<T>(s: seq<T>) {
    forall i, j :: 0 <= i < j < |s| ==> s[i] != s[j]
  }

  /** `s` lists every element of `S` once: what a query returns when it selects the rows `S` in some order. */
  ghost predicate Enumerates<T(!new)>(s: seq<T>, S: set<T>) {
    NoDup(s) && forall x :: x in s <==> x in S
  }

  lemma HeadTail<T>(s: seq<T>, i: nat)
    requires i < |s|
    ensures s[i..] == [s[i]] + s[i + 1..]
  {
  }

  lemma NoDupConcat<T>(s: seq<T>, more: seq<T>)
    requires NoDup(s) && NoDup(more) && forall x | x in more :: x !in s
    ensures NoDup(s + more)
  {
    forall i, j | 0 <= i < j < |s + more| ensures (s + more)[i] != (s + more)[j] {
      if i < |s| <= j {
        assert more[j - |s|] in more && s[i] in s;
      } else if |s| <= i {
        assert more[i - |s|] != more[j - |s|];
      }
    }
  }

  lemma NoDupSize<T>(s: seq<T>, S: set<T>)
    requires NoDup(s) && Elems(s) <= S
    ensures |s| <= |S|
    decreases |s|
  {
    if s == [] {
    } else {
      var x := s[|s| - 1];
      var init := s[..|s| - 1];
      assert x in s;
      assert x in Elems(s);
      assert x !in Elems(init);
      forall y | y in Elems(init) ensures y in S - {x} { assert y in s; assert y in Elems(s); }
      NoDupSize(init, S - {x});
    }
  }

  /** Sum of the values of a finite map: `SELECT COALESCE(SUM(col), 0)`. */
  ghost function Sum<K>(m: map<K, nat>): nat
    decreases |m|
  {
    if m == map[] then 0
    else
      var k :| k in m;
      assert |m - {k}| < |m| by { assert (m - {k}).Keys == m.Keys - {k}; assert |m.Keys - {k}| < |m.Keys|; }
      m[k] + Sum(m - {k})
  }

  /** The sum does not depend on which row is taken first. */
  lemma {:induction false} SumTake<K>(m: map<K, nat>, k: K)
    requires k in m
    ensures Sum(m) == m[k] + Sum(m - {k})
    decreases |m|
  {
    var j :| j in m && Sum(m) == m[j] + Sum(m - {j});
    if j != k {
      assert (m - {j}).Keys == m.Keys - {j};
      assert |m.Keys - {j}| < |m.Keys|;
      assert (m - {k}).Keys == m.Keys - {k};
      assert |m.Keys - {k}| < |m.Keys|;
      SumTake(m - {j}, k);
      SumTake(m - {k}, j);
      assert m - {j} - {k} == m - {k} - {j};
    }
  }

  /** Writing one cell moves the sum by the difference of the old and the new cell. */
  lemma SumPut<K>(m: map<K, nat>, k: K, v: nat)
    ensures Sum(m[k := v]) == Sum(m) - (if k in m then m[k] else 0) + v
  {
    SumTake(m[k := v], k);
    if k in m {
      SumTake(m, k);
      assert m[k := v] - {k} == m - {k};
    } else {
      assert m[k := v] - {k} == m;
    }
  }

  /** Dropping rows never raises a sum. */
  lemma {:induction false} SumShrinks<K>(m: map<K, nat>, big: map<K, nat>)
    requires m.Keys <= big.Keys
    requires forall k | k in m :: m[k] <= big[k]
    ensures Sum(m) <= Sum(big)
    decreases |m|
  {
    if m != map[] {
      var k :| k in m;
      assert (m - {k}).Keys == m.Keys - {k};
      assert |m.Keys - {k}| < |m.Keys|;
      SumTake(m, k);
      SumTake(big, k);
      SumShrinks(m - {k}, big - {k});
    }
  }
}
