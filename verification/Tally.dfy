/** Counting over dictionaries: sums of values and numbers of matching entries. */
module Tally {
  import opened Prelude

  function Get<K>(m: map<K, int>, k: K): int {
    if k in m then m[k] else 0
  }

  ghost function Sum(m: map<nat, int>): int {
    if m == map[] then 0
    else var k :| k in m; m[k] + Sum(m - {k})
  }

  lemma {:induction false} SumRemove(m: map<nat, int>, k: nat)
    requires k in m
    ensures Sum(m) == m[k] + Sum(m - {k})
    decreases |m|
  {
    var p :| p in m && Sum(m) == m[p] + Sum(m - {p});
    if p != k {
      SumRemove(m - {p}, k);
      SumRemove(m - {k}, p);
      assert m - {p} - {k} == m - {k} - {p};
    }
  }

  lemma SumUpdate(m: map<nat, int>, k: nat, v: int)
    ensures Sum(m[k := v]) == Sum(m) - Get(m, k) + v
  {
    SumRemove(m[k := v], k);
    if k in m {
      SumRemove(m, k);
      assert m[k := v] - {k} == m - {k};
    } else {
      assert m[k := v] - {k} == m;
    }
  }

  lemma {:induction false} SumNonNeg(m: map<nat, int>)
    requires forall k :: k in m ==> 0 <= m[k]
    ensures 0 <= Sum(m)
    decreases |m|
  {
    if m != map[] {
      var k :| k in m && Sum(m) == m[k] + Sum(m - {k});
      SumNonNeg(m - {k});
    }
  }

  /** Adding entries for keys not there yet adds their values. */
  lemma {:induction false} SumMerge(m: map<nat, int>, extra: map<nat, int>)
    requires m.Keys !! extra.Keys
    ensures Sum(m + extra) == Sum(m) + Sum(extra)
    decreases |extra|
  {
    if extra == map[] {
      assert m + extra == m;
    } else {
      var k :| k in extra;
      var rest := extra - {k};
      SumRemove(extra, k);
      SumMerge(m, rest);
      MergeStep(m, extra, k);
      SumUpdate(m + rest, k, extra[k]);
    }
  }

  lemma MergeStep(m: map<nat, int>, extra: map<nat, int>, k: nat)
    requires k in extra && k !in m
    ensures m + extra == (m + (extra - {k}))[k := extra[k]] && k !in m + (extra - {k})
  {
    var a, b := m + extra, (m + (extra - {k}))[k := extra[k]];
    assert a.Keys == b.Keys;
    assert forall x :: x in a ==> a[x] == b[x];
  }

  function Positive(v: int): nat { if 0 < v then v else 0 }

  /** A dictionary with its negative values read as 0. */
  function Pos(m: map<nat, int>): map<nat, int> { map k | k in m :: Positive(m[k]) }

  lemma PosUpdate(m: map<nat, int>, k: nat, v: int)
    ensures Sum(Pos(m[k := v])) == Sum(Pos(m)) - Positive(Get(m, k)) + Positive(v)
  {
    assert Pos(m[k := v]) == Pos(m)[k := Positive(v)];
    SumUpdate(Pos(m), k, Positive(v));
  }

  lemma PosMerge(m: map<nat, int>, extra: map<nat, int>)
    requires m.Keys !! extra.Keys
    ensures Sum(Pos(m + extra)) == Sum(Pos(m)) + Sum(Pos(extra))
  {
    assert Pos(m + extra) == Pos(m) + Pos(extra);
    SumMerge(Pos(m), Pos(extra));
  }
}
