/** Small vocabulary shared by the models: optional values and the few sequence
    operations the programs' own slices and scans come down to. */
module Prelude {
  datatype Option<+T> = None | Some(value: T)

  /** Identifiers are only ever compared with each other and with the empty one. */
  type Id = nat
  const NO_ID: Id := 0

  /** The slice `s[-n:]` of the source language: the last `n` elements, or all of them. */
  function LastN<T>(s: seq<T>, n: nat): seq<T> {
    if |s| <= n then s else s[|s| - n..]
  }

  /** The integers from `lo` up to but not including `hi`. */
  function Range(lo: nat, hi: nat): (r: seq<nat>)
    requires lo <= hi
    ensures |r| == hi - lo
    ensures forall i :: 0 <= i < |r| ==> r[i] == lo + i
  {
    seq(hi - lo, i requires 0 <= i < hi - lo => lo + i)
  }

  function Max(a: nat, b: nat): nat {
    if a < b then b else a
  }

  /** The elements of a sequence, as a set. */
  function Elems<T>(s: seq<T>): set<T> {
    set x | x in s
  }

  ghost predicate Distinct<T>(s: seq<T>) {
    forall i, j :: 0 <= i < j < |s| ==> s[i] != s[j]
  }

  /** A set of elements drawn from a sequence is no larger than the sequence. */
  lemma {:induction false} ElemsNoLarger<T>(s: seq<T>)
    ensures |Elems(s)| <= |s|
  {
    if s != [] {
      ElemsNoLarger(s[1..]);
      assert Elems(s) == {s[0]} + Elems(s[1..]);
    } else {
      assert Elems(s) == {};
    }
  }

  lemma SubsetSize<T>(a: set<T>, b: set<T>)
    requires a <= b
    ensures |a| <= |b|
  {
    assert b == a + (b - a);
  }
}
