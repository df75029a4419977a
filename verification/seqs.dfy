/** Sequence helpers: insertion-ordered de-duplication (what `Array.from(new Set(...))`
    yields) and `slice(0, k)`. */
module Seqs {

  predicate NoDup<T(==)>(s: seq<T>) {
    forall i, j :: 0 <= i < j < |s| ==> s[i] != s[j]
  }

  /** The distinct elements of `s`, each at the place of its first occurrence. */
  function Distinct<T(==)>(s: seq<T>): (r: seq<T>)
    ensures NoDup(r)
    ensures forall i :: 0 <= i < |r| ==> r[i] in s
    ensures forall i :: 0 <= i < |s| ==> s[i] in r
    ensures |r| <= |s|
  {
    if s == [] then []
    else
      var d := Distinct(s[..|s| - 1]);
      if s[|s| - 1] in d then d else d + [s[|s| - 1]]
  }

  /** Distinct of one more element: appended exactly when it is new. */
  lemma DistinctSnoc<T>(s: seq<T>, x: T)
    ensures Distinct(s + [x]) == if x in Distinct(s) then Distinct(s) else Distinct(s) + [x]
  {
    assert (s + [x])[..|s + [x]| - 1] == s;
  }

  /** `s.slice(0, k)`. */
  function Take<T>(s: seq<T>, k: nat): (r: seq<T>)
    ensures |r| <= k && r <= s
    ensures |s| <= k ==> r == s
    ensures |s| > k ==> |r| == k
  {
    if |s| <= k then s else s[..k]
  }

  /** A prefix of a list without repeats has none either. */
  lemma TakeNoDup<T>(s: seq<T>, k: nat)
    requires NoDup(s)
    ensures NoDup(Take(s, k))
  {
    var r := Take(s, k);
    forall i, j | 0 <= i < j < |r| ensures r[i] != r[j] {
      assert r[i] == s[i] && r[j] == s[j];
    }
  }
}
