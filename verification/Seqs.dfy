// The sequence toolkit shared by every component.
module Seqs {
  import opened Wrappers

  /** The first index whose element satisfies p: a lookup by a unique column. */
  function FindFirst<T>(s: seq<T>, p: T -> bool): (r: Option<nat>)
    ensures r.Some? ==> r.value < |s| && p(s[r.value]) && forall j :: 0 <= j < r.value ==> !p(s[j])
    ensures r.None? ==> forall j :: 0 <= j < |s| ==> !p(s[j])
  {
    if |s| == 0 then None
    else
      var r := FindFirst(s[..|s| - 1], p);
      if r.Some? then r
      else if p(s[|s| - 1]) then Some(|s| - 1)
      else None
  }

  /** The sub-sequence of the elements satisfying p, in order. */
  function Filter<T>(s: seq<T>, p: T -> bool): (r: seq<T>)
    ensures forall x | x in r :: x in s && p(x)
    ensures forall x | x in s && p(x) :: x in r
  {
    if |s| == 0 then []
    else
      var r := Filter(s[..|s| - 1], p);
      if p(s[|s| - 1]) then r + [s[|s| - 1]] else r
  }

  lemma {:induction false} FilterAppend<T>(s: seq<T>, t: seq<T>, p: T -> bool)
    ensures Filter(s + t, p) == Filter(s, p) + Filter(t, p)
  {
    if |t| == 0 {
      assert s + t == s;
    } else {
      FilterAppend(s, t[..|t| - 1], p);
      assert (s + t)[..|s + t| - 1] == s + t[..|t| - 1];
    }
  }

  lemma {:induction false} FilterExt<T>(s: seq<T>, p: T -> bool, q: T -> bool)
    requires forall x | x in s :: p(x) == q(x)
    ensures Filter(s, p) == Filter(s, q)
  {
    if |s| == 0 {
    } else {
      FilterExt(s[..|s| - 1], p, q);
    }
  }

  predicate NoDup<T(==)>(s: seq<T>) {
    forall i, j :: 0 <= i < j < |s| ==> s[i] != s[j]
  }

  lemma {:induction false} SubsetSize<T>(a: set<T>, b: set<T>)
    requires a <= b
    ensures |a| <= |b|
  {
    if a != {} {
      var x :| x in a;
      SubsetSize(a - {x}, b - {x});
    }
  }

  /** If p can only be lost at a step that fails q, p holds throughout exactly when every step meets q. */
  lemma {:induction false} IffAlong(p: int -> bool, q: int -> bool, n: nat)
    requires p(0) && forall k | 0 <= k < n && p(k) :: p(k + 1) <==> q(k)
    ensures (forall k | 0 <= k <= n :: p(k)) <==> forall k | 0 <= k < n :: q(k)
  {
    if n == 0 {
    } else {
      IffAlong(p, q, n - 1);
      var last: int := n - 1;
      assert p(last) ==> (p(last + 1) <==> q(last));
      assert last + 1 == n;
    }
  }

  /** The indices 0 .. n-1 in order. */
  function Range(n: nat): (r: seq<nat>)
    ensures |r| == n && forall i :: 0 <= i < n ==> r[i] == i
    ensures forall i: nat :: i in r <==> i < n
    ensures NoDup(r)
  {
    var r: seq<nat> := seq(n, i => i);
    assert forall i: nat | i < n :: i in r by {
      forall i: nat | i < n ensures i in r { assert r[i] == i; }
    }
    r
  }
}
