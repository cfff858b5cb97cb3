// Finite sums of integers over a sequence, and the exchange laws the reports rest on.
module Sums {
  import opened Seqs

  function SumBy<T>(s: seq<T>, f: T -> int): int {
    if |s| == 0 then 0 else SumBy(s[..|s| - 1], f) + f(s[|s| - 1])
  }

  lemma {:induction false} SumAppend<T>(s: seq<T>, t: seq<T>, f: T -> int)
    ensures SumBy(s + t, f) == SumBy(s, f) + SumBy(t, f)
  {
    if |t| == 0 {
      assert s + t == s;
    } else {
      SumAppend(s, t[..|t| - 1], f);
      assert (s + t)[..|s + t| - 1] == s + t[..|t| - 1];
    }
  }

  lemma SumCons<T>(x: T, s: seq<T>, f: T -> int)
    ensures SumBy([x] + s, f) == f(x) + SumBy(s, f)
  {
    SumAppend([x], s, f);
    assert [x][..0] == [];
  }

  lemma SumStep<T>(s: seq<T>, i: nat, f: T -> int)
    requires i < |s|
    ensures SumBy(s[..i + 1], f) == SumBy(s[..i], f) + f(s[i])
  {
    assert s[..i + 1][..i] == s[..i];
  }

  lemma {:induction false} SumExt<T>(s: seq<T>, f: T -> int, g: T -> int)
    requires forall x | x in s :: f(x) == g(x)
    ensures SumBy(s, f) == SumBy(s, g)
  {
    if |s| == 0 {
    } else {
      SumExt(s[..|s| - 1], f, g);
    }
  }

  lemma {:induction false} SumZero<T>(s: seq<T>, f: T -> int)
    requires forall x | x in s :: f(x) == 0
    ensures SumBy(s, f) == 0
  {
    if |s| == 0 {
    } else {
      SumZero(s[..|s| - 1], f);
    }
  }

  lemma {:induction false} SumAdd<T>(s: seq<T>, f: T -> int, g: T -> int, h: T -> int)
    requires forall x | x in s :: h(x) == f(x) + g(x)
    ensures SumBy(s, h) == SumBy(s, f) + SumBy(s, g)
  {
    if |s| == 0 {
    } else {
      SumAdd(s[..|s| - 1], f, g, h);
    }
  }

  lemma {:induction false} SumNegate<T>(s: seq<T>, f: T -> int, g: T -> int)
    requires forall x | x in s :: g(x) == -f(x)
    ensures SumBy(s, g) == -SumBy(s, f)
  {
    if |s| == 0 {
    } else {
      SumNegate(s[..|s| - 1], f, g);
    }
  }

  /** A sum of non-negative terms is at least each of its terms. */
  lemma {:induction false} SumAtLeast<T>(s: seq<T>, f: T -> int, x: T)
    requires forall y | y in s :: f(y) >= 0
    ensures SumBy(s, f) >= 0
    ensures x in s ==> SumBy(s, f) >= f(x)
  {
    if |s| == 0 {
    } else {
      SumAtLeast(s[..|s| - 1], f, x);
    }
  }

  lemma {:induction false} SumUpdate<T>(s: seq<T>, i: nat, x: T, f: T -> int)
    requires i < |s|
    ensures SumBy(s[i := x], f) == SumBy(s, f) - f(s[i]) + f(x)
  {
    if i == |s| - 1 {
      assert s[i := x][..|s| - 1] == s[..|s| - 1];
    } else {
      SumUpdate(s[..|s| - 1], i, x, f);
      assert s[i := x][..|s| - 1] == s[..|s| - 1][i := x];
    }
  }

  /** Two functions that agree on every element but one have sums that differ by that element. */
  lemma {:induction false} SumExcept<T>(s: seq<T>, i: nat, f: T -> int, g: T -> int)
    requires i < |s| && forall j | 0 <= j < |s| && j != i :: f(s[j]) == g(s[j])
    ensures SumBy(s, g) == SumBy(s, f) - f(s[i]) + g(s[i])
  {
    var front := s[..|s| - 1];
    if i == |s| - 1 {
      SumZip(front, front, f, g);
    } else {
      SumExcept(front, i, f, g);
    }
  }

  /** Of non-negative terms, filtering loses at least each term it drops. */
  lemma {:induction false} SumFilterDrops<T>(s: seq<T>, p: T -> bool, f: T -> int, x: T)
    requires forall y | y in s :: f(y) >= 0
    ensures SumBy(Filter(s, p), f) <= SumBy(s, f)
    ensures x in s && !p(x) ==> SumBy(Filter(s, p), f) <= SumBy(s, f) - f(x)
  {
    if |s| == 0 {
    } else {
      SumFilterDrops(s[..|s| - 1], p, f, x);
    }
  }

  /** Dropping elements that contribute nothing keeps the sum. */
  lemma {:induction false} SumFilter<T>(s: seq<T>, p: T -> bool, f: T -> int)
    requires forall x | x in s && !p(x) :: f(x) == 0
    ensures SumBy(Filter(s, p), f) == SumBy(s, f)
  {
    if |s| == 0 {
    } else {
      SumFilter(s[..|s| - 1], p, f);
    }
  }

  /** Two sequences whose terms agree position by position have the same sum. */
  lemma {:induction false} SumZip<T, U>(s: seq<T>, t: seq<U>, f: T -> int, g: U -> int)
    requires |s| == |t|
    requires forall i | 0 <= i < |s| :: f(s[i]) == g(t[i])
    ensures SumBy(s, f) == SumBy(t, g)
  {
    if |s| == 0 {
    } else {
      SumZip(s[..|s| - 1], t[..|t| - 1], f, g);
    }
  }

  /** The part of f that falls on the elements whose key is k. */
  function Slice<T, K(==)>(key: T -> K, f: T -> int, k: K): T -> int {
    x => if key(x) == k then f(x) else 0
  }

  function SliceSum<T, K(==)>(s: seq<T>, key: T -> K, f: T -> int): K -> int {
    k => SumBy(s, Slice(key, f, k))
  }

  lemma {:induction false} SumSingle<K>(keys: seq<K>, k: K, v: int, g: K -> int)
    requires NoDup(keys)
    requires forall x | x in keys :: g(x) == if x == k then v else 0
    ensures SumBy(keys, g) == if k in keys then v else 0
  {
    if |keys| == 0 {
    } else {
      SumSingle(keys[..|keys| - 1], k, v, g);
    }
  }

  /** GROUP BY conserves: summing each key's group and then the groups is summing the rows. */
  lemma {:induction false} SumGroup<T, K>(s: seq<T>, keys: seq<K>, key: T -> K, f: T -> int)
    requires NoDup(keys)
    requires forall x | x in s && f(x) != 0 :: key(x) in keys
    ensures SumBy(keys, SliceSum(s, key, f)) == SumBy(s, f)
  {
    if |s| == 0 {
      SumZero(keys, SliceSum(s, key, f));
    } else {
      var rest, last := s[..|s| - 1], s[|s| - 1];
      SumGroup(rest, keys, key, f);
      var g := (k: K) => if k == key(last) then f(last) else 0;
      SumAdd(keys, SliceSum(rest, key, f), g, SliceSum(s, key, f));
      SumSingle(keys, key(last), f(last), g);
    }
  }
}
