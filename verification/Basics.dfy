/** Sequences, sets of their elements, and powers of two. */
module Basics {

  datatype Option<+T> = None | Some(value: T)

  /** Some predicates are closed: what they say stands behind a lock, and a proof goes into
      one only by saying that it is unlocked, which is always true. */
  datatype Lock =
    | ChainLock | BucketLock | TableLock | PkWalkLock | CollectedLock | PickedLock | MemoryLock | MigrationLock
    | AnsweredLock | AskedLock | SizeLock | SumLock | StaleLock | LeavesLock | TotalLock | KeptLock | SaneLock | EntryLock | MatchLock | MirrorLock | RunLock | SimilarLock | FineLock | LeadsLock

  ghost predicate Unlocked(lock: Lock, n: int) {
    true
  }

  ghost function Pow2(n: nat): (r: nat)
    ensures r >= 1
  {
    if n == 0 then 1 else 2 * Pow2(n - 1)
  }

  ghost predicate Distinct<T>(s: seq<T>) {
    forall i, j :: 0 <= i < j < |s| ==> s[i] != s[j]
  }

  ghost function Elems<T>(s: seq<T>): set<T> {
    set x | x in s
  }

  /** The first n of a sequence, all of it when it is shorter. */
  function Take<T>(s: seq<T>, n: nat): seq<T> {
    if n <= |s| then s[..n] else s
  }

  /** Taking n from two lists: from the first, then what is still wanted from the second. */
  lemma TakeConcat<T>(a: seq<T>, b: seq<T>, n: nat)
    ensures Take(a + b, n) == Take(a, n) + Take(b, n - |Take(a, n)|)
  {
  }

  lemma TakeMore<T>(a: seq<T>, b: seq<T>, n: nat, got: seq<T>)
    requires got == Take(a, n)
    ensures |got| <= n && got + Take(b, n - |got|) == Take(a + b, n)
    ensures |got + Take(b, n - |got|)| <= n
  {
    TakeConcat(a, b, n);
  }

  lemma DistinctConcat<T>(a: seq<T>, b: seq<T>)
    requires Distinct(a) && Distinct(b)
    requires forall x | x in a :: x !in b
    ensures Distinct(a + b)
  {
    forall i, j | 0 <= i < j < |a + b|
      ensures (a + b)[i] != (a + b)[j]
    {
      if i < |a| <= j {
        assert a[i] in a && b[j - |a|] in b;
      }
    }
  }

  lemma ElemsSnoc<T>(s: seq<T>)
    requires s != []
    ensures Elems(s) == Elems(s[..|s| - 1]) + {s[|s| - 1]}
    ensures Distinct(s) ==> Distinct(s[..|s| - 1]) && s[|s| - 1] !in s[..|s| - 1]
  {
    assert s == s[..|s| - 1] + [s[|s| - 1]];
  }

  lemma ElemsPush<T>(s: seq<T>, x: T)
    ensures Elems(s + [x]) == Elems(s) + {x}
    ensures Distinct(s) && x !in Elems(s) ==> Distinct(s + [x])
  {
    assert forall y :: y in s + [x] <==> y in s || y == x;
  }

  lemma ElemsConcat<T>(a: seq<T>, b: seq<T>)
    ensures Elems(a + b) == Elems(a) + Elems(b)
    ensures Distinct(a) && Distinct(b) && Elems(a) !! Elems(b) ==> Distinct(a + b)
  {
    if Distinct(a) && Distinct(b) && Elems(a) !! Elems(b) {
      forall x | x in a
        ensures x !in b
      {
        assert x in Elems(a) && x !in Elems(b);
      }
      DistinctConcat(a, b);
    }
  }

  lemma HeadInElems<T>(s: seq<T>)
    ensures s != [] ==> s[0] in Elems(s)
  {
  }

  lemma {:induction false} DistinctSize<T>(s: seq<T>)
    requires Distinct(s)
    ensures |Elems(s)| == |s|
  {
    if s != [] {
      var n := |s| - 1;
      DistinctSize(s[..n]);
      assert Elems(s) == Elems(s[..n]) + {s[n]};
      assert s[n] !in s[..n];
    }
  }

  /** A sequence without an element. */
  function Without<S(==)>(list: seq<S>, g: S): (r: seq<S>)
    ensures Elems(r) == Elems(list) - {g}
    ensures Distinct(list) ==> Distinct(r)
  {
    if list == [] then []
    else
      var rest := Without(list[..|list| - 1], g);
      ElemsSnoc(list);
      ElemsPush(rest, list[|list| - 1]);
      if list[|list| - 1] == g then rest else rest + [list[|list| - 1]]
  }

  lemma {:induction false} WithoutNothing<T>(s: seq<T>, x: T)
    requires x !in s
    ensures Without(s, x) == s
  {
    if s != [] {
      WithoutNothing(s[..|s| - 1], x);
    }
  }

  lemma {:induction false} WithoutAt<T>(s: seq<T>, k: nat)
    requires k < |s| && Distinct(s)
    ensures Without(s, s[k]) == s[..k] + s[k + 1..]
  {
    var n := |s| - 1;
    if k == n {
      ElemsSnoc(s);
      WithoutNothing(s[..n], s[k]);
    } else {
      WithoutAt(s[..n], k);
      assert s[..n][..k] + s[..n][k + 1..] + [s[n]] == s[..k] + s[k + 1..];
    }
  }

  lemma UnionTwice<T>(a: set<T>, b: set<T>, x: T)
    ensures a + b + {x} == a + (b + {x})
  {
  }

  lemma AppendTwice<T>(a: seq<T>, b: seq<T>, c: seq<T>)
    ensures a + b + c == a + (b + c)
  {
  }
}
