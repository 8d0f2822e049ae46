/** The generic list sort of the parser generator (src/lemon.c, "msort.c"): a bottom-up merge
    sort over thirty bins. Lists are sequences here; `cmp` is the C comparison function. */
module Msort {

  ghost predicate TotalPreorder<T(!new)>(cmp: (T, T) -> int) {
    && (forall x, y :: cmp(x, y) < 0 <==> cmp(y, x) > 0)
    && (forall x, y, z :: cmp(x, y) <= 0 && cmp(y, z) <= 0 ==> cmp(x, z) <= 0)
  }

  lemma Trans<T(!new)>(cmp: (T, T) -> int, x: T, y: T, z: T)
    requires TotalPreorder(cmp) && cmp(x, y) <= 0 && cmp(y, z) <= 0
    ensures cmp(x, z) <= 0
  {
  }

  lemma EqualTrans<T(!new)>(cmp: (T, T) -> int, x: T, y: T, z: T)
    requires TotalPreorder(cmp) && cmp(x, z) == 0 && cmp(y, z) == 0
    ensures cmp(x, y) == 0
  {
    Trans(cmp, x, z, y);
    Trans(cmp, y, z, x);
  }

  /** What lies above something strictly above a is not equal to k, if a is. */
  lemma AboveIsUnlike<T(!new)>(cmp: (T, T) -> int, a: T, b: T, c: T, k: T)
    requires TotalPreorder(cmp) && cmp(a, k) == 0 && cmp(a, b) < 0 && cmp(b, c) <= 0
    ensures cmp(c, k) != 0
  {
    if cmp(c, k) == 0 {
      Trans(cmp, b, c, k);
      Trans(cmp, b, k, a);
    }
  }

  ghost predicate Sorted<T(!new)>(cmp: (T, T) -> int, s: seq<T>) {
    forall i, j :: 0 <= i < j < |s| ==> cmp(s[i], s[j]) <= 0
  }

  /** The elements of s that compare equal to k, in order. */
  ghost function Alike<T>(cmp: (T, T) -> int, s: seq<T>, k: T): seq<T> {
    if s == [] then []
    else (if cmp(s[0], k) == 0 then [s[0]] else []) + Alike(cmp, s[1..], k)
  }

  /** r is s sorted, equal elements keeping their order: for each key, the two sequences of
      equal elements agree, so r is also a permutation of s. */
  ghost predicate StableSortOf<T(!new)>(cmp: (T, T) -> int, s: seq<T>, r: seq<T>) {
    Sorted(cmp, r) && forall k :: Alike(cmp, r, k) == Alike(cmp, s, k)
  }

  lemma {:induction false} AlikeConcat<T>(cmp: (T, T) -> int, a: seq<T>, b: seq<T>, k: T)
    ensures Alike(cmp, a + b, k) == Alike(cmp, a, k) + Alike(cmp, b, k)
  {
    if a == [] {
      assert a + b == b;
    } else {
      assert (a + b)[1..] == a[1..] + b && (a + b)[0] == a[0];
      AlikeConcat(cmp, a[1..], b, k);
      var head := if cmp(a[0], k) == 0 then [a[0]] else [];
      ConcatAssoc(head, Alike(cmp, a[1..], k), Alike(cmp, b, k));
    }
  }

  lemma {:induction false} AlikeContains<T>(cmp: (T, T) -> int, s: seq<T>, k: T, x: T)
    ensures x in Alike(cmp, s, k) <==> x in s && cmp(x, k) == 0
  {
    if s != [] {
      AlikeContains(cmp, s[1..], k, x);
      assert s == [s[0]] + s[1..];
    }
  }

  /** A stable sort has the same elements. */
  lemma StableSortContains<T(!new)>(cmp: (T, T) -> int, s: seq<T>, r: seq<T>, x: T)
    requires TotalPreorder(cmp) && StableSortOf(cmp, s, r)
    ensures x in s <==> x in r
  {
    assert cmp(x, x) == 0;
    AlikeContains(cmp, s, x, x);
    AlikeContains(cmp, r, x, x);
  }

  /** Sorting a list of pairwise unequal elements leaves them pairwise unequal. */
  lemma {:induction false} AlikeLength<T>(cmp: (T, T) -> int, s: seq<T>, k: T)
    ensures |Alike(cmp, s, k)| >= 2 <==> exists i, j :: 0 <= i < j < |s| && cmp(s[i], k) == 0 && cmp(s[j], k) == 0
    ensures |Alike(cmp, s, k)| >= 1 <==> exists i :: 0 <= i < |s| && cmp(s[i], k) == 0
  {
    if s != [] {
      var t := s[1..];
      AlikeLength(cmp, t, k);
      if i, j :| 0 <= i < j < |t| && cmp(t[i], k) == 0 && cmp(t[j], k) == 0 {
        assert s[i + 1] == t[i] && s[j + 1] == t[j];
      }
      if i :| 0 <= i < |t| && cmp(t[i], k) == 0 {
        assert s[i + 1] == t[i];
      }
      if i, j :| 0 <= i < j < |s| && cmp(s[i], k) == 0 && cmp(s[j], k) == 0 {
        assert s[j] == t[j - 1];
        if i > 0 {
          assert s[i] == t[i - 1];
        }
      }
      if i :| 0 < i < |s| && cmp(s[i], k) == 0 {
        assert s[i] == t[i - 1];
      }
    }
  }

  ghost predicate Distinct<T(!new)>(cmp: (T, T) -> int, s: seq<T>) {
    forall i, j :: 0 <= i < j < |s| ==> cmp(s[i], s[j]) != 0
  }

  lemma Unlike<T(!new)>(cmp: (T, T) -> int, x: T, y: T, k: T)
    requires TotalPreorder(cmp) && cmp(x, y) != 0 && cmp(x, k) == 0
    ensures cmp(y, k) != 0
  {
    if cmp(y, k) == 0 {
      EqualTrans(cmp, x, y, k);
    }
  }

  lemma {:induction false} DistinctAlike<T(!new)>(cmp: (T, T) -> int, s: seq<T>, k: T)
    requires TotalPreorder(cmp) && Distinct(cmp, s)
    ensures |Alike(cmp, s, k)| <= 1
  {
    if s != [] {
      var t := s[1..];
      DistinctAlike(cmp, t, k);
      if cmp(s[0], k) == 0 {
        forall i | 0 <= i < |t|
          ensures cmp(t[i], k) != 0
        {
          Unlike(cmp, s[0], s[i + 1], k);
        }
        AlikeEmpty(cmp, t, k);
      }
    }
  }

  /** Sorting a list of pairwise unequal elements leaves a strictly increasing list. */
  lemma SortedDistinct<T(!new)>(cmp: (T, T) -> int, s: seq<T>, r: seq<T>)
    requires TotalPreorder(cmp) && StableSortOf(cmp, s, r) && Distinct(cmp, s)
    ensures forall i, j :: 0 <= i < j < |r| ==> cmp(r[i], r[j]) < 0
  {
    forall i, j | 0 <= i < j < |r|
      ensures cmp(r[i], r[j]) < 0
    {
      assert cmp(r[j], r[j]) == 0;
      AlikeLength(cmp, r, r[j]);
      DistinctAlike(cmp, s, r[j]);
      assert cmp(r[i], r[j]) <= 0;
    }
  }

  // ---- merge ----

  ghost function Merged<T>(cmp: (T, T) -> int, a: seq<T>, b: seq<T>): seq<T>
    decreases |a| + |b|
  {
    if a == [] then b
    else if b == [] then a
    else if cmp(a[0], b[0]) < 0 then [a[0]] + Merged(cmp, a[1..], b)
    else [b[0]] + Merged(cmp, a, b[1..])
  }

  /** merge: on a tie the element of b goes first. */
  method Merge<T>(cmp: (T, T) -> int, a: seq<T>, b: seq<T>) returns (r: seq<T>)
    ensures r == Merged(cmp, a, b)
  {
    var i, j := 0, 0;
    r := [];
    assert a[0..] == a && b[0..] == b;
    while i < |a| && j < |b|
      invariant 0 <= i <= |a| && 0 <= j <= |b|
      invariant r + Merged(cmp, a[i..], b[j..]) == Merged(cmp, a, b)
    {
      assert a[i..][1..] == a[i + 1..] && b[j..][1..] == b[j + 1..];
      if cmp(a[i], b[j]) < 0 {
        assert r + ([a[i]] + Merged(cmp, a[i + 1..], b[j..])) == r + [a[i]] + Merged(cmp, a[i + 1..], b[j..]);
        r := r + [a[i]];
        i := i + 1;
      } else {
        assert r + ([b[j]] + Merged(cmp, a[i..], b[j + 1..])) == r + [b[j]] + Merged(cmp, a[i..], b[j + 1..]);
        r := r + [b[j]];
        j := j + 1;
      }
    }
    if i < |a| { r := r + a[i..]; } else { r := r + b[j..]; }
  }

  lemma {:induction false} MergedContains<T>(cmp: (T, T) -> int, a: seq<T>, b: seq<T>, x: T)
    requires x in Merged(cmp, a, b)
    ensures x in a || x in b
    decreases |a| + |b|
  {
    if a != [] && b != [] {
      if cmp(a[0], b[0]) < 0 {
        if x != a[0] { MergedContains(cmp, a[1..], b, x); }
      } else {
        if x != b[0] { MergedContains(cmp, a, b[1..], x); }
      }
    }
  }

  lemma SortedCons<T(!new)>(cmp: (T, T) -> int, x: T, s: seq<T>)
    requires Sorted(cmp, s) && forall y :: y in s ==> cmp(x, y) <= 0
    ensures Sorted(cmp, [x] + s)
  {
    var r := [x] + s;
    forall i, j | 0 <= i < j < |r|
      ensures cmp(r[i], r[j]) <= 0
    {
      assert r[j] == s[j - 1];
      if i > 0 { assert r[i] == s[i - 1]; } else { assert s[j - 1] in s; }
    }
  }

  /** Merging two sorted lists gives a sorted list; for each key, b's elements come first. */
  lemma {:induction false} MergedSorted<T(!new)>(cmp: (T, T) -> int, a: seq<T>, b: seq<T>)
    requires TotalPreorder(cmp) && Sorted(cmp, a) && Sorted(cmp, b)
    ensures Sorted(cmp, Merged(cmp, a, b))
    decreases |a| + |b|
  {
    if a != [] && b != [] {
      var takeA := cmp(a[0], b[0]) < 0;
      var x := if takeA then a[0] else b[0];
      var rest := if takeA then Merged(cmp, a[1..], b) else Merged(cmp, a, b[1..]);
      if takeA { MergedSorted(cmp, a[1..], b); } else { MergedSorted(cmp, a, b[1..]); }
      forall y | y in rest
        ensures cmp(x, y) <= 0
      {
        MergedContains(cmp, if takeA then a[1..] else a, if takeA then b else b[1..], y);
        if y in a {
          var i :| 0 <= i < |a| && a[i] == y;
          assert cmp(a[0], a[i]) <= 0;
          assert cmp(x, a[0]) <= 0;
        } else {
          var i :| 0 <= i < |b| && b[i] == y;
          assert cmp(b[0], b[i]) <= 0;
          assert cmp(x, b[0]) <= 0;
        }
      }
      SortedCons(cmp, x, rest);
    }
  }

  lemma {:induction false} AlikeEmpty<T>(cmp: (T, T) -> int, s: seq<T>, k: T)
    requires forall i :: 0 <= i < |s| ==> cmp(s[i], k) != 0
    ensures Alike(cmp, s, k) == []
  {
    if s != [] {
      AlikeEmpty(cmp, s[1..], k);
    }
  }

  lemma {:induction false} MergedAlike<T(!new)>(cmp: (T, T) -> int, a: seq<T>, b: seq<T>, k: T)
    requires TotalPreorder(cmp) && Sorted(cmp, a) && Sorted(cmp, b)
    ensures Alike(cmp, Merged(cmp, a, b), k) == Alike(cmp, b, k) + Alike(cmp, a, k)
    decreases |a| + |b|
  {
    if a != [] && b != [] {
      if cmp(a[0], b[0]) < 0 {
        var rest := Merged(cmp, a[1..], b);
        MergedAlike(cmp, a[1..], b, k);
        assert ([a[0]] + rest)[1..] == rest;
        if cmp(a[0], k) == 0 {
          forall i | 0 <= i < |b|
            ensures cmp(b[i], k) != 0
          {
            assert cmp(b[0], b[0]) == 0;
            AboveIsUnlike(cmp, a[0], b[0], b[i], k);
          }
          AlikeEmpty(cmp, b, k);
        }
      } else {
        var rest := Merged(cmp, a, b[1..]);
        MergedAlike(cmp, a, b[1..], k);
        assert ([b[0]] + rest)[1..] == rest;
      }
    }
  }

  lemma {:induction false} MergedLength<T>(cmp: (T, T) -> int, a: seq<T>, b: seq<T>)
    ensures |Merged(cmp, a, b)| == |a| + |b|
    decreases |a| + |b|
  {
    if a != [] && b != [] {
      if cmp(a[0], b[0]) < 0 { MergedLength(cmp, a[1..], b); } else { MergedLength(cmp, a, b[1..]); }
    }
  }

  // ---- the bins ----

  const LISTSIZE := 30

  ghost function Pow2(i: nat): nat {
    if i == 0 then 1 else 2 * Pow2(i - 1)
  }

  /** Bins from the last one down to bin i: their elements from oldest to newest. */
  ghost function Join<T>(bins: seq<seq<T>>, i: nat): seq<T>
    requires i <= |bins|
    decreases |bins| - i
  {
    if i == |bins| then [] else Join(bins, i + 1) + bins[i]
  }

  /** The number of elements in bins i .. top-1. */
  ghost function Low<T>(bins: seq<seq<T>>, top: nat, i: nat): nat
    requires |bins| == top + 1 && i <= top
    decreases top + 1 - i
  {
    if i == top then 0 else |bins[i]| + Low(bins, top, i + 1)
  }

  /** Bin i is empty or holds 2^i elements; nothing is lost while n < 2^30. */
  ghost predicate Counter<T(!new)>(cmp: (T, T) -> int, bins: seq<seq<T>>, top: nat, n: nat) {
    && |bins| == top + 1
    && (forall i :: 0 <= i <= top ==> Sorted(cmp, bins[i]) && |bins[i]| in {0, Pow2(i)})
    && (n < Pow2(top + 1) ==> Low(bins, top, 0) + |bins[top]| == n)
  }

  lemma {:induction false} LowSame<T>(bins: seq<seq<T>>, bins': seq<seq<T>>, top: nat, i: nat)
    requires |bins| == |bins'| == top + 1 && i <= top
    requires forall k :: i <= k < top ==> bins[k] == bins'[k]
    ensures Low(bins, top, i) == Low(bins', top, i)
    decreases top + 1 - i
  {
    if i < top { LowSame(bins, bins', top, i + 1); }
  }

  lemma {:induction false} JoinSame<T>(bins: seq<seq<T>>, bins': seq<seq<T>>, i: nat)
    requires |bins| == |bins'| && i <= |bins|
    requires forall k :: i <= k < |bins| ==> bins[k] == bins'[k]
    ensures Join(bins, i) == Join(bins', i)
    decreases |bins| - i
  {
    if i < |bins| { JoinSame(bins, bins', i + 1); }
  }

  /** Empty bins below i add nothing. */
  lemma {:induction false} LowFrom<T>(bins: seq<seq<T>>, top: nat, i: nat)
    requires |bins| == top + 1 && i <= top
    requires forall k :: 0 <= k < i ==> bins[k] == []
    ensures Low(bins, top, 0) == Low(bins, top, i)
  {
    if i > 0 {
      LowFrom(bins, top, i - 1);
    }
  }

  lemma {:induction false} JoinFrom<T>(bins: seq<seq<T>>, i: nat)
    requires i <= |bins|
    requires forall k :: 0 <= k < i ==> bins[k] == []
    ensures Join(bins, 0) == Join(bins, i)
  {
    if i > 0 {
      JoinFrom(bins, i - 1);
    }
  }

  lemma {:induction false} LowBound<T>(bins: seq<seq<T>>, top: nat, i: nat)
    requires |bins| == top + 1 && i <= top
    requires forall k :: i <= k <= top ==> |bins[k]| <= Pow2(k)
    ensures Low(bins, top, i) <= Pow2(top) - Pow2(i)
    decreases top + 1 - i
  {
    if i < top { LowBound(bins, top, i + 1); }
  }

  ghost function Capacity(): nat {
    Pow2(LISTSIZE)
  }

  lemma CapacityValue()
    ensures Capacity() == 1073741824
  {
    assert Pow2(10) == 1024;
    assert Pow2(20) == 1048576;
    assert Pow2(29) == 536870912;
  }

  /** The elements of `bins` and then `ep`, from bin i up, are those of `done`, key by key. */
  ghost predicate Accounts<T(!new)>(cmp: (T, T) -> int, bins: seq<seq<T>>, i: nat, ep: seq<T>, done: seq<T>)
    requires i <= |bins|
  {
    forall k :: Alike(cmp, Join(bins, i), k) + Alike(cmp, ep, k) == Alike(cmp, done, k)
  }

  lemma ConcatAssoc<T>(a: seq<T>, b: seq<T>, c: seq<T>)
    ensures (a + b) + c == a + (b + c)
  {
  }

  lemma CarryAccounts<T(!new)>(cmp: (T, T) -> int, bins: seq<seq<T>>, i: nat, ep: seq<T>, done: seq<T>)
    requires TotalPreorder(cmp) && i < |bins| && Sorted(cmp, ep) && Sorted(cmp, bins[i])
    requires Accounts(cmp, bins, i, ep, done)
    ensures Accounts(cmp, bins[i := []], i + 1, Merged(cmp, ep, bins[i]), done)
  {
    hide Merged, Sorted, TotalPreorder;
    forall k
      ensures Alike(cmp, Join(bins[i := []], i + 1), k) + Alike(cmp, Merged(cmp, ep, bins[i]), k) == Alike(cmp, done, k)
    {
      JoinSame(bins, bins[i := []], i + 1);
      AlikeConcat(cmp, Join(bins, i + 1), bins[i], k);
      MergedAlike(cmp, ep, bins[i], k);
      assert Alike(cmp, Join(bins, i), k) + Alike(cmp, ep, k) == Alike(cmp, done, k);
      ConcatAssoc(Alike(cmp, Join(bins, i + 1), k), Alike(cmp, bins[i], k), Alike(cmp, ep, k));
    }
  }

  lemma StoreAccounts<T(!new)>(cmp: (T, T) -> int, bins: seq<seq<T>>, i: nat, ep: seq<T>, done: seq<T>)
    requires i < |bins| && bins[i] == [] && forall k :: 0 <= k < i ==> bins[k] == []
    requires Accounts(cmp, bins, i, ep, done)
    ensures Accounts(cmp, bins[i := ep], 0, [], done)
  {
    var after := bins[i := ep];
    forall k
      ensures Alike(cmp, Join(after, 0), k) + Alike(cmp, [], k) == Alike(cmp, done, k)
    {
      JoinFrom(after, i);
      JoinSame(bins, after, i + 1);
      AlikeConcat(cmp, Join(bins, i + 1), ep, k);
      assert Join(bins, i) == Join(bins, i + 1);
      assert Alike(cmp, Join(bins, i), k) + Alike(cmp, ep, k) == Alike(cmp, done, k);
    }
  }

  /** Part-way through a carry: bins below i are empty, those from i on are as they were, and
      the new element together with them is in `ep`. */
  ghost predicate Carrying<T(!new)>(cmp: (T, T) -> int, top: nat, bins0: seq<seq<T>>, bins: seq<seq<T>>, i: nat, ep: seq<T>) {
    && |bins0| == |bins| == top + 1 && i <= top
    && (forall m :: 0 <= m < i ==> bins[m] == [])
    && (forall m :: i <= m <= top ==> bins[m] == bins0[m])
    && Sorted(cmp, ep) && |ep| == Pow2(i)
    && |ep| + Low(bins, top, i) == Low(bins0, top, 0) + 1
  }

  lemma CarryStep<T(!new)>(cmp: (T, T) -> int, top: nat, bins0: seq<seq<T>>, bins: seq<seq<T>>, i: nat, ep: seq<T>, merged: seq<T>)
    requires Carrying(cmp, top, bins0, bins, i, ep) && i < top && |bins0[i]| == Pow2(i)
    requires Sorted(cmp, merged) && |merged| == |ep| + |bins[i]|
    ensures Carrying(cmp, top, bins0, bins[i := []], i + 1, merged)
  {
    LowSame(bins, bins[i := []], top, i + 1);
  }

  lemma CarrySize<T(!new)>(cmp: (T, T) -> int, top: nat, bins0: seq<seq<T>>, bins: seq<seq<T>>, i: nat, ep: seq<T>)
    requires Carrying(cmp, top, bins0, bins, i, ep) && (i == top || bins[i] == [])
    requires forall k :: 0 <= k <= top ==> |bins0[k]| in {0, Pow2(k)}
    ensures var after := bins[i := ep];
            if i < top then Low(after, top, 0) == Low(bins0, top, 0) + 1
            else Low(after, top, 0) == 0 && |ep| == Low(bins0, top, 0) + 1 == Pow2(top)
  {
    var after := bins[i := ep];
    LowFrom(after, top, i);
    if i < top {
      LowSame(after, bins, top, i + 1);
    }
  }

  lemma CarryDone<T(!new)>(cmp: (T, T) -> int, top: nat, bins0: seq<seq<T>>, bins: seq<seq<T>>, i: nat, ep: seq<T>, n: nat)
    requires Counter(cmp, bins0, top, n) && Carrying(cmp, top, bins0, bins, i, ep)
    requires i == top || bins[i] == []
    ensures Counter(cmp, bins[i := ep], top, n + 1)
    ensures n + 1 < Pow2(top + 1) ==> bins[i] == []
  {
    CarrySize(cmp, top, bins0, bins, i, ep);
    assert bins[i := ep][top] == if i == top then ep else bins0[top];
  }

  /** One element goes in: carry through the occupied bins, then store. */
  method AddOne<T(!new)>(cmp: (T, T) -> int, top: nat, bins0: seq<seq<T>>, x: T, ghost done: seq<T>) returns (bins: seq<seq<T>>)
    requires TotalPreorder(cmp) && Counter(cmp, bins0, top, |done|)
    requires |done| < Pow2(top + 1) ==> Accounts(cmp, bins0, 0, [], done)
    ensures Counter(cmp, bins, top, |done| + 1)
    ensures |done| + 1 < Pow2(top + 1) ==> Accounts(cmp, bins, 0, [], done + [x])
  {
    bins := bins0;
    var ep := [x];
    var i := 0;
    ghost var small := |done| + 1 < Pow2(top + 1);
    if small { NewcomerAccounts(cmp, bins, x, done); }
    while i < top && bins[i] != []
      invariant Carrying(cmp, top, bins0, bins, i, ep)
      invariant small ==> Accounts(cmp, bins, i, ep, done + [x])
    {
      if small { CarryAccounts(cmp, bins, i, ep, done + [x]); }
      MergedSorted(cmp, ep, bins[i]);
      MergedLength(cmp, ep, bins[i]);
      CarryStep(cmp, top, bins0, bins, i, ep, Merged(cmp, ep, bins[i]));
      ep := Merge(cmp, ep, bins[i]);
      bins := bins[i := []];
      i := i + 1;
    }
    CarryDone(cmp, top, bins0, bins, i, ep, |done|);
    if small { StoreAccounts(cmp, bins, i, ep, done + [x]); }
    bins := bins[i := ep];
  }

  lemma EmptyBins<T(!new)>(cmp: (T, T) -> int, bins: seq<seq<T>>, top: nat)
    requires |bins| == top + 1 && forall i :: 0 <= i <= top ==> bins[i] == []
    ensures Counter(cmp, bins, top, 0) && Accounts(cmp, bins, 0, [], [])
  {
    LowFrom(bins, top, top);
    JoinFrom(bins, top + 1);
  }

  lemma NewcomerAccounts<T(!new)>(cmp: (T, T) -> int, bins: seq<seq<T>>, x: T, done: seq<T>)
    requires Accounts(cmp, bins, 0, [], done)
    ensures Accounts(cmp, bins, 0, [x], done + [x])
  {
    forall k
      ensures Alike(cmp, Join(bins, 0), k) + Alike(cmp, [x], k) == Alike(cmp, done + [x], k)
    {
      AlikeConcat(cmp, done, [x], k);
      assert Alike(cmp, Join(bins, 0), k) + Alike(cmp, [], k) == Alike(cmp, done, k);
    }
  }

  lemma {:induction false} TotalLength<T>(bins: seq<seq<T>>, top: nat, i: nat)
    requires |bins| == top + 1 && i <= top
    ensures |Join(bins, i)| == Low(bins, top, i) + |bins[top]|
    decreases top + 1 - i
  {
    if i < top {
      TotalLength(bins, top, i + 1);
    } else {
      assert Join(bins, top + 1) == [];
    }
  }

  /** msort: a stable sort of any list of fewer than 2^30 elements. From there on the last bin
      is overwritten and elements are lost. */
  method Sort<T(!new)>(cmp: (T, T) -> int, list: seq<T>) returns (r: seq<T>)
    requires TotalPreorder(cmp)
    ensures Sorted(cmp, r)
    ensures |list| < Capacity() ==> StableSortOf(cmp, list, r)
    ensures |r| == |list| <==> |list| < Capacity()
  {
    r := SortWithBins(cmp, list, LISTSIZE - 1);
  }

  method SortWithBins<T(!new)>(cmp: (T, T) -> int, list: seq<T>, top: nat) returns (r: seq<T>)
    requires TotalPreorder(cmp)
    ensures Sorted(cmp, r)
    ensures |list| < Pow2(top + 1) ==> StableSortOf(cmp, list, r)
    ensures |r| == |list| <==> |list| < Pow2(top + 1)
  {
    hide Accounts, StableSortOf, TotalPreorder;
    var bins := seq(top + 1, _ => []);
    EmptyBins(cmp, bins, top);
    assert list[..0] == [];
    for n := 0 to |list|
      invariant Counter(cmp, bins, top, n)
      invariant n < Pow2(top + 1) ==> Accounts(cmp, bins, 0, [], list[..n])
    {
      assert list[..n + 1] == list[..n] + [list[n]];
      bins := AddOne(cmp, top, bins, list[n], list[..n]);
    }
    assert list[..|list|] == list;
    r := MergeAll(cmp, bins, list);
    TotalLength(bins, top, 0);
    LowBound(bins, top, 0);
  }

  /** The final loop: merges the bins, newest first. */
  method MergeAll<T(!new)>(cmp: (T, T) -> int, all: seq<seq<T>>, ghost list: seq<T>) returns (r: seq<T>)
    requires TotalPreorder(cmp) && forall m :: 0 <= m < |all| ==> Sorted(cmp, all[m])
    ensures Sorted(cmp, r) && |r| == |Join(all, 0)|
    ensures Accounts(cmp, all, 0, [], list) ==> StableSortOf(cmp, list, r)
  {
    r := [];
    var bins := all;
    ghost var small := Accounts(cmp, all, 0, [], list);
    for i := 0 to |all|
      invariant |bins| == |all| && (forall m :: 0 <= m < |all| ==> Sorted(cmp, bins[m]))
      invariant forall m :: i <= m < |all| ==> bins[m] == all[m]
      invariant Sorted(cmp, r)
      invariant small ==> Accounts(cmp, bins, i, r, list)
      invariant |r| + |Join(all, i)| == |Join(all, 0)|
    {
      if small { CarryAccounts(cmp, bins, i, r, list); }
      MergedSorted(cmp, r, bins[i]);
      MergedLength(cmp, r, bins[i]);
      r := Merge(cmp, r, bins[i]);
      bins := bins[i := []];
    }
    if small {
      forall k
        ensures Alike(cmp, r, k) == Alike(cmp, list, k)
      {
        assert Alike(cmp, Join(bins, |all|), k) + Alike(cmp, r, k) == Alike(cmp, list, k);
      }
    }
  }
}
