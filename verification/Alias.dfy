/** URL aliases (src/mod_alias.c): the check of a table at startup, and the first match later. */
module Alias {
  import opened Bytes
  import opened SortedArray

  type Table = seq<Entry<Str>>

  predicate NoUpper(s: Str) {
    forall i :: 0 <= i < |s| ==> Fold(s[i]) == s[i]
  }

  predicate NoUpperKeys(t: Table) {
    forall i :: 0 <= i < |t| ==> NoUpper(t[i].key)
  }

  /** Entry j can never match, as the earlier entry i matches whenever it does. */
  predicate Shadows(t: Table, i: nat, j: nat) {
    i < j < |t| && t[i].key <= t[j].key
  }

  /** The check of mod_alias_set_defaults: each key with the keys right after it in the index that
      it is a prefix of. */
  method Accept(a: Array<Str>) returns (ok: bool)
    requires a.Valid()
    ensures |a.sorted| == |a.data| && (forall i :: 0 <= i < |a.sorted| ==> a.sorted[i] < |a.data|)
    ensures ok <==> RunsOk(a.data, a.sorted)
    ensures NoGap(Keys(a.data, a.sorted)) ==> (ok <==> forall i, j :: !Shadows(a.data, i, j))
    ensures NoUpperKeys(a.data) ==> NoGap(Keys(a.data, a.sorted))
  {
    hide NoGap, NoUpperKeys, Keys, Run, Cmp, Covers;
    IndexedSize(a.data, a.sorted);
    if NoUpperKeys(a.data) { AcceptedIff(a.data, a.sorted); }
    if NoGap(Keys(a.data, a.sorted)) { NoGapChecks(a.data, a.sorted); }
    if |a.data| < 2 { return true; }
    for j := 0 to |a.data|
      invariant forall p: nat :: p < j ==> RunOk(a.data, a.sorted, p)
    {
      var fine := AcceptFrom(a.data, a.sorted, j);
      if !fine { return false; }
    }
    return true;
  }

  /** The inner loop: the key at position j and those right after it that it is a prefix of. */
  method AcceptFrom(t: Table, sorted: seq<nat>, j: nat) returns (fine: bool)
    requires Indexed(t, sorted) && j < |sorted|
    ensures fine == RunOk(t, sorted, j)
  {
    hide Cmp, Covers;
    IndexedDistinct(t, sorted);
    var prefix := t[sorted[j]].key;
    for k := j + 1 to |t|
      invariant forall q :: j < q < k ==> prefix <= t[sorted[q]].key && sorted[j] > sorted[q]
    {
      var key := t[sorted[k]].key;
      if |key| < |prefix| || key[..|prefix|] != prefix { return true; }
      if sorted[j] < sorted[k] {
        assert Run(t, sorted, j, k);
        return false;
      }
    }
    return true;
  }

  /** The key at position p of the index is a prefix of all keys up to position q. */
  predicate Run(t: Table, sorted: seq<nat>, p: nat, q: nat)
    requires |sorted| == |t| && forall i :: 0 <= i < |sorted| ==> sorted[i] < |t|
  {
    q < |t| && forall r :: p < r <= q ==> t[sorted[p]].key <= t[sorted[r]].key
  }

  lemma FoldNoUpper(s: Str)
    requires NoUpper(s)
    ensures Folded(s) == s
  {
  }

  /** What lies between a string and a continuation of it continues it too. */
  lemma {:induction false} Sandwich(a: Str, b: Str, c: Str)
    requires Order(a, b) < 0 && Order(b, c) < 0 && a <= c
    ensures a <= b
  {
    if a != [] {
      assert c[0] == a[0] && b != [] && b[0] == a[0];
      Sandwich(a[1..], b[1..], c[1..]);
      assert a == [a[0]] + a[1..] && b == [b[0]] + b[1..];
    }
  }

  lemma {:induction false} PrefixOrder(a: Str, c: Str)
    requires a <= c && a != c
    ensures Order(a, c) < 0
  {
    if a != [] {
      assert a == [a[0]] + a[1..] && c == [c[0]] + c[1..];
      PrefixOrder(a[1..], c[1..]);
    }
  }

  ghost predicate RunOk(t: Table, sorted: seq<nat>, p: nat)
    requires |sorted| == |t| && p < |sorted| && forall i :: 0 <= i < |sorted| ==> sorted[i] < |t|
  {
    forall q: nat :: p < q < |sorted| && Run(t, sorted, p, q) ==> sorted[p] > sorted[q]
  }

  /** No key has a later one in its run that was entered later too. */
  ghost predicate RunsOk(t: Table, sorted: seq<nat>)
    requires |sorted| == |t| && forall i :: 0 <= i < |sorted| ==> sorted[i] < |t|
  {
    forall p: nat :: p < |sorted| ==> RunOk(t, sorted, p)
  }

  /** The keys in the order of the index. */
  function Keys(t: Table, sorted: seq<nat>): seq<Str>
    requires |sorted| == |t| && forall i :: 0 <= i < |sorted| ==> sorted[i] < |t|
  {
    seq(|t|, p requires 0 <= p < |t| => t[sorted[p]].key)
  }

  /** Whatever a key is a prefix of follows it in one run. */
  predicate NoGap(ks: seq<Str>) {
    forall p, r, q :: 0 <= p < r < q < |ks| && ks[p] <= ks[q] ==> ks[p] <= ks[r]
  }

  predicate Increasing(ks: seq<Str>) {
    forall p, q :: 0 <= p < q < |ks| ==> Cmp(ks[p], ks[q]) < 0
  }

  /** A table passes the check if and only if no entry shadows another. */
  ghost predicate CheckRight(t: Table, sorted: seq<nat>)
    requires |sorted| == |t| && forall i :: 0 <= i < |sorted| ==> sorted[i] < |t|
  {
    RunsOk(t, sorted) <==> forall i, j :: !Shadows(t, i, j)
  }

  /** A proper continuation of a key comes later in the index. */
  lemma LaterInOrder(a: Str, c: Str)
    requires a <= c && Folded(a) != Folded(c)
    ensures Cmp(a, c) < 0
  {
    assert Folded(a) <= Folded(c);
    PrefixOrder(Folded(a), Folded(c));
  }

  lemma ShadowIsRun(t: Table, sorted: seq<nat>, i: nat, j: nat)
    requires Indexed(t, sorted) && NoGap(Keys(t, sorted)) && Shadows(t, i, j)
    ensures !RunsOk(t, sorted)
  {
    hide Folded, Cmp, Keys, NoGap;
    assert i in sorted && j in sorted;
    var p: nat :| p < |sorted| && sorted[p] == i;
    var q: nat :| q < |sorted| && sorted[q] == j;
    IndexedDistinct(t, sorted);
    LaterInOrder(t[i].key, t[j].key);
    if q < p { CmpFlip(t[i].key, t[j].key); }
    RunWithoutGap(t, sorted, p, q);
    assert !RunOk(t, sorted, p);
  }

  lemma RunWithoutGap(t: Table, sorted: seq<nat>, p: nat, q: nat)
    requires |sorted| == |t| && forall i :: 0 <= i < |sorted| ==> sorted[i] < |t|
    requires NoGap(Keys(t, sorted)) && p < q < |t| && t[sorted[p]].key <= t[sorted[q]].key
    ensures Run(t, sorted, p, q)
  {
    var ks := Keys(t, sorted);
    assert ks[p] <= ks[q];
    assert forall r :: p < r < q ==> ks[p] <= ks[r];
    assert forall r :: p <= r <= q ==> ks[r] == t[sorted[r]].key;
  }

  /** Where no key is missing from a run, the check finds exactly the tables with a shadowed entry. */
  lemma NoGapChecks(t: Table, sorted: seq<nat>)
    requires Indexed(t, sorted) && NoGap(Keys(t, sorted))
    ensures CheckRight(t, sorted)
  {
    hide Folded, Order, Cmp, NoGap;
    IndexedDistinct(t, sorted);
    if RunsOk(t, sorted) {
      forall i, j
        ensures !Shadows(t, i, j)
      {
        if Shadows(t, i, j) {
          ShadowIsRun(t, sorted, i, j);
        }
      }
    } else {
      var p: nat :| p < |sorted| && !RunOk(t, sorted, p);
      var q: nat :| p < q < |sorted| && Run(t, sorted, p, q) && sorted[p] <= sorted[q];
      assert sorted[p] != sorted[q];
      assert Shadows(t, sorted[p], sorted[q]);
    }
  }

  /** Without upper-case letters in the keys there is no gap, so a table passes the check if and
      only if no entry shadows another. */
  lemma AcceptedIff(t: Table, sorted: seq<nat>)
    requires Indexed(t, sorted) && NoUpperKeys(t)
    ensures NoGap(Keys(t, sorted)) && CheckRight(t, sorted)
  {
    hide Folded, Order, NoUpper, Covers, CheckRight;
    var ks := Keys(t, sorted);
    forall p, r, q | 0 <= p < r < q < |ks| && ks[p] <= ks[q]
      ensures ks[p] <= ks[r]
    {
      FoldNoUpper(ks[p]);
      FoldNoUpper(ks[r]);
      FoldNoUpper(ks[q]);
      Sandwich(ks[p], ks[r], ks[q]);
    }
    NoGapChecks(t, sorted);
  }

  // The exact condition.

  /** The key at position p has a gap before q, its first one. */
  predicate FirstMissed(ks: seq<Str>, p: nat, q: nat) {
    && p < q < |ks| && ks[p] <= ks[q] && (exists r :: p < r < q && !(ks[p] <= ks[r]))
    && forall x, r :: p < r < x < q && ks[p] <= ks[x] ==> ks[p] <= ks[r]
  }

  lemma {:induction false} MissedFirst(ks: seq<Str>, p: nat, r: nat, q: nat) returns (first: nat)
    requires p < r < q < |ks| && ks[p] <= ks[q] && !(ks[p] <= ks[r])
    ensures FirstMissed(ks, p, first)
    decreases q
  {
    if x, y :| p < y < x < q && ks[p] <= ks[x] && !(ks[p] <= ks[y]) {
      first := MissedFirst(ks, p, y, x);
    } else {
      first := q;
    }
  }

  /** The entries in reverse order of their keys, but q right behind p: where each position of the
      index points to, and the other way round. */
  function Place(n: nat, p: nat, q: nat, x: nat): (k: nat)
    requires p < q < n && x < n
    ensures k < n
  {
    if x < p || q < x then n - 1 - x else if x == q then n - 1 - p else n - 2 - x
  }

  function PositionAt(n: nat, p: nat, q: nat, k: nat): (x: nat)
    requires p < q < n && k < n
    ensures x < n && Place(n, p, q, x) == k
  {
    if k < n - 1 - q || n - 1 - p < k then n - 1 - k else if k == n - 1 - p then q else n - 2 - k
  }

  lemma Missing(ks: seq<Str>, p: nat, q: nat) returns (t: Table, sorted: seq<nat>)
    requires Increasing(ks) && FirstMissed(ks, p, q)
    ensures Indexed(t, sorted) && Keys(t, sorted) == ks && !CheckRight(t, sorted)
  {
    hide Cmp, Folded;
    var n := |ks|;
    sorted := seq(n, x requires 0 <= x < n => Place(n, p, q, x));
    t := seq(n, k requires 0 <= k < n => Entry(ks[PositionAt(n, p, q, k)], true, false, []));
    assert forall x :: 0 <= x < n ==> PositionAt(n, p, q, sorted[x]) == x && t[sorted[x]].key == ks[x];
    forall k: nat | k < n
      ensures k in sorted
    {
      assert sorted[PositionAt(n, p, q, k)] == k;
    }
    assert Keys(t, sorted) == ks;
    assert Shadows(t, sorted[p], sorted[q]);
    forall x: nat, y: nat | x < y < n && Run(t, sorted, x, y)
      ensures sorted[x] > sorted[y]
    {
      OnlyMissed(ks, p, q, x, y, t, sorted);
    }
    assert forall x: nat :: x < n ==> RunOk(t, sorted, x);
  }

  lemma OnlyMissed(ks: seq<Str>, p: nat, q: nat, x: nat, y: nat, t: Table, sorted: seq<nat>)
    requires Increasing(ks) && FirstMissed(ks, p, q) && |sorted| == |t| == |ks| && x < y < |ks|
    requires forall i :: 0 <= i < |sorted| ==> sorted[i] == Place(|ks|, p, q, i) && sorted[i] < |t| && t[sorted[i]].key == ks[i]
    requires Run(t, sorted, x, y)
    ensures sorted[x] > sorted[y]
  {
    hide Cmp, Folded;
    assert forall r :: x < r <= y ==> ks[x] <= ks[r];
    if y == q && p <= x {
      var r :| p < r < q && !(ks[p] <= ks[r]);
      if p < x {
        PrefixesNest(ks[p], ks[x], ks[q]);
        if ks[x] <= ks[p] { EarlierIsShorter(ks[x], ks[p]); }
      }
    }
  }

  /** Two beginnings of one string. */
  lemma PrefixesNest(a: Str, b: Str, c: Str)
    requires a <= c && b <= c
    ensures a <= b || b <= a
  {
    assert a == c[..|a|] && b == c[..|b|];
  }

  lemma EarlierIsShorter(a: Str, c: Str)
    requires a <= c
    ensures !(Cmp(c, a) < 0)
  {
    CmpFlip(c, a);
    CmpZero(c, a);
    if Folded(a) != Folded(c) { LaterInOrder(a, c); }
  }

  /** For given keys the check is right for every order of their entries, if and only if no key is
      missing from a run. */
  lemma CheckRightIff(ks: seq<Str>)
    requires Increasing(ks)
    ensures NoGap(ks) <==> forall t, sorted :: Indexed(t, sorted) && Keys(t, sorted) == ks ==> CheckRight(t, sorted)
  {
    hide Cmp, Folded, CheckRight, FirstMissed;
    if NoGap(ks) {
      forall t, sorted | Indexed(t, sorted) && Keys(t, sorted) == ks
        ensures CheckRight(t, sorted)
      {
        NoGapChecks(t, sorted);
      }
    } else {
      var p: nat, r: nat, q: nat :| p < r < q < |ks| && ks[p] <= ks[q] && !(ks[p] <= ks[r]);
      var first := MissedFirst(ks, p, r, q);
      var t, sorted := Missing(ks, p, first);
    }
  }

  /** With upper-case letters the check can miss a shadowed entry: "a" before "Ab" before "ac". */
  lemma UpperCaseSlips() returns (t: Table, sorted: seq<nat>)
    ensures Indexed(t, sorted) && RunsOk(t, sorted) && Shadows(t, 0, 2)
  {
    t := [Entry([97], true, false, []), Entry([65, 98], true, false, []), Entry([97, 99], true, false, [])];
    sorted := [0, 1, 2];
    assert Folded([97]) == [97] && Folded([65, 98]) == [97, 98] && Folded([97, 99]) == [97, 99];
    assert Order([97], [97, 98]) == Order([97][1..], [97, 98][1..]);
    assert Order([97], [97, 99]) == Order([97][1..], [97, 99][1..]);
    assert [97, 98][1..] == [98] && [97, 99][1..] == [99];
    assert Order([97, 98], [97, 99]) == Order([98], [99]);
    assert sorted[0] == 0 && sorted[1] == 1 && sorted[2] == 2;
    assert !([97] <= [65, 98]) && !([65, 98] <= [97, 99]);
    assert [97, 99][..1] == [97];
  }

  // Looking a URL up.

  /** strncmp or, with case-insensitive file names, strncasecmp. */
  predicate Matches(key: Str, uri: Str, fold: bool) {
    |key| <= |uri| && if fold then Folded(uri[..|key|]) == Folded(key) else uri[..|key|] == key
  }

  predicate FirstMatch(t: Table, uri: Str, fold: bool, k: nat) {
    k < |t| && Matches(t[k].key, uri, fold) && forall i :: 0 <= i < k ==> !Matches(t[i].key, uri, fold)
  }

  predicate LongestMatch(t: Table, uri: Str, fold: bool, k: nat) {
    && k < |t| && Matches(t[k].key, uri, fold)
    && forall i :: 0 <= i < |t| && Matches(t[i].key, uri, fold) ==> |t[i].key| <= |t[k].key|
  }

  /** Whenever entry j matches so does the earlier entry i. */
  predicate Hides(t: Table, i: nat, j: nat, fold: bool) {
    i < j < |t| && if fold then Folded(t[i].key) <= Folded(t[j].key) else t[i].key <= t[j].key
  }

  /** A key as far as matching looks at it. */
  function Seen(s: Str, fold: bool): (r: Str)
    ensures |r| == |s|
  {
    if fold then Folded(s) else s
  }

  /** A key matches the URLs that begin with it. */
  lemma MatchesIs(key: Str, uri: Str, fold: bool)
    ensures Matches(key, uri, fold) <==> Seen(key, fold) <= Seen(uri, fold)
  {
    if |key| <= |uri| {
      assert Seen(uri, fold)[..|key|] == Seen(uri[..|key|], fold);
    }
  }

  /** Of two keys that match, the shorter is a prefix of the longer. */
  lemma MatchesNest(a: Str, b: Str, uri: Str, fold: bool)
    requires Matches(a, uri, fold) && Matches(b, uri, fold) && |a| <= |b|
    ensures Seen(a, fold) <= Seen(b, fold)
  {
    hide Matches, Seen;
    MatchesIs(a, uri, fold);
    MatchesIs(b, uri, fold);
    PrefixesNest(Seen(a, fold), Seen(b, fold), Seen(uri, fold));
  }

  /** The first match is the longest one for every URL if and only if no entry hides another. */
  lemma FirstIsLongestIff(t: Table, fold: bool)
    requires Distinct(t)
    ensures (forall uri, k: nat :: FirstMatch(t, uri, fold, k) ==> LongestMatch(t, uri, fold, k))
      <==> forall i, j :: !Hides(t, i, j, fold)
  {
    hide Folded, Matches;
    if i: nat, j: nat :| Hides(t, i, j, fold) {
      HiddenLoses(t, fold, i, j);
    } else {
      forall uri, k: nat | FirstMatch(t, uri, fold, k)
        ensures LongestMatch(t, uri, fold, k)
      {
        forall i | 0 <= i < |t| && Matches(t[i].key, uri, fold)
          ensures |t[i].key| <= |t[k].key|
        {
          if |t[k].key| < |t[i].key| { LongerIsHidden(t, uri, fold, k, i); }
        }
      }
    }
  }

  lemma LongerIsHidden(t: Table, uri: Str, fold: bool, k: nat, i: nat)
    requires FirstMatch(t, uri, fold, k) && i < |t| && Matches(t[i].key, uri, fold) && |t[k].key| < |t[i].key|
    ensures Hides(t, k, i, fold)
  {
    hide Folded, Matches;
    MatchesNest(t[k].key, t[i].key, uri, fold);
  }

  lemma WholeMatch(key: Str, uri: Str, fold: bool)
    requires Matches(key, uri, fold) && |key| >= |uri|
    ensures Folded(key) == Folded(uri)
  {
    hide Folded;
    assert uri[..|key|] == uri;
  }

  /** The URL that is the key of a hidden entry goes to a shorter one. */
  lemma HiddenLoses(t: Table, fold: bool, i: nat, j: nat)
    requires Distinct(t) && Hides(t, i, j, fold)
    ensures exists uri, k: nat :: FirstMatch(t, uri, fold, k) && !LongestMatch(t, uri, fold, k)
  {
    hide Folded, Matches;
    var uri := t[j].key;
    MatchesIs(uri, uri, fold);
    MatchesIs(t[i].key, uri, fold);
    var k := First(t, uri, fold, 0, i);
    if LongestMatch(t, uri, fold, k) { WholeMatch(t[k].key, uri, fold); }
    assert FirstMatch(t, uri, fold, k) && !LongestMatch(t, uri, fold, k);
  }

  /** Case-sensitive matching hides what shadows; without upper-case letters matching that ignores
      case does, too. */
  lemma HidesIsShadows(t: Table, fold: bool)
    requires fold ==> NoUpperKeys(t)
    ensures forall i: nat, j: nat :: Hides(t, i, j, fold) <==> Shadows(t, i, j)
  {
    hide Folded;
    forall i: nat, j: nat
      ensures Hides(t, i, j, fold) <==> Shadows(t, i, j)
    {
      if fold && i < j < |t| {
        FoldNoUpper(t[i].key);
        FoldNoUpper(t[j].key);
      }
    }
  }

  /** What the check is for: the tables that pass it are those where the first match is the longest
      one for every URL. */
  lemma CheckedIsLongest(t: Table, sorted: seq<nat>, fold: bool)
    requires Indexed(t, sorted) && NoGap(Keys(t, sorted)) && (fold ==> NoUpperKeys(t))
    ensures RunsOk(t, sorted) <==> forall uri, k: nat :: FirstMatch(t, uri, fold, k) ==> LongestMatch(t, uri, fold, k)
  {
    hide RunsOk, NoGap, Hides, Shadows, FirstMatch, LongestMatch;
    IndexedDistinct(t, sorted);
    NoGapChecks(t, sorted);
    HidesIsShadows(t, fold);
    FirstIsLongestIff(t, fold);
  }

  /** Where a search that succeeds ends. */
  function First(t: Table, uri: Str, fold: bool, from: nat, k: nat): (r: nat)
    requires from <= k < |t| && Matches(t[k].key, uri, fold) && forall i :: 0 <= i < from ==> !Matches(t[i].key, uri, fold)
    ensures r <= k && FirstMatch(t, uri, fold, r)
    decreases k - from
  {
    if Matches(t[from].key, uri, fold) then from else First(t, uri, fold, from + 1, k)
  }

  /** mod_alias_physical_handler: the part of the path after the base directory is looked up, and a
      matching key in front of it gives way to the alias. */
  method HandlePhysical(a: Array<Str>, basedir: Str, path: Str, fold: bool) returns (newBase: Str, newPath: Str, ghost k: int)
    requires a.Valid() && basedir != [] && |basedir| <= |path|
    requires forall i :: 0 <= i < |a.data| ==> a.data[i].hasKey
    ensures var uri := path[if basedir[|basedir| - 1] == 47 then |basedir| - 1 else |basedir|..];
      if k < 0 then newBase == basedir && newPath == path && forall i :: 0 <= i < |a.data| ==> !Matches(a.data[i].key, uri, fold)
      else FirstMatch(a.data, uri, fold, k) && newBase == a.data[k].value && newPath == newBase + uri[|a.data[k].key|..]
  {
    hide Folded, Matches;
    var basedirLen := |basedir|;
    if basedir[basedirLen - 1] == 47 { basedirLen := basedirLen - 1; }
    var uri := path[basedirLen..];
    for i := 0 to |a.data|
      invariant forall j :: 0 <= j < i ==> !Matches(a.data[j].key, uri, fold)
    {
      var entry := a.data[i];
      var m := Match(entry.key, uri, fold);
      if m {
        assert |entry.key| <= |uri| by { MatchFits(entry.key, uri, fold); }
        return entry.value, entry.value + uri[|entry.key|..], i;
      }
    }
    return basedir, path, -1;
  }

  lemma MatchFits(key: Str, uri: Str, fold: bool)
    requires Matches(key, uri, fold)
    ensures |key| <= |uri|
  {
  }

  method Match(key: Str, uri: Str, fold: bool) returns (m: bool)
    ensures m == Matches(key, uri, fold)
  {
    if |key| > |uri| { return false; }
    m := if fold then Folded(uri[..|key|]) == Folded(key) else uri[..|key|] == key;
  }
}
