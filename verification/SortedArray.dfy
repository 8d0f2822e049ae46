/** Arrays of keyed entries (src/array.c): entries in insertion order, and an index that lists them
    in the order of their case-folded keys (src/buffer.c). */
module SortedArray {
  import opened Options
  import opened Bytes

  // The order of keys.

  function Fold(b: byte): byte {
    if 65 <= b <= 90 then b + 32 else b
  }

  const UPPER: string := "ABCDEFGHIJKLMNOPQRSTUVWXYZ"
  const LOWER: string := "abcdefghijklmnopqrstuvwxyz"

  /** Each upper-case letter becomes the lower-case one, and nothing else changes. */
  lemma FoldIsPairs(b: byte)
    ensures 65 <= b <= 90 ==> b == UPPER[b - 65] as byte && Fold(b) == LOWER[b - 65] as byte
    ensures b < 65 || b > 90 ==> Fold(b) == b
  {
  }

  function Folded(s: Str): Str {
    seq(|s|, i requires 0 <= i < |s| => Fold(s[i]))
  }

  /** Lexicographic order: negative, zero or positive. */
  function Order(a: Str, b: Str): int {
    if a == [] && b == [] then 0
    else if a == [] then -1
    else if b == [] then 1
    else if a[0] != b[0] then a[0] - b[0]
    else Order(a[1..], b[1..])
  }

  /** A string is smaller than its continuations, and where two differ first the bytes decide. */
  lemma {:induction false} OrderIs(a: Str, b: Str)
    ensures Order(a, b) < 0 <==>
      || (|a| < |b| && b[..|a|] == a)
      || exists i :: 0 <= i < |a| && i < |b| && a[..i] == b[..i] && a[i] < b[i]
  {
    if a != [] && b != [] {
      if a[0] != b[0] {
        assert a[..0] == b[..0];
        forall i | 0 < i < |a| && i < |b|
          ensures a[..i] != b[..i]
        {
          assert a[..i][0] != b[..i][0];
        }
        if |a| < |b| { assert b[..|a|][0] == b[0]; }
      } else {
        OrderIs(a[1..], b[1..]);
        TailsAgree(a, b);
      }
    }
  }

  lemma TailsAgree(a: Str, b: Str)
    requires a != [] && b != [] && a[0] == b[0]
    ensures |a| < |b| ==> (b[..|a|] == a <==> b[1..][..|a[1..]|] == a[1..])
    ensures (exists i :: 0 <= i < |a| && i < |b| && a[..i] == b[..i] && a[i] < b[i]) <==>
      exists i :: 0 <= i < |a[1..]| && i < |b[1..]| && a[1..][..i] == b[1..][..i] && a[1..][i] < b[1..][i]
  {
    if |a| < |b| {
      assert b[..|a|] == [b[0]] + b[1..][..|a[1..]|] && a == [a[0]] + a[1..];
    }
    if i :| 0 <= i < |a| && i < |b| && a[..i] == b[..i] && a[i] < b[i] {
      assert a[1..][..i - 1] == a[..i][1..] && b[1..][..i - 1] == b[..i][1..] && a[1..][i - 1] == a[i];
    }
    if i :| 0 <= i < |a[1..]| && i < |b[1..]| && a[1..][..i] == b[1..][..i] && a[1..][i] < b[1..][i] {
      assert a[..i + 1] == [a[0]] + a[1..][..i] && b[..i + 1] == [b[0]] + b[1..][..i] && a[i + 1] < b[i + 1];
    }
  }

  lemma {:induction false} OrderZero(a: Str, b: Str)
    ensures Order(a, b) == 0 <==> a == b
  {
    if a != [] && b != [] && a[0] == b[0] {
      OrderZero(a[1..], b[1..]);
      assert a == [a[0]] + a[1..] && b == [b[0]] + b[1..];
    }
  }

  lemma {:induction false} OrderFlip(a: Str, b: Str)
    ensures Order(a, b) < 0 <==> Order(b, a) > 0
  {
    if a != [] && b != [] {
      OrderFlip(a[1..], b[1..]);
    }
  }

  lemma {:induction false} OrderChain(a: Str, b: Str, c: Str)
    requires Order(a, b) < 0 && Order(b, c) < 0
    ensures Order(a, c) < 0
  {
    if a != [] && b != [] && c != [] && a[0] == b[0] && b[0] == c[0] {
      OrderChain(a[1..], b[1..], c[1..]);
    }
  }

  /** Equal beginnings do not matter. */
  lemma {:induction false} OrderSkip(a: Str, b: Str, n: nat)
    requires n <= |a| && n <= |b| && a[..n] == b[..n]
    ensures Order(a, b) == Order(a[n..], b[n..])
    decreases n
  {
    if n == 0 {
      assert a[0..] == a && b[0..] == b;
    } else {
      assert a[0] == a[..n][0] && b[0] == b[..n][0];
      assert a[1..][..n - 1] == a[..n][1..] && b[1..][..n - 1] == b[..n][1..];
      OrderSkip(a[1..], b[1..], n - 1);
      assert a[1..][n - 1..] == a[n..] && b[1..][n - 1..] == b[n..];
    }
  }

  /** How keys compare. */
  function Cmp(a: Str, b: Str): int {
    Order(Folded(a), Folded(b))
  }

  /** buffer_caseless_compare: the sign of the lexicographic order of the folded strings. */
  method CaselessCompare(a: Str, b: Str) returns (r: int)
    ensures (r < 0 <==> Cmp(a, b) < 0) && (r == 0 <==> Cmp(a, b) == 0)
  {
    ghost var fa, fb := Folded(a), Folded(b);
    var len := if |a| < |b| then |a| else |b|;
    for i := 0 to len
      invariant fa[..i] == fb[..i]
    {
      if a[i] == b[i] { continue; }
      var ca: int, cb: int := Fold(a[i]), Fold(b[i]);
      if ca == cb { continue; }
      OrderSkip(fa, fb, i);
      return ca - cb;
    }
    OrderSkip(fa, fb, len);
    r := if |a| == |b| then 0 else if |a| < |b| then -1 else 1;
  }

  // Arrays.

  /** hasKey is false for a key that was never set; isIndexKey marks generated keys. */
  datatype Entry<V> = Entry(key: Str, hasKey: bool, isIndexKey: bool, value: V)

  ghost predicate Covers(sorted: seq<nat>, n: nat) {
    forall i: nat :: i < n ==> i in sorted
  }

  /** The array without entry k: the last entry takes its place. */
  function Without<V>(data: seq<Entry<V>>, k: nat): seq<Entry<V>>
    requires k < |data|
  {
    data[k := data[|data| - 1]][..|data| - 1]
  }

  /** The index without position p, and with what stood at position last renumbered to k. */
  function Unlisted(sorted: seq<nat>, p: nat, last: nat, k: nat): seq<nat>
    requires p < |sorted| && last < |sorted|
  {
    var s := sorted[last := k];
    s[..p] + s[p + 1..]
  }

  /** The index lists every entry once, in strict order of keys. */
  ghost predicate Indexed<V>(data: seq<Entry<V>>, sorted: seq<nat>) {
    && |sorted| == |data|
    && (forall p :: 0 <= p < |sorted| ==> sorted[p] < |data|)
    && Covers(sorted, |data|)
    && (forall p, q :: 0 <= p < q < |sorted| ==> Cmp(data[sorted[p]].key, data[sorted[q]].key) < 0)
  }

  /** No two keys are equal but for case. */
  ghost predicate Distinct<V>(data: seq<Entry<V>>) {
    forall i, j :: 0 <= i < j < |data| ==> Folded(data[i].key) != Folded(data[j].key)
  }

  lemma CmpFlip(a: Str, b: Str)
    ensures Cmp(a, b) < 0 <==> Cmp(b, a) > 0
  {
    OrderFlip(Folded(a), Folded(b));
  }

  lemma CmpChain(a: Str, b: Str, c: Str)
    requires Cmp(a, b) < 0 && Cmp(b, c) < 0
    ensures Cmp(a, c) < 0
  {
    OrderChain(Folded(a), Folded(b), Folded(c));
  }

  lemma CmpZero(a: Str, b: Str)
    ensures Cmp(a, b) == 0 <==> Folded(a) == Folded(b)
  {
    OrderZero(Folded(a), Folded(b));
  }

  lemma IndexedDistinct<V>(data: seq<Entry<V>>, sorted: seq<nat>)
    requires Indexed(data, sorted)
    ensures Distinct(data)
    ensures forall p, q :: 0 <= p < q < |sorted| ==> sorted[p] != sorted[q]
  {
    hide Folded, Cmp;
    forall i: nat, j: nat | i < j < |data|
      ensures Folded(data[i].key) != Folded(data[j].key)
    {
      assert i in sorted && j in sorted;
      CmpZero(data[i].key, data[j].key);
      CmpZero(data[j].key, data[i].key);
    }
    forall p, q | 0 <= p < q < |sorted|
      ensures sorted[p] != sorted[q]
    {
      CmpZero(data[sorted[p]].key, data[sorted[q]].key);
    }
  }

  /** Entry i has this folded key. */
  predicate Under<V>(data: seq<Entry<V>>, f: Str, i: nat) {
    i < |data| && Folded(data[i].key) == f
  }

  /** The entries under their folded keys: what the array stands for. */
  ghost function Contents<V>(data: seq<Entry<V>>): (m: map<Str, Entry<V>>)
    requires Distinct(data)
    ensures forall f :: f in m ==> exists i: nat :: Under(data, f, i)
    ensures forall f, i: nat :: Under(data, f, i) ==> f in m && m[f] == data[i]
  {
    var m := map i | 0 <= i < |data| :: Folded(data[i].key) := data[i];
    assert forall f :: f in m ==> exists i: nat :: Under(data, f, i) by {
      forall f | f in m
        ensures exists i: nat :: Under(data, f, i)
      {
        var i: nat :| i < |data| && Folded(data[i].key) == f;
        assert Under(data, f, i);
      }
    }
    m
  }

  /** Everything before position p in the index is below the key, everything from it on above. */
  ghost predicate Between<V>(data: seq<Entry<V>>, sorted: seq<nat>, key: Str, p: nat) {
    && Indexed(data, sorted) && p <= |sorted|
    && (forall q :: 0 <= q < p ==> Cmp(key, data[sorted[q]].key) > 0)
    && (forall q :: p <= q < |sorted| ==> Cmp(key, data[sorted[q]].key) < 0)
  }

  /** A new entry goes to the end, and its number to its place in the index. */
  lemma InsertIndexed<V>(data: seq<Entry<V>>, sorted: seq<nat>, e: Entry<V>, p: nat)
    requires Between(data, sorted, e.key, p)
    ensures Indexed(data + [e], sorted[..p] + [|data|] + sorted[p..])
  {
    hide Folded, Cmp;
    var d, s := data + [e], sorted[..p] + [|data|] + sorted[p..];
    assert forall q :: 0 <= q < p ==> s[q] == sorted[q];
    assert forall q :: p < q < |s| ==> s[q] == sorted[q - 1];
    InsertCovers(sorted, |data|, p);
    forall a, b | 0 <= a < b < |s|
      ensures Cmp(d[s[a]].key, d[s[b]].key) < 0
    {
      if a != p && b == p {
        CmpFlip(data[sorted[a]].key, e.key);
      }
    }
  }

  lemma InsertCovers(sorted: seq<nat>, n: nat, p: nat)
    requires p <= |sorted| && Covers(sorted, n)
    ensures Covers(sorted[..p] + [n] + sorted[p..], n + 1)
  {
    forall i: nat | i < n
      ensures i in sorted[..p] + [n] + sorted[p..]
    {
      assert i in sorted && sorted == sorted[..p] + sorted[p..];
    }
  }

  /** Moving the last entry to a place i that is given up, and renumbering it in the index. */
  lemma ExtractIndexed<V>(data: seq<Entry<V>>, sorted: seq<nat>, p: nat, last: nat)
    requires Indexed(data, sorted) && p < |sorted| && last < |sorted| && sorted[last] == |data| - 1
    ensures Indexed(Without(data, sorted[p]), Unlisted(sorted, p, last, sorted[p]))
  {
    hide Folded, Cmp, Covers;
    IndexedDistinct(data, sorted);
    ExtractCovers(sorted, |data| - 1, p, last);
    var d, r := Without(data, sorted[p]), Unlisted(sorted, p, last, sorted[p]);
    forall q | 0 <= q < |r|
      ensures r[q] < |d| && d[r[q]] == data[sorted[if q < p then q else q + 1]]
    {
      Renumbered(data, sorted, p, last, q);
    }
  }

  lemma Renumbered<V>(data: seq<Entry<V>>, sorted: seq<nat>, p: nat, last: nat, q: nat)
    requires p < |sorted| && last < |sorted| == |data| && q < |sorted| - 1 && sorted[last] == |data| - 1
    requires (forall a :: 0 <= a < |sorted| ==> sorted[a] < |data|) && forall a, b :: 0 <= a < b < |sorted| ==> sorted[a] != sorted[b]
    ensures var r := Unlisted(sorted, p, last, sorted[p]);
      && r[q] < |data| - 1 && |r| == |sorted| - 1
      && Without(data, sorted[p])[r[q]] == data[sorted[if q < p then q else q + 1]]
  {
    var o := if q < p then q else q + 1;
    assert Unlisted(sorted, p, last, sorted[p])[q] == sorted[last := sorted[p]][o];
    if o != last {
      assert sorted[o] != sorted[last] && sorted[o] != sorted[p];
    } else {
      assert sorted[p] != sorted[last];
    }
  }

  lemma ExtractCovers(sorted: seq<nat>, n: nat, p: nat, last: nat)
    requires p < |sorted| && last < |sorted| && sorted[last] == n && sorted[p] <= n
    requires Covers(sorted, n + 1)
    requires forall a, b :: 0 <= a < b < |sorted| ==> sorted[a] != sorted[b]
    ensures Covers(Unlisted(sorted, p, last, sorted[p]), n)
  {
    var s := sorted[last := sorted[p]];
    var r := s[..p] + s[p + 1..];
    forall k: nat | k < n
      ensures k in r
    {
      var want := if k == sorted[p] then n else k;
      assert want in sorted;
      var q :| 0 <= q < |sorted| && sorted[q] == want;
      assert q != p && s[q] == k;
      assert r[if q < p then q else q - 1] == k;
    }
  }

  class Array<V> {
    var data: seq<Entry<V>>
    var sorted: seq<nat>
    var uniqueNdx: nat

    ghost predicate Valid()
      reads this
    {
      Indexed(data, sorted)
    }

    constructor ()
      ensures Valid() && data == [] && uniqueNdx == 0
    {
      data, sorted, uniqueNdx := [], [], 0;
    }

    /** array_get_index: binary search in the index finds what a linear scan of the entries finds,
        or says where the key would go. */
    method GetIndex(key: Str) returns (ndx: int, pos: nat)
      requires Valid()
      ensures ndx == -1 ==> Between(data, sorted, key, pos) && forall i :: 0 <= i < |data| ==> Folded(data[i].key) != Folded(key)
      ensures ndx != -1 ==> 0 <= ndx < |data| && Folded(data[ndx].key) == Folded(key) && pos < |sorted| && sorted[pos] == ndx
    {
      hide Folded, Cmp, Contents;
      var lower, upper := 0, |data|;
      while lower != upper
        invariant 0 <= lower <= upper <= |data|
        invariant forall q :: 0 <= q < lower ==> Cmp(key, data[sorted[q]].key) > 0
        invariant forall q :: upper <= q < |sorted| ==> Cmp(key, data[sorted[q]].key) < 0
        decreases upper - lower
      {
        var probe := (lower + upper) / 2;
        var cmp := CaselessCompare(key, data[sorted[probe]].key);
        if cmp == 0 {
          CmpZero(key, data[sorted[probe]].key);
          return sorted[probe], probe;
        } else if cmp < 0 {
          forall q | probe <= q < |sorted|
            ensures Cmp(key, data[sorted[q]].key) < 0
          {
            if q != probe { CmpChain(key, data[sorted[probe]].key, data[sorted[q]].key); }
          }
          upper := probe;
        } else {
          forall q | 0 <= q <= probe
            ensures Cmp(key, data[sorted[q]].key) > 0
          {
            Above(key, data[sorted[probe]].key, data[sorted[q]].key, q == probe);
          }
          lower := probe + 1;
        }
      }
      forall i | 0 <= i < |data|
        ensures Folded(data[i].key) != Folded(key)
      {
        assert i in sorted;
        CmpZero(key, data[i].key);
      }
      return -1, lower;
    }

    /** array_get_element_klen. */
    method Get(key: Str) returns (ndx: int)
      requires Valid()
      ensures Distinct(data)
      ensures ndx == -1 ==> Folded(key) !in Contents(data)
      ensures ndx != -1 ==> 0 <= ndx < |data| && Folded(key) in Contents(data) && Contents(data)[Folded(key)] == data[ndx]
    {
      hide Folded, Cmp, Contents;
      IndexedDistinct(data, sorted);
      ghost var pos;
      ndx, pos := GetIndex(key);
      assert ndx != -1 ==> Under(data, Folded(key), ndx);
    }

    /** array_find_or_insert: the place of an entry with the same key, or -1 and the entry is now
        the last one. An entry without a key gets the next number for one. */
    method FindOrInsert(entry: Entry<V>) returns (at: int, e: Entry<V>)
      requires Valid()
      modifies this
      ensures Valid() && old(Distinct(data)) && Distinct(data)
      ensures e.value == entry.value
      ensures if entry.hasKey && !entry.isIndexKey then e == entry && uniqueNdx == old(uniqueNdx)
        else e == Entry(Decimal(old(uniqueNdx)), true, true, entry.value) && uniqueNdx == old(uniqueNdx) + 1
      ensures at == -1 ==> (Folded(e.key) !in old(Contents(data)) && data == old(data) + [e]
        && Contents(data) == old(Contents(data))[Folded(e.key) := e])
      ensures at != -1 ==> data == old(data) && sorted == old(sorted) && 0 <= at < |data| && Folded(data[at].key) == Folded(e.key)
    {
      hide Folded, Cmp, Contents;
      IndexedDistinct(data, sorted);
      e := entry;
      if !e.hasKey || e.isIndexKey {
        e := Entry(Decimal(uniqueNdx), true, true, e.value);
        uniqueNdx := uniqueNdx + 1;
      }
      var pos;
      at, pos := GetIndex(e.key);
      if at != -1 { return; }
      InsertIndexed(data, sorted, e, pos);
      var ndx := |data|;
      data := data + [e];
      sorted := sorted[..pos] + [ndx] + sorted[pos..];
      IndexedDistinct(data, sorted);
      ContentsSnoc(data[..ndx], e);
      assert data[..ndx] == old(data);
    }

    /** array_replace: afterwards the entry is the one under its key. */
    method Replace(entry: Entry<V>) returns (e: Entry<V>)
      requires Valid()
      modifies this
      ensures Valid() && old(Distinct(data)) && Distinct(data) && e.value == entry.value
      ensures entry.hasKey && !entry.isIndexKey ==> e == entry
      ensures Contents(data) == old(Contents(data))[Folded(e.key) := e]
    {
      hide Folded, Cmp, Contents;
      IndexedDistinct(data, sorted);
      var at;
      at, e := FindOrInsert(entry);
      if at != -1 {
        ghost var was := data;
        data := data[at := e];
        SameKeys(was, data, sorted);
        IndexedDistinct(data, sorted);
        ContentsUpdate(was, at, e);
      }
    }

    /** array_extract_element_klen: the entry under the key is gone, the last entry is in its place. */
    method Extract(key: Str) returns (found: Option<Entry<V>>)
      requires Valid()
      modifies this
      ensures Valid() && old(Distinct(data)) && Distinct(data)
      ensures found.None? ==> Folded(key) !in old(Contents(data)) && data == old(data) && sorted == old(sorted)
      ensures found.Some? ==> (Folded(key) in old(Contents(data)) && found.value == old(Contents(data))[Folded(key)]
        && Contents(data) == old(Contents(data)) - {Folded(key)}
        && exists k: nat :: Under(old(data), Folded(key), k) && data == Without(old(data), k))
    {
      hide Folded, Cmp, Contents, Covers, Indexed;
      IndexedSize(data, sorted);
      IndexedDistinct(data, sorted);
      var ndx, pos := GetIndex(key);
      if ndx == -1 { return None; }
      assert Under(data, Folded(key), ndx);
      var lastNdx := |data| - 1;
      found := Some(data[ndx]);
      ghost var was := data;
      var lastPos := pos;
      if ndx != lastNdx {
        var at;
        at, lastPos := GetIndex(data[lastNdx].key);
        assert Folded(data[lastNdx].key) == Folded(data[lastNdx].key);
        SameKey(data, at, lastNdx);
      }
      ExtractIndexed(data, sorted, pos, lastPos);
      data := Without(data, ndx);
      sorted := Unlisted(sorted, pos, lastPos, ndx);
      IndexedDistinct(data, sorted);
      ContentsWithout(was, ndx);
    }

    /** array_pop, which only works if the last entry is last in the index too. */
    method Pop() returns (entry: Entry<V>)
      requires Valid() && data != [] && sorted[|data| - 1] == |data| - 1
      modifies this
      ensures Valid() && old(Distinct(data)) && Distinct(data)
      ensures data == old(data)[..|old(data)| - 1] && entry == old(data)[|old(data)| - 1]
      ensures Contents(data) == old(Contents(data)) - {Folded(entry.key)}
    {
      hide Folded, Cmp, Contents;
      var n := |data| - 1;
      IndexedDistinct(data, sorted);
      ExtractIndexed(data, sorted, n, n);
      ghost var was := data;
      entry := data[n];
      assert Without(data, n) == data[..n] && Unlisted(sorted, n, n, n) == sorted[..n];
      data := data[..n];
      sorted := sorted[..n];
      IndexedDistinct(data, sorted);
      ContentsWithout(was, n);
    }
  }

  lemma IndexedSize<V>(data: seq<Entry<V>>, sorted: seq<nat>)
    requires Indexed(data, sorted)
    ensures |sorted| == |data|
  {
  }

  lemma Above(key: Str, a: Str, b: Str, same: bool)
    requires Cmp(key, a) > 0 && (if same then a == b else Cmp(b, a) < 0)
    ensures Cmp(key, b) > 0
  {
    hide Cmp;
    if !same {
      CmpFlip(a, key);
      CmpChain(b, a, key);
      CmpFlip(b, key);
    }
  }

  lemma SameKey<V>(data: seq<Entry<V>>, i: int, j: nat)
    requires Distinct(data) && 0 <= i < |data| && j < |data| && Folded(data[i].key) == Folded(data[j].key)
    ensures i == j
  {
  }

  function Decimal(n: nat): Str {
    if n < 10 then [48 + n] else Decimal(n / 10) + [48 + n % 10]
  }

  lemma ContentsSnoc<V>(data: seq<Entry<V>>, e: Entry<V>)
    requires Distinct(data) && Distinct(data + [e])
    ensures Contents(data + [e]) == Contents(data)[Folded(e.key) := e]
  {
    hide Folded, Contents;
    var d := data + [e];
    assert Under(d, Folded(e.key), |data|);
    assert forall f, i: nat :: Under(data, f, i) ==> Under(d, f, i);
    assert forall f, i: nat :: Under(d, f, i) ==> Under(data, f, i) || f == Folded(e.key);
  }

  lemma SameKeys<V>(data: seq<Entry<V>>, later: seq<Entry<V>>, sorted: seq<nat>)
    requires Indexed(data, sorted) && |later| == |data|
    requires forall i :: 0 <= i < |data| ==> Folded(later[i].key) == Folded(data[i].key)
    ensures Indexed(later, sorted)
  {
  }

  lemma ContentsUpdate<V>(data: seq<Entry<V>>, k: nat, e: Entry<V>)
    requires k < |data| && Distinct(data) && Distinct(data[k := e]) && Folded(e.key) == Folded(data[k].key)
    ensures Contents(data[k := e]) == Contents(data)[Folded(e.key) := e]
  {
    hide Folded, Contents;
    var d := data[k := e];
    assert Under(d, Folded(e.key), k);
    assert forall f, i: nat :: Under(data, f, i) <==> Under(d, f, i);
    assert forall f, i: nat {:trigger Under(data, f, i)} :: Under(data, f, i) && f != Folded(e.key) ==> d[i] == data[i];
  }

  lemma ContentsWithout<V>(data: seq<Entry<V>>, k: nat)
    requires k < |data| && Distinct(data) && Distinct(Without(data, k))
    ensures Contents(Without(data, k)) == Contents(data) - {Folded(data[k].key)}
  {
    hide Folded, Contents;
    var n := |data| - 1;
    var d := Without(data, k);
    var gone := Folded(data[k].key);
    var was, now := Contents(data), Contents(d);
    assert Under(data, gone, k);
    forall f | f in was && f != gone
      ensures f in now && now[f] == was[f]
    {
      var i: nat :| Under(data, f, i);
      assert Under(d, f, if i == n then k else i);
    }
    forall f | f in now
      ensures f in was && f != gone
    {
      var i: nat :| Under(d, f, i);
      assert Under(data, f, if i == k then n else i);
    }
  }
}
