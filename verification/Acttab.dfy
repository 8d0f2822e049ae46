/** The "acttab" module of the LALR(1) parser generator (src/lemon.c): the packing of
    many sparse rows of parser actions into the one array yy_action[].

    A row is a map from lookahead to action. Packing a row returns an offset o, and the
    row's action for lookahead X is stored at position o + X, beside X itself. Rows may
    interleave and even share slots' neighbourhoods, because an entry that holds
    lookahead L at position k can be read through one offset only, namely k - L.
*/
module Acttab {
  import opened Options

  /** One slot of aAction[] or of aLookahead[]. */
  datatype Entry = Entry(lookahead: int, action: int)

  const EMPTY := Entry(-1, -1)

  type Row = map<nat, int>

  /** What reading the packed table at offset o for symbol x finds. */
  function Find(table: seq<Entry>, o: int, x: nat): Option<int> {
    if 0 <= o + x < |table| && table[o + x].lookahead == x then Some(table[o + x].action) else None
  }

  function Get(row: Row, x: nat): Option<int> {
    if x in row then Some(row[x]) else None
  }

  /** Reading at offset o agrees with `row` on every symbol. */
  ghost predicate Holds(table: seq<Entry>, o: int, row: Row) {
    forall x: nat :: Find(table, o, x) == Get(row, x)
  }

  /** The offset through which slot k can be read. */
  function OffsetOf(table: seq<Entry>, k: int): int
    requires 0 <= k < |table|
  {
    k - table[k].lookahead
  }

  ghost predicate AllHold(table: seq<Entry>, rows: map<int, Row>) {
    forall o :: o in rows ==> Holds(table, o, rows[o])
  }

  ghost predicate NoEmptyRow(rows: map<int, Row>) {
    forall o :: o in rows ==> rows[o] != map[]
  }

  ghost predicate Owned(table: seq<Entry>, rows: map<int, Row>) {
    forall k :: 0 <= k < |table| && table[k].lookahead >= 0 ==> OffsetOf(table, k) in rows
  }

  /** The slots below `n` that hold an entry readable at offset o. */
  ghost function SlotsOf(table: seq<Entry>, n: nat, o: int): set<int>
    requires n <= |table|
  {
    set k | 0 <= k < n && table[k].lookahead >= 0 && OffsetOf(table, k) == o
  }

  /** The slots a transaction set would occupy at offset o. */
  ghost function SlotsFor(t: seq<Entry>, o: int): set<int> {
    set j | 0 <= j < |t| :: t[j].lookahead + o
  }

  ghost predicate Distinct(t: seq<Entry>) {
    forall i, j :: 0 <= i < j < |t| ==> t[i].lookahead != t[j].lookahead
  }

  ghost predicate Mentions(t: seq<Entry>, x: nat) {
    exists j :: 0 <= j < |t| && t[j].lookahead == x
  }

  /** `row` is the transaction set, as a map. */
  ghost predicate Represents(t: seq<Entry>, row: Row) {
    && Distinct(t)
    && (forall j :: 0 <= j < |t| ==> t[j].lookahead in row && row[t[j].lookahead] == t[j].action)
    && (forall x {:trigger Mentions(t, x)} :: x in row ==> Mentions(t, x))
  }

  lemma RepresentsSnoc(t: seq<Entry>, row: Row, lookahead: nat, action: int)
    requires Represents(t, row) && lookahead !in row
    ensures Represents(t + [Entry(lookahead, action)], row[lookahead := action])
  {
    var t' := t + [Entry(lookahead, action)];
    forall x: nat | x in row[lookahead := action]
      ensures Mentions(t', x)
    {
      if x == lookahead {
        assert t'[|t|].lookahead == x;
      } else {
        assert Mentions(t, x);
        var j :| 0 <= j < |t| && t[j].lookahead == x;
        assert t'[j].lookahead == x;
      }
    }
  }

  lemma {:induction false} SlotsForCardinality(t: seq<Entry>, o: int)
    requires Distinct(t)
    ensures |SlotsFor(t, o)| == |t|
  {
    if t != [] {
      var last := t[|t| - 1].lookahead + o;
      var rest := t[..|t| - 1];
      SlotsForCardinality(rest, o);
      assert forall j :: 0 <= j < |rest| ==> rest[j] == t[j];
      assert SlotsFor(t, o) == SlotsFor(rest, o) + {last};
      assert last !in SlotsFor(rest, o);
    }
  }

  lemma SubsetOfSameSize(a: set<int>, b: set<int>)
    requires a <= b && |a| == |b|
    ensures a == b
  {
    assert |b - a| == |b| - |a|;
  }

  /** Entries of t sit at offset o in the table. */
  ghost predicate Placed(table: seq<Entry>, t: seq<Entry>, o: int) {
    forall j :: 0 <= j < |t| ==> 0 <= t[j].lookahead + o < |table| && table[t[j].lookahead + o] == t[j]
  }

  /** Every entry of t would land in a free slot at offset o. */
  ghost predicate SlotsFree(table: seq<Entry>, t: seq<Entry>, o: int) {
    forall j :: 0 <= j < |t| ==> 0 <= t[j].lookahead + o < |table| && table[t[j].lookahead + o].lookahead < 0
  }

  /** As many slots readable at o as the transaction set has entries, all of its entries
      among them: then the table reads exactly this set at o. */
  lemma SameCountSameRow(table: seq<Entry>, t: seq<Entry>, o: int, row: Row)
    requires Represents(t, row) && Placed(table, t, o)
    requires |SlotsOf(table, |table|, o)| == |t|
    ensures Holds(table, o, row)
  {
    var present, wanted := SlotsOf(table, |table|, o), SlotsFor(t, o);
    assert present == wanted by {
      SlotsForCardinality(t, o);
      SubsetOfSameSize(wanted, present);
    }
    forall x: nat
      ensures Find(table, o, x) == Get(row, x)
    {
      if x in row {
        assert Mentions(t, x);
      } else {
        assert Find(table, o, x).Some? ==> o + x in wanted;
      }
    }
  }

  /** Slot k is one that t occupies at offset o. */
  ghost predicate Hits(t: seq<Entry>, o: int, k: int) {
    exists j :: 0 <= j < |t| && t[j].lookahead + o == k
  }

  /** `after` is `table` with t stored at offset o. */
  ghost predicate Stored(table: seq<Entry>, after: seq<Entry>, t: seq<Entry>, o: int) {
    && |after| == |table|
    && Placed(after, t, o)
    && (forall k :: 0 <= k < |table| && !Hits(t, o, k) ==> after[k] == table[k])
  }

  /** Storing a set at a fresh offset makes it readable there. */
  lemma StoredIsReadable(table: seq<Entry>, after: seq<Entry>, t: seq<Entry>, o: int, row: Row)
    requires Represents(t, row) && Stored(table, after, t, o)
    requires SlotsOf(table, |table|, o) == {}
    ensures Holds(after, o, row)
  {
    forall x: nat
      ensures Find(after, o, x) == Get(row, x)
    {
      if x in row {
        assert Mentions(t, x);
      } else if 0 <= o + x < |table| {
        assert o + x !in SlotsOf(table, |table|, o);
      }
    }
  }

  /** Storing over free slots leaves what every other offset reads unchanged. */
  lemma StoredIsInvisibleElsewhere(table: seq<Entry>, after: seq<Entry>, t: seq<Entry>, o: int, p: int, x: nat)
    requires Stored(table, after, t, o) && p != o
    requires SlotsFree(table, t, o)
    ensures Find(after, p, x) == Find(table, p, x)
  {
    var k := p + x;
    if Hits(t, o, k) {
        var j :| 0 <= j < |t| && t[j].lookahead + o == k;
      assert after[k] == t[j] && t[j].lookahead != x;
    }
  }

  lemma StoringIsLossless(table: seq<Entry>, after: seq<Entry>, t: seq<Entry>, o: int, row: Row, rows: map<int, Row>)
    requires Represents(t, row) && Stored(table, after, t, o)
    requires SlotsFree(table, t, o)
    requires SlotsOf(table, |table|, o) == {}
    requires Owned(table, rows) && AllHold(table, rows)
    ensures Owned(after, rows[o := row]) && AllHold(after, rows[o := row])
  {
    hide SlotsFree, SlotsOf, Represents, Get;
    StoredIsReadable(table, after, t, o, row);
    forall p | p in rows && p != o
      ensures Holds(after, p, rows[p])
    {
      forall x: nat
        ensures Find(after, p, x) == Get(rows[p], x)
      {
        StoredIsInvisibleElsewhere(table, after, t, o, p, x);
        assert Find(table, p, x) == Get(rows[p], x);
      }
    }
    forall k | 0 <= k < |after| && after[k].lookahead >= 0
      ensures OffsetOf(after, k) in rows[o := row]
    {
      if Hits(t, o, k) {
        var j :| 0 <= j < |t| && t[j].lookahead + o == k;
        assert after[k] == t[j];
      } else {
        assert OffsetOf(table, k) in rows;
      }
    }
  }

  lemma SameReadingSameRow(table: seq<Entry>, o: int, a: Row, b: Row)
    requires Holds(table, o, a) && Holds(table, o, b)
    ensures a == b
  {
    forall x: nat
      ensures Get(a, x) == Get(b, x)
    {
      assert Find(table, o, x) == Get(a, x);
      assert Find(table, o, x) == Get(b, x);
    }
    assert forall x: nat :: x in a <==> Get(a, x).Some?;
    assert forall x: nat :: x in b <==> Get(b, x).Some?;
    forall x | x in a
      ensures x in b && a[x] == b[x]
    {
      assert Get(a, x) == Get(b, x);
    }
    forall x | x in b
      ensures x in a
    {
      assert Get(a, x) == Get(b, x);
    }
  }

  /** An offset that reads as a nonempty row has been handed out before, for that row. */
  lemma ReadableMeansPacked(table: seq<Entry>, rows: map<int, Row>, o: int, row: Row, x: nat)
    requires Owned(table, rows) && AllHold(table, rows)
    requires Holds(table, o, row) && x in row
    ensures o in rows && rows[o] == row
  {
    assert Find(table, o, x) == Get(row, x);
    assert OffsetOf(table, o + x) == o;
    SameReadingSameRow(table, o, rows[o], row);
  }

  class Acttab {
    var nAction: nat             // used slots of aAction
    var aAction: seq<Entry>      // all allocated slots
    var aLookahead: seq<Entry>   // the transaction set being built
    var mnLookahead: int
    var mnAction: int
    var mxLookahead: int
    ghost var pending: Row          // the transaction set, as a row
    ghost var rows: map<int, Row>   // what has been packed so far, by returned offset

    ghost predicate Valid()
      reads this
    {
      && nAction <= |aAction|
      && (forall k :: 0 <= k < |aAction| ==> aAction[k].lookahead >= -1)
      && (forall k :: nAction <= k < |aAction| ==> aAction[k].lookahead == -1)
      && Owned(aAction, rows) && AllHold(aAction, rows)
      && NoEmptyRow(rows)
      && Represents(aLookahead, pending)
      && (forall j :: 0 <= j < |aLookahead| ==> 0 <= mnLookahead <= aLookahead[j].lookahead <= mxLookahead)
      && (aLookahead != [] ==> mnLookahead in pending && pending[mnLookahead] == mnAction)
    }

    constructor ()
      ensures Valid() && rows == map[] && pending == map[] && nAction == 0
    {
      nAction, aAction, aLookahead := 0, [], [];
      mnLookahead, mnAction, mxLookahead := 0, 0, 0;
      pending, rows := map[], map[];
    }

    /** acttab_action: adds one entry to the transaction set. */
    method Action(lookahead: nat, action: int)
      requires Valid() && lookahead !in pending
      modifies this
      ensures Valid() && pending == old(pending)[lookahead := action]
      ensures rows == old(rows) && nAction == old(nAction) && aAction == old(aAction)
    {
      ghost var was := aLookahead;
      if |aLookahead| == 0 {
        mxLookahead, mnLookahead, mnAction := lookahead, lookahead, action;
      } else {
        if mxLookahead < lookahead { mxLookahead := lookahead; }
        if mnLookahead > lookahead { mnLookahead, mnAction := lookahead, action; }
      }
      aLookahead := aLookahead + [Entry(lookahead, action)];
      pending := pending[lookahead := action];
      RepresentsSnoc(was, old(pending), lookahead, action);
    }

    /** Room for the worst case, an append. */
    ghost predicate Roomy()
      reads this
    {
      nAction + mxLookahead + 1 < |aAction|
    }

    /** The first inner pair of loops of acttab_insert: with mnLookahead at slot i, are all
        slots free and is the offset fresh? */
    method FitsInEmptySlots(i: nat, ghost o: int) returns (fits: bool)
      requires o == i - mnLookahead
      requires Valid() && Roomy() && aLookahead != [] && i < nAction + mnLookahead
      ensures fits ==> SlotsFree(aAction, aLookahead, o) && SlotsOf(aAction, |aAction|, o) == {}
    {
      var j := 0;
      while j < |aLookahead|
        invariant 0 <= j <= |aLookahead|
        invariant forall m :: 0 <= m < j ==>
                    aAction[aLookahead[m].lookahead + o].lookahead < 0
      {
        var k := aLookahead[j].lookahead - mnLookahead + i;
        if k < 0 { break; }
        if aAction[k].lookahead >= 0 { break; }
        j := j + 1;
      }
      if j < |aLookahead| { return false; }
      j := 0;
      while j < nAction
        invariant 0 <= j <= nAction
        invariant forall m :: 0 <= m < j ==> aAction[m].lookahead != m + mnLookahead - i
      {
        if aAction[j].lookahead == j + mnLookahead - i { break; }
        j := j + 1;
      }
      fits := j == nAction;
    }

    /** The second inner pair of loops: is the set already stored with mnLookahead at slot i? */
    method SameAsPrior(i: nat, ghost o: int) returns (same: bool)
      requires o == i - mnLookahead
      requires Valid() && Roomy() && aLookahead != [] && i < nAction + mnLookahead
      ensures same ==> Placed(aAction[..nAction], aLookahead, o)
      ensures same ==> Holds(aAction, o, pending)
    {
      var j := 0;
      while j < |aLookahead|
        invariant 0 <= j <= |aLookahead|
        invariant Placed(aAction[..nAction], aLookahead[..j], o)
      {
        var k := aLookahead[j].lookahead - mnLookahead + i;
        if k < 0 || k >= nAction { break; }
        if aLookahead[j].lookahead != aAction[k].lookahead { break; }
        if aLookahead[j].action != aAction[k].action { break; }
        j := j + 1;
      }
      if j < |aLookahead| { return false; }
      assert aLookahead[..j] == aLookahead;
      var n := CountAt(i, o);
      same := n == |aLookahead|;
      if same {
        assert SlotsOf(aAction, |aAction|, o) == SlotsOf(aAction, nAction, o);
        SameCountSameRow(aAction, aLookahead, o, pending);
      }
    }

    /** How many stored entries are readable at the offset. */
    method CountAt(i: nat, ghost o: int) returns (n: nat)
      requires o == i - mnLookahead && nAction <= |aAction|
      ensures n == |SlotsOf(aAction, nAction, o)|
    {
      n := 0;
      var j := 0;
      while j < nAction
        invariant 0 <= j <= nAction
        invariant n == |SlotsOf(aAction, j, o)|
      {
        assert SlotsOf(aAction, j + 1, o) ==
               SlotsOf(aAction, j, o) +
               (if aAction[j].lookahead >= 0 && OffsetOf(aAction, j) == o then {j} else {});
        if aAction[j].lookahead >= 0 && aAction[j].lookahead == j + mnLookahead - i {
          n := n + 1;
        }
        j := j + 1;
      }
    }

    /** Makes room for the worst case; the new slots are empty. */
    method Reserve()
      requires Valid() && aLookahead != []
      modifies `aAction
      ensures Valid() && Roomy()
    {
      var n := mxLookahead + 1;
      if nAction + n >= |aAction| {
        ghost var was := aAction;
        aAction := aAction + seq(nAction + n + 20, i => EMPTY);
        GrowthIsInvisible(was, aAction);
        forall o | o in rows
          ensures Holds(aAction, o, rows[o])
        {
          assert Holds(was, o, rows[o]);
        }
        forall k | 0 <= k < |aAction| && aAction[k].lookahead >= 0
          ensures OffsetOf(aAction, k) in rows
        {
          assert OffsetOf(was, k) in rows;
        }
      }
    }

    /** The main loop of acttab_insert: the slot for mnLookahead. */
    method FindPlace() returns (i: nat, reused: bool, ghost o: int)
      requires Valid() && Roomy() && aLookahead != []
      ensures i <= nAction + mnLookahead && o == i - mnLookahead
      ensures reused ==> Placed(aAction[..nAction], aLookahead, o)
                         && Holds(aAction, o, pending)
      ensures !reused ==> SlotsFree(aAction, aLookahead, o) && SlotsOf(aAction, |aAction|, o) == {}
    {
      i, reused, o := 0, false, -mnLookahead;
      assert mnLookahead <= aLookahead[0].lookahead <= mxLookahead;
      while i < nAction + mnLookahead
        invariant i <= nAction + mnLookahead && o == i - mnLookahead
      {
        if aAction[i].lookahead < 0 {
          var fits := FitsInEmptySlots(i, o);
          if fits { return; }
        } else if aAction[i].lookahead == mnLookahead {
          if aAction[i].action == mnAction {
            var same := SameAsPrior(i, o);
            if same { return i, true, o; }
          }
        }
        i, o := i + 1, o + 1;
      }
      assert SlotsOf(aAction, |aAction|, o) == {};
    }

    /** The final loop of acttab_insert: writes the set, never outside the allocation. */
    method Write(i: nat, ghost o: int)
      requires o == i - mnLookahead
      requires nAction <= |aAction|
      requires Distinct(aLookahead)
      requires forall j :: 0 <= j < |aLookahead| ==> 0 <= aLookahead[j].lookahead + o < |aAction|
      requires forall k :: nAction <= k < |aAction| ==> aAction[k].lookahead == -1
      modifies `aAction, `nAction
      ensures Stored(old(aAction), aAction, aLookahead, o)
      ensures old(nAction) <= nAction <= |aAction|
      ensures Placed(old(aAction)[..old(nAction)], aLookahead, o) ==> nAction == old(nAction)
      ensures forall k :: nAction <= k < |aAction| ==> aAction[k].lookahead == -1
    {
      var j := 0;
      while j < |aLookahead|
        invariant 0 <= j <= |aLookahead|
        invariant Stored(old(aAction), aAction, aLookahead[..j], o)
        invariant old(nAction) <= nAction <= |aAction|
        invariant Placed(old(aAction)[..old(nAction)], aLookahead, o) ==> nAction == old(nAction)
        invariant forall k :: nAction <= k < |aAction| ==> aAction[k].lookahead == -1
      {
        var k := aLookahead[j].lookahead - mnLookahead + i;
        ghost var before := aAction;
        aAction := aAction[k := aLookahead[j]];
        if k >= nAction { nAction := k + 1; }
        StoredOneMore(old(aAction), before, aAction, aLookahead, o, j);
        j := j + 1;
      }
      assert aLookahead[..j] == aLookahead;
    }

    /** acttab_insert: packs the transaction set and returns its offset. Whatever was packed
        before still reads as it did, and if the offset was in use, then for this very set. */
    method Insert() returns (offset: int)
      requires Valid() && aLookahead != []
      modifies this
      ensures Valid() && pending == map[]
      ensures rows == old(rows)[offset := old(pending)]
      ensures offset in old(rows) ==> old(rows)[offset] == old(pending)
    {
      Reserve();
      var i, reused, o := FindPlace();
      ghost var t, row, packed, before := aLookahead, pending, rows, aAction;
      Write(i, o);
      InsertIsLossless(before, aAction, t, o, row, packed, reused, mnLookahead);
      offset := i - mnLookahead;
      assert offset == o && row == old(pending) && packed == old(rows);
      rows := packed[o := row];
      aLookahead, pending := [], map[];
    }
  }

  /** What acttab_insert achieves, whichever way the loop found the offset. */
  lemma InsertIsLossless(table: seq<Entry>, after: seq<Entry>, t: seq<Entry>, o: int, row: Row,
                         rows: map<int, Row>, reused: bool, x: nat)
    requires Represents(t, row) && Stored(table, after, t, o) && x in row
    requires Owned(table, rows) && AllHold(table, rows)
    requires NoEmptyRow(rows)
    requires forall k :: 0 <= k < |table| ==> table[k].lookahead >= -1
    requires forall j :: 0 <= j < |t| ==> t[j].lookahead >= 0
    requires reused ==> Placed(table, t, o) && Holds(table, o, row)
    requires !reused ==> SlotsFree(table, t, o) && SlotsOf(table, |table|, o) == {}
    ensures Owned(after, rows[o := row]) && AllHold(after, rows[o := row])
    ensures o in rows ==> rows[o] == row
    ensures NoEmptyRow(rows[o := row])
    ensures forall k :: 0 <= k < |after| ==> after[k].lookahead >= -1
  {
    StoredKeepsLowerBound(table, after, t, o);
    if reused {
      UnchangedByStoring(table, after, t, o);
      ReadableMeansPacked(table, rows, o, row, x);
      assert rows[o := row] == rows;
    } else {
      FreshMeansUnpacked(table, rows, o);
      StoringIsLossless(table, after, t, o, row, rows);
    }
  }

  lemma PackedEntryHasSlot(table: seq<Entry>, o: int, row: Row, x: nat)
    requires Holds(table, o, row) && x in row
    ensures o + x in SlotsOf(table, |table|, o)
  {
    assert Find(table, o, x) == Get(row, x);
  }

  lemma FreshMeansUnpacked(table: seq<Entry>, rows: map<int, Row>, o: int)
    requires AllHold(table, rows) && SlotsOf(table, |table|, o) == {}
    requires NoEmptyRow(rows)
    ensures o !in rows
  {
    if o in rows {
      var x :| x in rows[o];
      PackedEntryHasSlot(table, o, rows[o], x);
    }
  }

  lemma StoredKeepsLowerBound(table: seq<Entry>, after: seq<Entry>, t: seq<Entry>, o: int)
    requires Stored(table, after, t, o)
    requires forall k :: 0 <= k < |table| ==> table[k].lookahead >= -1
    requires forall j :: 0 <= j < |t| ==> t[j].lookahead >= 0
    ensures forall k :: 0 <= k < |after| ==> after[k].lookahead >= -1
  {
    forall k | 0 <= k < |after|
      ensures after[k].lookahead >= -1
    {
      if Hits(t, o, k) {
        var j :| 0 <= j < |t| && t[j].lookahead + o == k;
        assert after[k] == t[j];
      }
    }
  }

  lemma GrowthIsInvisible(table: seq<Entry>, grown: seq<Entry>)
    requires |table| <= |grown| && grown[..|table|] == table
    requires forall k :: |table| <= k < |grown| ==> grown[k].lookahead == -1
    ensures forall o, row :: Holds(table, o, row) ==> Holds(grown, o, row)
  {
    forall o, x: nat
      ensures Find(table, o, x) == Find(grown, o, x)
    {
      if 0 <= o + x < |table| {
        assert grown[..|table|][o + x] == table[o + x];
      }
    }
  }

  lemma StoredOneMore(table: seq<Entry>, before: seq<Entry>, after: seq<Entry>, t: seq<Entry>, o: int, j: nat)
    requires j < |t| && Distinct(t) && Stored(table, before, t[..j], o)
    requires 0 <= t[j].lookahead + o < |table| && after == before[t[j].lookahead + o := t[j]]
    ensures Stored(table, after, t[..j + 1], o)
  {
    var s := t[..j + 1];
    forall m | 0 <= m < |s|
      ensures 0 <= s[m].lookahead + o < |after| && after[s[m].lookahead + o] == s[m]
    {
      if m < j {
        assert t[..j][m] == t[m];
      }
    }
    forall k | 0 <= k < |table| && !Hits(s, o, k)
      ensures after[k] == table[k]
    {
      assert s[j] == t[j];
      assert !Hits(t[..j], o, k) by {
        assert forall m :: 0 <= m < j ==> t[..j][m] == s[m];
      }
    }
  }

  /** Storing entries that are already there changes nothing. */
  lemma UnchangedByStoring(table: seq<Entry>, after: seq<Entry>, t: seq<Entry>, o: int)
    requires Placed(table, t, o) && Stored(table, after, t, o)
    ensures after == table
  {
    forall k | 0 <= k < |table|
      ensures after[k] == table[k]
    {
      if Hits(t, o, k) {
        var j :| 0 <= j < |t| && t[j].lookahead + o == k;
        assert after[k] == t[j];
      }
    }
  }
}
