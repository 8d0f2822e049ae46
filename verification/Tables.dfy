/** The generated tables (src/lemon.c: ReportTable) and how the driver reads them
    (src/lempar.c: yy_find_shift_action, yy_find_reduce_action). */
module Tables {
  import opened Options
  import opened Grammar
  import opened Actions
  import A = Acttab

  datatype Tables = Tables(
    action: seq<int>,         // yy_action
    lookahead: seq<int>,      // yy_lookahead
    shiftOfst: seq<int>,      // yy_shift_ofst
    reduceOfst: seq<int>,     // yy_reduce_ofst
    dflt: seq<int>,           // yy_default
    shiftUseDflt: int,        // YY_SHIFT_USE_DFLT
    reduceUseDflt: int,       // YY_REDUCE_USE_DFLT
    nstate: nat,              // YYNSTATE
    nrule: nat,               // YYNRULE
    nsymbol: nat)
  {
    function NoCode(): int { nsymbol + 1 }
    function ErrorAction(): int { nstate + nrule }
    function AcceptAction(): int { nstate + nrule + 1 }
    function NoAction(): int { nstate + nrule + 2 }

    ghost predicate Shape() {
      |shiftOfst| == |reduceOfst| == |dflt| == nstate && |action| == |lookahead|
    }

    /** yy_find_shift_action, without fallback tokens. */
    function FindShiftAction(s: nat, x: nat): int
      requires Shape() && s < nstate
    {
      var i := shiftOfst[s];
      if i == shiftUseDflt then dflt[s]
      else if x == NoCode() then NoAction()
      else if i + x < 0 || i + x >= |action| || lookahead[i + x] != x then dflt[s]
      else action[i + x]
    }

    /** yy_find_reduce_action. */
    function FindReduceAction(s: nat, x: nat): int
      requires Shape() && s < nstate
    {
      var i := reduceOfst[s];
      if i == reduceUseDflt then dflt[s]
      else if x == NoCode() then NoAction()
      else if i + x < 0 || i + x >= |action| || lookahead[i + x] != x then dflt[s]
      else action[i + x]
    }
  }

  // ---- What a list of actions means ----

  /** The numbers of states and rules that action codes are built from. */
  datatype Sizes = Sizes(nstate: nat, nrule: nat, nterminal: nat, nsymbol: nat)

  /** compute_action. */
  function Code(z: Sizes, a: Action): int {
    match a.kind
    case SHIFT => a.arg
    case REDUCE => a.arg + z.nstate
    case ERROR => z.nstate + z.nrule
    case ACCEPT => z.nstate + z.nrule + 1
    case _ => -1
  }

  /** The live action on x, if any. */
  function LiveFor(acts: seq<Action>, x: Symbol): Option<Action> {
    if acts == [] then None
    else if Live(acts[|acts| - 1]) && acts[|acts| - 1].sp == x then Some(acts[|acts| - 1])
    else LiveFor(acts[..|acts| - 1], x)
  }

  /** What the state does by default: the action on the default symbol, or a syntax error. */
  function Default(z: Sizes, acts: seq<Action>): int {
    match LiveFor(acts, z.nsymbol)
    case Some(a) => Code(z, a)
    case None => z.nstate + z.nrule
  }

  function Meaning(z: Sizes, acts: seq<Action>, x: Symbol): int {
    match LiveFor(acts, x)
    case Some(a) => Code(z, a)
    case None => Default(z, acts)
  }

  lemma {:induction false} LiveForIsIn(acts: seq<Action>, x: Symbol)
    ensures LiveFor(acts, x).Some? ==>
              var a := LiveFor(acts, x).value; a in acts && Live(a) && a.sp == x
    ensures LiveFor(acts, x).None? ==> forall a :: a in acts && Live(a) ==> a.sp != x
  {
    if acts != [] {
      LiveForIsIn(acts[..|acts| - 1], x);
      assert acts == acts[..|acts| - 1] + [acts[|acts| - 1]];
    }
  }

  /** With one live action per symbol, the one found is the one there is. */
  lemma LiveForIsThe(acts: seq<Action>, a: Action)
    requires OneLive(acts) && a in acts && Live(a)
    ensures LiveFor(acts, a.sp) == Some(a)
  {
    LiveForIsIn(acts, a.sp);
    var i :| 0 <= i < |acts| && acts[i] == a;
    var j :| 0 <= j < |acts| && acts[j] == LiveFor(acts, a.sp).value;
  }

  // ---- Rows ----

  /** The row of the live actions on symbols from lo below hi. */
  function RowOf(z: Sizes, acts: seq<Action>, lo: nat, hi: nat): A.Row {
    map x: nat | lo <= x < hi && LiveFor(acts, x).Some? :: Code(z, LiveFor(acts, x).value)
  }

  lemma RowStep(z: Sizes, acts: seq<Action>, k: nat, lo: nat, hi: nat)
    requires k < |acts| && OneLive(acts)
    ensures var row := RowOf(z, acts[..k], lo, hi);
            if Live(acts[k]) && lo <= acts[k].sp < hi
            then acts[k].sp !in row && RowOf(z, acts[..k + 1], lo, hi) == row[acts[k].sp := Code(z, acts[k])]
            else RowOf(z, acts[..k + 1], lo, hi) == row
  {
    assert acts[..k + 1][..k] == acts[..k];
    if Live(acts[k]) {
      assert forall m :: 0 <= m < k && acts[m].sp == acts[k].sp ==> !Live(acts[m]);
      LiveForNone(acts[..k], acts[k].sp);
    }
  }

  lemma {:induction false} LiveForNone(acts: seq<Action>, x: Symbol)
    requires forall m :: 0 <= m < |acts| && acts[m].sp == x ==> !Live(acts[m])
    ensures LiveFor(acts, x) == None
  {
    if acts != [] { LiveForNone(acts[..|acts| - 1], x); }
  }

  lemma LiveHasCode(z: Sizes, a: Action)
    ensures Code(z, a) >= 0 <==> Live(a)
  {
  }

  /** The inner loops of ReportTable: puts one row of a state into the action table. */
  method AddRow(tab: A.Acttab, z: Sizes, acts: seq<Action>, lo: nat, hi: nat) returns (o: int)
    requires tab.Valid() && tab.pending == map[] && OneLive(acts)
    requires RowOf(z, acts, lo, hi) != map[]
    modifies tab
    ensures tab.Valid() && tab.pending == map[]
    ensures tab.rows == old(tab.rows)[o := RowOf(z, acts, lo, hi)]
    ensures o in old(tab.rows) ==> old(tab.rows)[o] == RowOf(z, acts, lo, hi)
  {
    hide RowOf, OneLive;
    assert RowOf(z, acts[..0], lo, hi) == map[] by { EmptyRow(z, lo, hi); }
    for k := 0 to |acts|
      invariant tab.Valid() && tab.rows == old(tab.rows)
      invariant tab.pending == RowOf(z, acts[..k], lo, hi)
    {
      RowStep(z, acts, k, lo, hi);
      if acts[k].sp < lo || acts[k].sp >= hi { continue; }
      var action := Code(z, acts[k]);
      LiveHasCode(z, acts[k]);
      if action < 0 { continue; }
      tab.Action(acts[k].sp, action);
    }
    assert acts[..|acts|] == acts;
    PendingHasEntry(tab);
    o := tab.Insert();
  }

  lemma EmptyRow(z: Sizes, lo: nat, hi: nat)
    ensures RowOf(z, [], lo, hi) == map[]
  {
  }

  lemma PendingHasEntry(tab: A.Acttab)
    requires tab.Valid() && tab.pending != map[]
    ensures tab.aLookahead != []
  {
    var x :| x in tab.pending;
    assert A.Mentions(tab.aLookahead, x);
  }

  // ---- The whole table ----

  ghost function CountLive(acts: seq<Action>, lo: nat, hi: nat): nat {
    if acts == [] then 0
    else CountLive(acts[..|acts| - 1], lo, hi) + if Live(acts[|acts| - 1]) && lo <= acts[|acts| - 1].sp < hi then 1 else 0
  }

  lemma {:induction false} CountLiveMeans(z: Sizes, acts: seq<Action>, lo: nat, hi: nat)
    ensures CountLive(acts, lo, hi) > 0 <==> RowOf(z, acts, lo, hi) != map[]
  {
    if acts != [] {
      var rest, last := acts[..|acts| - 1], acts[|acts| - 1];
      CountLiveMeans(z, rest, lo, hi);
      if Live(last) && lo <= last.sp < hi {
        assert last.sp in RowOf(z, acts, lo, hi);
      } else if RowOf(z, rest, lo, hi) != map[] {
        var x :| x in RowOf(z, rest, lo, hi);
        assert x in RowOf(z, acts, lo, hi);
      } else {
        assert forall x :: x in RowOf(z, acts, lo, hi) ==> x in RowOf(z, rest, lo, hi);
      }
    }
  }

  /** Rows are numbered 2s for the terminals of state s and 2s+1 for its nonterminals. */
  ghost function KeyRow(z: Sizes, all: seq<seq<Action>>, k: nat): A.Row
    requires k < 2 * |all|
  {
    if k % 2 == 0 then RowOf(z, all[k / 2], 0, z.nterminal) else RowOf(z, all[k / 2], z.nterminal, z.nsymbol)
  }

  ghost function KeyCount(z: Sizes, all: seq<seq<Action>>, k: nat): nat
    requires k < 2 * |all|
  {
    if k % 2 == 0 then CountLive(all[k / 2], 0, z.nterminal) else CountLive(all[k / 2], z.nterminal, z.nsymbol)
  }

  /** An order the axset sort can leave: all rows, larger ones first. */
  ghost predicate IsSortedOrder(z: Sizes, all: seq<seq<Action>>, order: seq<nat>) {
    && (forall i :: 0 <= i < |order| ==> order[i] < 2 * |all|)
    && (forall k: nat :: k < 2 * |all| ==> k in order)
    && forall i, j :: 0 <= i < j < |order| ==> KeyCount(z, all, order[i]) >= KeyCount(z, all, order[j])
  }

  ghost predicate ActionsOk(z: Sizes, all: seq<seq<Action>>) {
    && |all| == z.nstate && z.nterminal <= z.nsymbol
    && forall s :: 0 <= s < |all| ==> OneLive(all[s]) && forall a :: a in all[s] ==> a.sp <= z.nsymbol
  }

  /** Counts the actions of one state and finds its default. */
  method CountActions(z: Sizes, acts: seq<Action>) returns (nTkn: nat, nNt: nat, dflt: int)
    requires z.nterminal <= z.nsymbol && forall a :: a in acts ==> a.sp <= z.nsymbol
    ensures nTkn == CountLive(acts, 0, z.nterminal) && nNt == CountLive(acts, z.nterminal, z.nsymbol)
    ensures dflt == Default(z, acts)
  {
    nTkn, nNt, dflt := 0, 0, z.nstate + z.nrule;
    for k := 0 to |acts|
      invariant nTkn == CountLive(acts[..k], 0, z.nterminal) && nNt == CountLive(acts[..k], z.nterminal, z.nsymbol)
      invariant dflt == Default(z, acts[..k])
    {
      assert acts[..k + 1][..k] == acts[..k];
      LiveHasCode(z, acts[k]);
      if Code(z, acts[k]) >= 0 {
        if acts[k].sp < z.nterminal { nTkn := nTkn + 1; }
        else if acts[k].sp < z.nsymbol { nNt := nNt + 1; }
        else { dflt := Code(z, acts[k]); }
      }
    }
    assert acts[..|acts|] == acts;
  }

  /** Offsets of the rows packed so far. */
  ghost predicate Packed(z: Sizes, all: seq<seq<Action>>, order: seq<nat>, i: nat, ofst: seq<Option<int>>, rows: map<int, A.Row>)
    requires i <= |order| && forall m :: 0 <= m < |order| ==> order[m] < 2 * |all|
  {
    && |ofst| == 2 * |all|
    && (forall k :: 0 <= k < |ofst| ==> (ofst[k].Some? <==> k in order[..i]))
    && forall k :: 0 <= k < |ofst| && ofst[k].Some? ==> ofst[k].value in rows && rows[ofst[k].value] == KeyRow(z, all, k)
  }

  lemma PackedStep(z: Sizes, all: seq<seq<Action>>, order: seq<nat>, i: nat, ofst: seq<Option<int>>, rows: map<int, A.Row>, o: int)
    requires i < |order| && forall m :: 0 <= m < |order| ==> order[m] < 2 * |all|
    requires Packed(z, all, order, i, ofst, rows)
    requires o in rows ==> rows[o] == KeyRow(z, all, order[i])
    ensures Packed(z, all, order, i + 1, ofst[order[i] := Some(o)], rows[o := KeyRow(z, all, order[i])])
  {
    hide KeyRow;
    assert order[..i + 1] == order[..i] + [order[i]];
  }

  /** The packing loop: largest rows first, until one is empty. */
  method PackRows(tab: A.Acttab, z: Sizes, all: seq<seq<Action>>, counts: seq<nat>, order: seq<nat>) returns (ofst: seq<Option<int>>)
    requires tab.Valid() && tab.pending == map[] && tab.rows == map[]
    requires ActionsOk(z, all) && IsSortedOrder(z, all, order)
    requires |counts| == 2 * |all| && forall k :: 0 <= k < |counts| ==> counts[k] == KeyCount(z, all, k)
    modifies tab
    ensures tab.Valid() && |ofst| == 2 * |all|
    ensures forall k :: 0 <= k < |ofst| ==>
              match ofst[k]
              case Some(o) => o in tab.rows && tab.rows[o] == KeyRow(z, all, k)
              case None => KeyRow(z, all, k) == map[]
  {
    hide KeyRow, KeyCount, RowOf, OneLive;
    ofst := seq(2 * |all|, _ => None);
    var i := 0;
    while i < |order| && counts[order[i]] > 0
      invariant 0 <= i <= |order|
      invariant tab.Valid() && tab.pending == map[]
      invariant Packed(z, all, order, i, ofst, tab.rows)
    {
      var k := order[i];
      var acts := all[k / 2];
      KeyFacts(z, all, k);
      var o;
      ghost var before := tab.rows;
      if k % 2 == 0 {
        o := AddRow(tab, z, acts, 0, z.nterminal);
      } else {
        o := AddRow(tab, z, acts, z.nterminal, z.nsymbol);
      }
      PackedStep(z, all, order, i, ofst, before, o);
      ofst := ofst[k := Some(o)];
      i := i + 1;
    }
    forall k | 0 <= k < |ofst| && ofst[k] == None
      ensures KeyRow(z, all, k) == map[]
    {
      var key: nat := k;
      assert key in order;
      var m :| 0 <= m < |order| && order[m] == k;
      assert order[m] !in order[..i];
      assert forall n :: 0 <= n < i ==> order[n] in order[..i];
      assert m >= i;
      assert KeyCount(z, all, order[i]) >= KeyCount(z, all, order[m]) || m == i;
      KeyFacts(z, all, k);
    }
  }

  lemma KeyFacts(z: Sizes, all: seq<seq<Action>>, k: nat)
    requires k < 2 * |all|
    ensures KeyRow(z, all, k) == if k % 2 == 0 then RowOf(z, all[k / 2], 0, z.nterminal) else RowOf(z, all[k / 2], z.nterminal, z.nsymbol)
    ensures KeyCount(z, all, k) > 0 <==> KeyRow(z, all, k) != map[]
  {
    CountLiveMeans(z, all[k / 2], 0, z.nterminal);
    CountLiveMeans(z, all[k / 2], z.nterminal, z.nsymbol);
  }

  // ---- Emission ----

  /** The emitted offsets: row numbers parity, parity+2, ... with rows that were never packed
      below all others. */
  method EmitOffsets(ofst: seq<Option<int>>, parity: nat, n: nat) returns (out: seq<int>, useDflt: int)
    requires |ofst| == 2 * n && parity < 2
    ensures |out| == n
    ensures forall s :: 0 <= s < n ==>
              match ofst[2 * s + parity]
              case Some(o) => out[s] == o && o != useDflt
              case None => out[s] == useDflt
  {
    var mn := 0;
    for s := 0 to n
      invariant forall m :: 0 <= m < s && ofst[2 * m + parity].Some? ==> mn <= ofst[2 * m + parity].value
    {
      if ofst[2 * s + parity].Some? && ofst[2 * s + parity].value < mn { mn := ofst[2 * s + parity].value; }
    }
    useDflt := mn - 1;
    out := seq(n, s requires 0 <= s < n => if ofst[2 * s + parity].Some? then ofst[2 * s + parity].value else useDflt);
  }

  /** Emitted entries: empty slots hold the symbol number that no lookup uses. */
  ghost predicate Emitted(table: seq<A.Entry>, n: nat, z: Sizes, action: seq<int>, lookahead: seq<int>) {
    && n <= |table| && |action| == |lookahead| == n
    && forall i :: 0 <= i < n ==>
         && lookahead[i] == (if table[i].lookahead < 0 then z.nsymbol else table[i].lookahead)
         && action[i] == (if table[i].action < 0 then z.nsymbol + z.nrule + 2 else table[i].action)
  }

  /** Reading the emitted arrays at a packed row's offset finds exactly the row. */
  lemma EmittedReads(table: seq<A.Entry>, n: nat, z: Sizes, action: seq<int>, lookahead: seq<int>, o: int, row: A.Row, x: nat)
    requires Emitted(table, n, z, action, lookahead) && A.Holds(table, o, row) && x < z.nsymbol
    requires forall k :: n <= k < |table| ==> table[k].lookahead == -1
    requires forall y :: y in row ==> row[y] >= 0
    ensures 0 <= o + x < n && lookahead[o + x] == x <==> x in row
    ensures x in row ==> action[o + x] == row[x]
  {
    assert A.Find(table, o, x) == A.Get(row, x);
  }

  /** The tables say what the actions mean. */
  ghost predicate TablesMean(t: Tables, z: Sizes, all: seq<seq<Action>>) {
    && t.Shape() && t.nstate == z.nstate == |all| && t.nrule == z.nrule && t.nsymbol == z.nsymbol
    && (forall s: nat, x: nat :: s < z.nstate && x < z.nterminal ==> t.FindShiftAction(s, x) == Meaning(z, all[s], x))
    && (forall s: nat, x: nat :: s < z.nstate && z.nterminal <= x < z.nsymbol ==> t.FindReduceAction(s, x) == Meaning(z, all[s], x))
    && (forall s: nat, x: nat :: s < z.nstate && z.nterminal <= x < z.nsymbol ==> t.FindShiftAction(s, x) == Default(z, all[s]))
  }

  /** What one row of the emitted tables gives for symbol x. */
  lemma RowReads(t: Tables, z: Sizes, acts: seq<Action>, table: seq<A.Entry>, o: Option<int>, useDflt: int, ofst: int, dflt: int,
                 lo: nat, hi: nat, x: nat)
    requires Emitted(table, |t.action|, z, t.action, t.lookahead) && x < z.nsymbol == t.nsymbol && |t.action| == |t.lookahead|
    requires forall k :: |t.action| <= k < |table| ==> table[k].lookahead == -1
    requires match o
             case Some(v) => ofst == v && v != useDflt && A.Holds(table, v, RowOf(z, acts, lo, hi))
             case None => ofst == useDflt && RowOf(z, acts, lo, hi) == map[]
    requires dflt == Default(z, acts)
    ensures var r := if ofst == useDflt then dflt
                     else if x == t.NoCode() then t.NoAction()
                     else if ofst + x < 0 || ofst + x >= |t.action| || t.lookahead[ofst + x] != x then dflt
                     else t.action[ofst + x];
            r == if lo <= x < hi then Meaning(z, acts, x) else Default(z, acts)
  {
    var row := RowOf(z, acts, lo, hi);
    assert x in row <==> lo <= x < hi && LiveFor(acts, x).Some?;
    match o
    case None =>
    case Some(v) =>
      forall y | y in row
        ensures row[y] >= 0
      {
        LiveForIsIn(acts, y);
        LiveHasCode(z, LiveFor(acts, y).value);
      }
      EmittedReads(table, |t.action|, z, t.action, t.lookahead, v, row, x);
  }

  /** The loop that counts the actions on all states. */
  method CountAll(z: Sizes, all: seq<seq<Action>>) returns (counts: seq<nat>, dflt: seq<int>)
    requires ActionsOk(z, all)
    ensures |counts| == 2 * |all| && |dflt| == |all|
    ensures forall k :: 0 <= k < |counts| ==> counts[k] == KeyCount(z, all, k)
    ensures forall s :: 0 <= s < |all| ==> dflt[s] == Default(z, all[s])
  {
    hide OneLive, Default;
    counts, dflt := [], [];
    for s := 0 to |all|
      invariant |counts| == 2 * s && |dflt| == s
      invariant forall k :: 0 <= k < |counts| ==> counts[k] == KeyCount(z, all, k)
      invariant forall m :: 0 <= m < s ==> dflt[m] == Default(z, all[m])
    {
      var nTkn, nNt, d := CountActions(z, all[s]);
      counts := counts + [nTkn, nNt];
      dflt := dflt + [d];
    }
  }

  /** Offsets and rows fit together. */
  ghost predicate OffsetsOk(z: Sizes, all: seq<seq<Action>>, table: seq<A.Entry>, ofst: seq<Option<int>>) {
    |ofst| == 2 * |all| &&
    forall k :: 0 <= k < |ofst| ==>
      match ofst[k]
      case Some(o) => A.Holds(table, o, KeyRow(z, all, k))
      case None => KeyRow(z, all, k) == map[]
  }

  ghost predicate OffsetsEmitted(ofst: seq<Option<int>>, parity: nat, out: seq<int>, useDflt: int) {
    |ofst| == 2 * |out| && parity < 2 &&
    forall s :: 0 <= s < |out| ==>
      match ofst[2 * s + parity]
      case Some(o) => out[s] == o && o != useDflt
      case None => out[s] == useDflt
  }

  lemma TableReads(t: Tables, z: Sizes, all: seq<seq<Action>>, table: seq<A.Entry>, ofst: seq<Option<int>>, s: nat, x: nat)
    requires t.Shape() && t.nstate == z.nstate == |all| && t.nrule == z.nrule && t.nsymbol == z.nsymbol && z.nterminal <= z.nsymbol
    requires Emitted(table, |t.action|, z, t.action, t.lookahead)
    requires forall k :: |t.action| <= k < |table| ==> table[k].lookahead == -1
    requires OffsetsOk(z, all, table, ofst)
    requires OffsetsEmitted(ofst, 0, t.shiftOfst, t.shiftUseDflt) && OffsetsEmitted(ofst, 1, t.reduceOfst, t.reduceUseDflt)
    requires s < z.nstate && x < z.nsymbol && t.dflt[s] == Default(z, all[s])
    ensures t.FindShiftAction(s, x) == if x < z.nterminal then Meaning(z, all[s], x) else Default(z, all[s])
    ensures z.nterminal <= x ==> t.FindReduceAction(s, x) == Meaning(z, all[s], x)
  {
    hide KeyRow, Default, Meaning, RowOf, A.Holds, Emitted;
    KeyFacts(z, all, 2 * s);
    KeyFacts(z, all, 2 * s + 1);
    RowReads(t, z, all[s], table, ofst[2 * s], t.shiftUseDflt, t.shiftOfst[s], t.dflt[s], 0, z.nterminal, x);
    RowReads(t, z, all[s], table, ofst[2 * s + 1], t.reduceUseDflt, t.reduceOfst[s], t.dflt[s], z.nterminal, z.nsymbol, x);
  }

  /** One order the library sort may leave the rows in. */
  method SortRows(z: Sizes, all: seq<seq<Action>>, counts: seq<nat>) returns (order: seq<nat>)
    requires |counts| == 2 * |all| && forall k :: 0 <= k < |counts| ==> counts[k] == KeyCount(z, all, k)
    ensures IsSortedOrder(z, all, order)
  {
    hide KeyCount;
    order := [];
    for k := 0 to |counts|
      invariant forall i :: 0 <= i < |order| ==> order[i] < k
      invariant forall m: nat :: m < k ==> m in order
      invariant forall i, j :: 0 <= i < j < |order| ==> counts[order[i]] >= counts[order[j]]
    {
      var p := 0;
      while p < |order| && counts[order[p]] >= counts[k]
        invariant 0 <= p <= |order|
        invariant forall i :: 0 <= i < p ==> counts[order[i]] >= counts[k]
      {
        p := p + 1;
      }
      InsertRow(counts, order, k, p);
      order := order[..p] + [k] + order[p..];
    }
  }

  lemma InsertRow(counts: seq<nat>, order: seq<nat>, k: nat, p: nat)
    requires k < |counts| && p <= |order| && forall i :: 0 <= i < |order| ==> order[i] < k
    requires forall i, j :: 0 <= i < j < |order| ==> counts[order[i]] >= counts[order[j]]
    requires forall i :: 0 <= i < p ==> counts[order[i]] >= counts[k]
    requires p < |order| ==> counts[order[p]] < counts[k]
    ensures var after := order[..p] + [k] + order[p..];
            && k in after && (forall m :: m in order ==> m in after)
            && (forall i :: 0 <= i < |after| ==> after[i] < k + 1)
            && (forall i, j :: 0 <= i < j < |after| ==> counts[after[i]] >= counts[after[j]])
  {
    var after := order[..p] + [k] + order[p..];
    assert after[p] == k;
    forall m | m in order
      ensures m in after
    {
      var i :| 0 <= i < |order| && order[i] == m;
      assert after[if i < p then i else i + 1] == m;
    }
  }

  /** ReportTable: tables that mean the given actions, whatever order the rows were sorted in. */
  method ReportTable(z: Sizes, all: seq<seq<Action>>, order: seq<nat>) returns (t: Tables)
    requires ActionsOk(z, all) && IsSortedOrder(z, all, order)
    ensures TablesMean(t, z, all)
  {
    hide KeyRow, KeyCount, IsSortedOrder, OneLive, Default, Meaning, RowOf, A.Holds, A.Owned;
    var counts, dflt := CountAll(z, all);
    var tab := new A.Acttab();
    var ofst := PackRows(tab, z, all, counts, order);
    var shiftOfst, shiftUse := EmitOffsets(ofst, 0, |all|);
    var reduceOfst, reduceUse := EmitOffsets(ofst, 1, |all|);
    var table, n := tab.aAction, tab.nAction;
    assert OffsetsOk(z, all, table, ofst);
    var action := seq(n, i requires 0 <= i < n => if table[i].action < 0 then z.nsymbol + z.nrule + 2 else table[i].action);
    var lookahead := seq(n, i requires 0 <= i < n => if table[i].lookahead < 0 then z.nsymbol else table[i].lookahead);
    t := Tables(action, lookahead, shiftOfst, reduceOfst, dflt, shiftUse, reduceUse, z.nstate, z.nrule, z.nsymbol);
    assert Emitted(table, n, z, action, lookahead);
    assert OffsetsEmitted(ofst, 0, shiftOfst, shiftUse) && OffsetsEmitted(ofst, 1, reduceOfst, reduceUse);
    TableMeansAll(t, z, all, table, ofst);
  }

  lemma TableMeansAll(t: Tables, z: Sizes, all: seq<seq<Action>>, table: seq<A.Entry>, ofst: seq<Option<int>>)
    requires t.Shape() && t.nstate == z.nstate == |all| && t.nrule == z.nrule && t.nsymbol == z.nsymbol && z.nterminal <= z.nsymbol
    requires Emitted(table, |t.action|, z, t.action, t.lookahead)
    requires forall k :: |t.action| <= k < |table| ==> table[k].lookahead == -1
    requires OffsetsOk(z, all, table, ofst)
    requires OffsetsEmitted(ofst, 0, t.shiftOfst, t.shiftUseDflt) && OffsetsEmitted(ofst, 1, t.reduceOfst, t.reduceUseDflt)
    requires forall s :: 0 <= s < z.nstate ==> t.dflt[s] == Default(z, all[s])
    ensures TablesMean(t, z, all)
  {
    hide Default, Meaning, Emitted, OffsetsOk, OffsetsEmitted, Tables.FindShiftAction, Tables.FindReduceAction;
    forall s: nat, x: nat | s < z.nstate && x < z.nsymbol
      ensures t.FindShiftAction(s, x) == if x < z.nterminal then Meaning(z, all[s], x) else Default(z, all[s])
      ensures z.nterminal <= x ==> t.FindReduceAction(s, x) == Meaning(z, all[s], x)
    {
      TableReads(t, z, all, table, ofst, s, x);
    }
  }
}
