/** The per-connection cache of condition results (src/configfile-glue.c): a tree of if/else chains
    whose nodes are evaluated on demand and forgotten in part when a value changes. */
module ConditionCache {

  datatype Result = Unset | Skip | False | True

  datatype Operator = Eq | Ne | Match | NoMatch | Else

  /** A condition: its parent, the branches before and after it in its chain (-1 for none), the
      conditions nested in it, and what it looks at. */
  datatype Node = Node(parent: int, prev: int, next: int, children: seq<nat>, comp: nat, cond: Operator)

  /** How the current value of a node's item compares with its string or pattern, if it can be
      compared. */
  datatype Compared = Same | Different | Failed

  /** Which items are known, and what comparing finds. */
  datatype Env = Env(valid: set<nat>, compared: seq<Compared>)

  /** Parents and earlier branches come first; chains are doubly linked within one parent. */
  ghost predicate NodeOk(cfg: seq<Node>, i: nat)
    requires i < |cfg|
  {
    var n := cfg[i];
    && -1 <= n.parent < i && -1 <= n.prev < i
    && (n.next == -1 || i < n.next < |cfg|)
    && (n.prev >= 0 ==> cfg[n.prev].next == i && cfg[n.prev].parent == n.parent)
    && (n.next >= 0 ==> cfg[n.next].prev == i)
    && (n.parent >= 0 ==> i in cfg[n.parent].children)
    && forall c :: c in n.children ==> c < |cfg| && cfg[c].parent == i
  }

  ghost predicate ConfigOk(cfg: seq<Node>) {
    forall i :: 0 <= i < |cfg| ==> NodeOk(cfg, i)
  }

  ghost predicate EnvOk(cfg: seq<Node>, env: Env) {
    |env.compared| == |cfg|
  }

  /** The rules of a node alone. */
  function Rules(cond: Operator, c: Compared): Result {
    match cond
    case Else => True
    case Eq => if c.Same? then True else False
    case Match => if c.Same? then True else False
    case Ne => if c.Different? then True else False
    case NoMatch => if c.Different? then True else False
  }

  /** When the value can be compared, "==" and "=~" hold exactly if it is the same, and "!=" and "!~" are their
      opposites; when not, all four fail; "else" always holds. */
  lemma RulesAreOpposite(c: Compared)
    ensures Rules(Else, c).True?
    ensures Rules(Eq, c).True? <==> c.Same?
    ensures Rules(Match, c).True? <==> c.Same?
    ensures Rules(Ne, c).True? <==> c.Different?
    ensures Rules(NoMatch, c).True? <==> c.Different?
    ensures !c.Failed? ==> (Rules(Ne, c).True? <==> Rules(Eq, c).False?) && (Rules(NoMatch, c).True? <==> Rules(Match, c).False?)
    ensures forall cond :: Rules(cond, c).True? || Rules(cond, c).False?
  {
  }

  /** What a condition evaluates to from an empty cache. */
  function Eval(cfg: seq<Node>, env: Env, i: nat): (r: Result)
    requires ConfigOk(cfg) && EnvOk(cfg, env) && i < |cfg|
    decreases i
  {
    assert NodeOk(cfg, i);
    var n := cfg[i];
    if n.parent > 0 && Eval(cfg, env, n.parent).Unset? then Unset
    else if n.prev >= 0 && !Eval(cfg, env, n.prev).False? then
      if Eval(cfg, env, n.prev).Unset? then Unset else Skip
    else if n.comp !in env.valid then Unset
    else Rules(n.cond, env.compared[i])
  }

  /** A result of a node, and the result of its rules alone; the latter is never Skip. */
  datatype Cache = Cache(result: Result, local: Result)

  /** Whether node d decides if node j is looked at at all. */
  predicate DependsOn(cfg: seq<Node>, j: nat, d: nat)
    requires j < |cfg|
  {
    d == cfg[j].prev || (d == cfg[j].parent && d > 0)
  }

  /** A node whose result is set depends only on set nodes, or on those in `open`. */
  ghost predicate Linked(cfg: seq<Node>, cs: seq<Cache>, open: set<nat>)
    requires |cs| == |cfg|
  {
    forall j: nat, d: nat :: j < |cfg| && d < |cfg| && DependsOn(cfg, j, d) && !cs[j].result.Unset? && cs[d].result.Unset? ==> d in open
  }

  /** What is cached is what evaluation gives. */
  ghost predicate CoherentAt(cfg: seq<Node>, cs: seq<Cache>, env: Env, i: nat)
    requires ConfigOk(cfg) && EnvOk(cfg, env) && |cs| == |cfg| && i < |cfg|
  {
    && (!cs[i].result.Unset? ==> cs[i].result == Eval(cfg, env, i))
    && (!cs[i].local.Unset? ==> cfg[i].comp in env.valid && cs[i].local == Rules(cfg[i].cond, env.compared[i]))
  }

  ghost predicate Coherent(cfg: seq<Node>, cs: seq<Cache>, env: Env) {
    && ConfigOk(cfg) && EnvOk(cfg, env) && |cs| == |cfg| && Linked(cfg, cs, {})
    && forall i :: 0 <= i < |cfg| ==> CoherentAt(cfg, cs, env, i)
  }

  /** Results once set stay. */
  ghost predicate Extends(cs: seq<Cache>, later: seq<Cache>) {
    && |later| == |cs|
    && forall i :: 0 <= i < |cs| && !cs[i].result.Unset? ==> later[i] == cs[i]
  }

  /** Results were only forgotten. */
  ghost predicate Forgets(cs: seq<Cache>, later: seq<Cache>) {
    && |later| == |cs|
    && forall i :: 0 <= i < |cs| ==> later[i] == cs[i] || later[i] == cs[i].(result := Unset)
  }

  // Steps of the cache, on values.

  /** Storing the value of a node whose dependencies are set. */
  lemma StoreCoherent(cfg: seq<Node>, cs: seq<Cache>, env: Env, i: nat)
    requires Coherent(cfg, cs, env) && i < |cfg| && cs[i].result.Unset?
    requires !Eval(cfg, env, i).Unset? ==>
      forall d: nat :: d < |cfg| && DependsOn(cfg, i, d) ==> !cs[d].result.Unset?
    ensures var r := Eval(cfg, env, i);
      var later := cs[i := Cache(r, if r.False? || r.True? then r else cs[i].local)];
      Coherent(cfg, later, env) && Extends(cs, later)
  {
    var r := Eval(cfg, env, i);
    var later := cs[i := Cache(r, if r.False? || r.True? then r else cs[i].local)];
    forall j | 0 <= j < |cfg|
      ensures CoherentAt(cfg, later, env, j)
    {
      assert CoherentAt(cfg, cs, env, j);
      if j == i { assert NodeOk(cfg, i); }
    }
  }

  /** A new item, or values not looked at so far, change no result that is set. */
  ghost predicate Grown(cfg: seq<Node>, env: Env, later: Env) {
    && EnvOk(cfg, env) && EnvOk(cfg, later) && env.valid <= later.valid
    && forall i :: 0 <= i < |cfg| && cfg[i].comp in env.valid ==> later.compared[i] == env.compared[i]
  }

  lemma {:induction false} EvalGrown(cfg: seq<Node>, env: Env, later: Env, i: nat)
    requires ConfigOk(cfg) && Grown(cfg, env, later) && i < |cfg|
    ensures !Eval(cfg, env, i).Unset? ==> Eval(cfg, later, i) == Eval(cfg, env, i)
    decreases i
  {
    assert NodeOk(cfg, i);
    if cfg[i].parent > 0 { EvalGrown(cfg, env, later, cfg[i].parent); }
    if cfg[i].prev >= 0 { EvalGrown(cfg, env, later, cfg[i].prev); }
  }

  lemma GrownCoherent(cfg: seq<Node>, cs: seq<Cache>, env: Env, later: Env)
    requires Coherent(cfg, cs, env) && Grown(cfg, env, later)
    ensures Coherent(cfg, cs, later)
  {
    hide Eval;
    forall i | 0 <= i < |cfg|
      ensures CoherentAt(cfg, cs, later, i)
    {
      assert CoherentAt(cfg, cs, env, i);
      EvalGrown(cfg, env, later, i);
    }
  }

  /** The values of one item are others. */
  ghost predicate Changed(cfg: seq<Node>, env: Env, later: Env, item: nat) {
    && EnvOk(cfg, env) && EnvOk(cfg, later) && later.valid == env.valid
    && forall i :: 0 <= i < |cfg| && cfg[i].comp != item ==> later.compared[i] == env.compared[i]
  }

  /** No node that looks at the item has a result. */
  ghost predicate ItemUnset(cfg: seq<Node>, cs: seq<Cache>, item: nat, upto: nat)
    requires |cs| == |cfg| >= upto
  {
    forall i :: 0 <= i < upto && cfg[i].comp == item ==> cs[i] == Cache(Unset, Unset)
  }

  /** A set node that depends, step by step, only on set nodes does not see a change of an item
      none of whose nodes is set. */
  lemma {:induction false} EvalChanged(cfg: seq<Node>, cs: seq<Cache>, env: Env, later: Env, item: nat, i: nat)
    requires ConfigOk(cfg) && Changed(cfg, env, later, item) && |cs| == |cfg| && i < |cfg|
    requires Linked(cfg, cs, {}) && ItemUnset(cfg, cs, item, |cfg|) && !cs[i].result.Unset?
    ensures Eval(cfg, later, i) == Eval(cfg, env, i)
    decreases i
  {
    assert NodeOk(cfg, i);
    if cfg[i].parent > 0 {
      assert DependsOn(cfg, i, cfg[i].parent);
      EvalChanged(cfg, cs, env, later, item, cfg[i].parent);
    }
    if cfg[i].prev >= 0 {
      assert DependsOn(cfg, i, cfg[i].prev);
      EvalChanged(cfg, cs, env, later, item, cfg[i].prev);
    }
  }

  lemma ChangedCoherent(cfg: seq<Node>, was: seq<Cache>, cs: seq<Cache>, env: Env, later: Env, item: nat)
    requires Coherent(cfg, was, env) && Changed(cfg, env, later, item)
    requires |cs| == |cfg| && Linked(cfg, cs, {}) && ItemUnset(cfg, cs, item, |cfg|)
    requires forall i :: 0 <= i < |cfg| ==> (cs[i].result.Unset? || cs[i].result == was[i].result) && (cs[i].local.Unset? || cs[i].local == was[i].local)
    ensures Coherent(cfg, cs, later)
  {
    hide Eval;
    forall i | 0 <= i < |cfg|
      ensures CoherentAt(cfg, cs, later, i)
    {
      assert CoherentAt(cfg, was, env, i);
      if !cs[i].result.Unset? {
        EvalChanged(cfg, cs, env, later, item, i);
      }
    }
  }

  /** Once the first branches of the chains in a node are forgotten, so are all branches: the walk
      along a chain may stop at a branch that is not set. */
  lemma {:induction false} ChainsUnset(cfg: seq<Node>, cs: seq<Cache>, open: set<nat>, i: nat, j: nat)
    requires ConfigOk(cfg) && |cs| == |cfg| && Linked(cfg, cs, open) && i < j < |cfg| && cfg[j].parent == i
    requires forall d :: d in open ==> d <= i
    requires forall c :: c in cfg[i].children && c < |cfg| && cfg[c].prev == -1 ==> cs[c].result.Unset?
    ensures cs[j].result.Unset?
    decreases j
  {
    assert NodeOk(cfg, j);
    if cfg[j].prev >= 0 {
      var p := cfg[j].prev;
      assert NodeOk(cfg, p);
      ChainsUnset(cfg, cs, open, i, p);
      assert DependsOn(cfg, j, p);
    }
  }

  // The connection.

  class Connection {
    const cfg: seq<Node>
    const caches: array<Cache>
    /** conditional_is_valid. */
    var valid: set<nat>
    /** What the current request compares to. */
    var compared: seq<Compared>

    ghost function Now(): Env
      reads this
    {
      Env(valid, compared)
    }

    ghost predicate Valid()
      reads this, caches
      ensures Valid() ==> ConfigOk(cfg) && EnvOk(cfg, Now())
    {
      Coherent(cfg, caches[..], Now())
    }

    constructor (cfg: seq<Node>, compared: seq<Compared>)
      requires ConfigOk(cfg) && |compared| == |cfg|
      ensures Valid() && fresh(caches) && this.cfg == cfg && Now() == Env({}, compared)
    {
      this.cfg, this.compared, valid := cfg, compared, {};
      caches := new Cache[|cfg|](i => Cache(Unset, Unset));
    }

    /** config_check_cond_nocache: evaluates parent and earlier branch, then the node itself. */
    method CheckNocache(i: nat) returns (r: Result)
      requires Valid() && i < |cfg| && caches[i].result.Unset?
      modifies caches
      ensures Valid() && Extends(old(caches[..]), caches[..])
      ensures forall j :: i <= j < |cfg| ==> caches[j] == old(caches[j])
      ensures r == Eval(cfg, Now(), i)
      ensures !r.Unset? ==> forall d: nat :: d < |cfg| && DependsOn(cfg, i, d) ==> !caches[d].result.Unset?
      decreases i, 0
    {
      r := False;
      assert NodeOk(cfg, i);
      if cfg[i].parent > 0 {
        var p := CheckCached(cfg[i].parent);
        if p.Unset? { return Unset; }
        // a parent that is false makes the result Skip here, but every way on overwrites it
        if !p.True? { r := Skip; }
      }
      if cfg[i].prev >= 0 {
        var p := CheckCached(cfg[i].prev);
        match p {
          case Unset => return Unset;
          case Skip => return Skip;
          case True => return Skip;
          case False =>
        }
      }
      if cfg[i].comp !in valid { return Unset; }
      assert CoherentAt(cfg, caches[..], Now(), i);
      if caches[i].local.True? || caches[i].local.False? { return caches[i].local; }
      match cfg[i].cond {
        case Else => r := True;
        case Eq => r := if compared[i].Same? then True else False;
        case Match => r := if compared[i].Same? then True else False;
        case Ne => r := if compared[i].Different? then True else False;
        case NoMatch => r := if compared[i].Different? then True else False;
      }
    }

    /** config_check_cond_cached: the cached answer is what evaluation from an empty cache gives. */
    method CheckCached(i: nat) returns (r: Result)
      requires Valid() && i < |cfg|
      modifies caches
      ensures Valid() && Extends(old(caches[..]), caches[..])
      ensures r == Eval(cfg, Now(), i) == caches[i].result
      ensures forall j :: i < j < |cfg| ==> caches[j] == old(caches[j])
      decreases i, 1
    {
      assert CoherentAt(cfg, caches[..], Now(), i);
      if caches[i].result.Unset? {
        r := CheckNocache(i);
        StoreCoherent(cfg, caches[..], Now(), i);
        ghost var before := caches[..];
        caches[i] := Cache(r, if r.False? || r.True? then r else caches[i].local);
        assert caches[..] == before[i := caches[i]];
      }
      return caches[i].result;
    }
  
    /** config_check_cond. */
    method CheckCond(i: nat) returns (holds: bool)
      requires Valid() && i < |cfg|
      modifies caches
      ensures Valid() && holds == Eval(cfg, Now(), i).True?
    {
      var r := CheckCached(i);
      return r.True?;
    }

    /** config_cond_clear_node: forget the result of a node and of all that hangs on it. The walk
        stops at nodes that are not set; `open` are the nodes above whose turn is not over. */
    method ClearNode(i: nat, ghost open: set<nat>)
      requires ConfigOk(cfg) && caches.Length == |cfg| && i < |cfg| && (forall d :: d in open ==> d < i)
      requires Linked(cfg, caches[..], open)
      modifies caches
      ensures Linked(cfg, caches[..], open) && caches[i].result.Unset? && Forgets(old(caches[..]), caches[..])
      decreases |cfg| - i
    {
      if caches[i].result.Unset? { return; }
      assert NodeOk(cfg, i);
      ghost var inside := open + {i};
      caches[i] := caches[i].(result := Unset);
      var children := cfg[i].children;
      for k := 0 to |children|
        invariant Linked(cfg, caches[..], inside) && caches[i].result.Unset? && Forgets(old(caches[..]), caches[..])
        invariant forall c :: c in children[..k] && c < |cfg| && cfg[c].prev == -1 ==> caches[c].result.Unset?
      {
        var c := children[k];
        assert c in children && NodeOk(cfg, c);
        if cfg[c].prev == -1 { ClearNode(c, inside); }
        assert children[..k + 1] == children[..k] + [c];
      }
      assert children[..|children|] == children;
      forall j | i < j < |cfg| && cfg[j].parent == i
        ensures caches[j].result.Unset?
      {
        ChainsUnset(cfg, caches[..], inside, i, j);
      }
      if cfg[i].next != -1 { ClearNode(cfg[i].next, inside); }
      forall j: nat, d: nat | j < |cfg| && d < |cfg| && DependsOn(cfg, j, d) && !caches[j].result.Unset? && caches[d].result.Unset?
        ensures d in open
      {
        assert NodeOk(cfg, j);
        assert d in inside;
      }
    }

    /** config_cond_cache_reset_item, after the values of the item changed from those of `before`:
        what is still cached is right for the new values. */
    method ResetItem(item: nat, ghost before: Env)
      requires Coherent(cfg, caches[..], before) && Changed(cfg, before, Now(), item)
      modifies caches
      ensures Valid()
    {
      ghost var was := caches[..];
      for i := 0 to |cfg|
        invariant |caches[..]| == |cfg| && Linked(cfg, caches[..], {}) && ItemUnset(cfg, caches[..], item, i)
        invariant forall j :: 0 <= j < |cfg| ==>
          (caches[j].result.Unset? || caches[j].result == was[j].result) && (caches[j].local.Unset? || caches[j].local == was[j].local)
      {
        if item == cfg[i].comp {
          caches[i] := caches[i].(local := Unset);
          ClearNode(i, {});
        }
      }
      ChangedCoherent(cfg, was, caches[..], before, Now(), item);
    }

    /** The values of an item change and its cached results are reset. */
    method Change(item: nat, values: seq<Compared>)
      requires Valid() && Changed(cfg, Now(), Env(valid, values), item)
      modifies this, caches
      ensures Valid() && Now() == Env(old(valid), values)
    {
      ghost var before := Now();
      compared := values;
      ResetItem(item, before);
    }

    /** An item becomes known, with its values; nothing is reset. */
    method MakeAvailable(item: nat, values: seq<Compared>)
      requires Valid() && Grown(cfg, Now(), Env(valid + {item}, values))
      modifies this
      ensures Valid() && Now() == Env(old(valid) + {item}, values)
    {
      GrownCoherent(cfg, caches[..], Now(), Env(valid + {item}, values));
      valid := valid + {item};
      compared := values;
    }

    /** config_cond_cache_reset, with the values of the next request. */
    method Reset(values: seq<Compared>)
      requires Valid() && |values| == |cfg|
      modifies this, caches
      ensures Valid() && Now() == Env({}, values)
    {
      for i := 0 to |cfg|
        invariant |caches[..]| == |cfg|
        invariant forall j :: 0 <= j < i ==> caches[j] == Cache(Unset, Unset)
      {
        caches[i] := Cache(Unset, Unset);
      }
      valid, compared := {}, values;
    }

    /** Any run: every answer is the one evaluation from an empty cache gives at that moment. */
    method Play(events: seq<Event>) returns (answers: seq<bool>)
      requires Valid() && Allowed(cfg, Now(), events)
      modifies this, caches
      ensures Valid() && answers == Answers(cfg, old(Now()), events)
    {
      hide Eval, Coherent, Changed, Grown, Linked, CoherentAt, Connection.Valid;
      answers := [];
      assert events[0..] == events;
      for k := 0 to |events|
        invariant Valid() && Allowed(cfg, Now(), events[k..])
        invariant answers + Answers(cfg, Now(), events[k..]) == Answers(cfg, old(Now()), events)
      {
        assert events[k..][0] == events[k] && events[k..][1..] == events[k + 1..];
        AllowedStep(cfg, Now(), events[k..]);
        match events[k] {
          case Check(i) =>
            var answer := CheckCond(i);
            answers := answers + [answer];
          case Available(item, values) =>
            MakeAvailable(item, values);
          case Changes(item, values) =>
            Change(item, values);
          case Resets(values) =>
            Reset(values);
        }
      }
    }
  }

  // Runs.

  datatype Event =
    | Check(i: nat)
    | Available(item: nat, values: seq<Compared>)
    | Changes(item: nat, values: seq<Compared>)
    | Resets(values: seq<Compared>)

  function After(env: Env, e: Event): Env {
    match e
    case Check(_) => env
    case Available(item, values) => Env(env.valid + {item}, values)
    case Changes(_, values) => Env(env.valid, values)
    case Resets(values) => Env({}, values)
  }

  /** Values change only together with a reset of their item, or before the item is known. */
  ghost predicate Allowed(cfg: seq<Node>, env: Env, events: seq<Event>)
    decreases |events|
  {
    events != [] ==>
      && EnvOk(cfg, After(env, events[0])) && Allowed(cfg, After(env, events[0]), events[1..])
      && match events[0]
         case Check(i) => i < |cfg|
         case Available(_, _) => Grown(cfg, env, After(env, events[0]))
         case Changes(item, _) => Changed(cfg, env, After(env, events[0]), item)
         case Resets(_) => true
  }

  lemma AllowedStep(cfg: seq<Node>, env: Env, events: seq<Event>)
    requires events != [] && Allowed(cfg, env, events)
    ensures EnvOk(cfg, After(env, events[0])) && Allowed(cfg, After(env, events[0]), events[1..])
  {
  }

  /** The answers without any cache. */
  ghost function Answers(cfg: seq<Node>, env: Env, events: seq<Event>): seq<bool>
    requires ConfigOk(cfg) && EnvOk(cfg, env) && Allowed(cfg, env, events)
    decreases |events|
  {
    if events == [] then []
    else
      (if events[0].Check? then [Eval(cfg, env, events[0].i).True?] else [])
      + Answers(cfg, After(env, events[0]), events[1..])
  }

  // What the answers mean.

  /** j is a later branch of the chain of i. */
  predicate LaterBranch(cfg: seq<Node>, i: nat, j: nat)
    requires i < |cfg| && j < |cfg|
    decreases j
  {
    0 <= cfg[j].prev < j && (cfg[j].prev == i || LaterBranch(cfg, i, cfg[j].prev))
  }

  /** Of an if/else chain at most one branch holds, and the later ones are skipped. */
  lemma {:induction false} OneBranch(cfg: seq<Node>, env: Env, i: nat, j: nat)
    requires ConfigOk(cfg) && EnvOk(cfg, env) && i < |cfg| && j < |cfg| && LaterBranch(cfg, i, j)
    requires Eval(cfg, env, i).True?
    ensures Eval(cfg, env, j).Skip?
    decreases j
  {
    assert NodeOk(cfg, j);
    if cfg[j].prev != i {
      OneBranch(cfg, env, i, cfg[j].prev);
    }
    SameParent(cfg, i, j);
  }

  lemma {:induction false} SameParent(cfg: seq<Node>, i: nat, j: nat)
    requires ConfigOk(cfg) && i < |cfg| && j < |cfg| && LaterBranch(cfg, i, j)
    ensures cfg[j].parent == cfg[i].parent
    decreases j
  {
    assert NodeOk(cfg, j);
    if cfg[j].prev != i {
      SameParent(cfg, i, cfg[j].prev);
    }
  }

  /** The item of a node is known and its rules alone give r. */
  predicate OwnIs(cfg: seq<Node>, env: Env, i: nat, r: Result)
    requires EnvOk(cfg, env) && i < |cfg|
  {
    cfg[i].comp in env.valid && Rules(cfg[i].cond, env.compared[i]) == r
  }

  /** A node is looked at: its parent, if any, is decided, and the rules of every earlier branch of
      its chain are false. */
  ghost predicate Reached(cfg: seq<Node>, env: Env, i: nat)
    requires ConfigOk(cfg) && EnvOk(cfg, env) && i < |cfg|
  {
    && (0 < cfg[i].parent < i ==> !Eval(cfg, env, cfg[i].parent).Unset?)
    && forall j: nat :: j < |cfg| && LaterBranch(cfg, j, i) ==> OwnIs(cfg, env, j, False)
  }

  /** A node holds, or fails, exactly if it is looked at and its own rules say so. Of the conditions
      around it only the direct parent matters, and not whether that one holds. */
  lemma {:induction false} HoldsIff(cfg: seq<Node>, env: Env, i: nat)
    requires ConfigOk(cfg) && EnvOk(cfg, env) && i < |cfg|
    ensures Eval(cfg, env, i).True? <==> Reached(cfg, env, i) && OwnIs(cfg, env, i, True)
    ensures Eval(cfg, env, i).False? <==> Reached(cfg, env, i) && OwnIs(cfg, env, i, False)
    decreases i
  {
    assert NodeOk(cfg, i);
    if cfg[i].prev >= 0 {
      var p: nat := cfg[i].prev;
      HoldsIff(cfg, env, p);
      assert NodeOk(cfg, p);
      assert LaterBranch(cfg, p, i);
      forall j: nat | j < |cfg|
        ensures LaterBranch(cfg, j, i) <==> j == p || LaterBranch(cfg, j, p)
      {
      }
    }
  }

  /** A nested condition can hold although the one around it does not. */
  lemma NestedWithoutParent() returns (cfg: seq<Node>, env: Env)
    ensures ConfigOk(cfg) && EnvOk(cfg, env) && |cfg| == 3 && cfg[2].parent == 1
    ensures Eval(cfg, env, 2).True? && Eval(cfg, env, 1).False?
  {
    cfg := [Node(-1, -1, -1, [1], 0, Else), Node(0, -1, -1, [2], 1, Eq), Node(1, -1, -1, [], 2, Eq)];
    env := Env({1, 2}, [Same, Different, Same]);
    assert NodeOk(cfg, 0) && NodeOk(cfg, 1) && NodeOk(cfg, 2);
    assert ConfigOk(cfg);
    assert Eval(cfg, env, 1).False?;
    assert Eval(cfg, env, 2).True?;
  }
}
