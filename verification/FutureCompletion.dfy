/**
 When a chain of `Then` calls completes. A future can be moved into an expression only once, so an expression that
 comes to use the same leaf future twice gets stuck; it is the only way to.

 The proof keeps accounts. A token `Use(k)` stands for a use of leaf future `k` that is still to come and a token
 `Feed(p)` for somebody who will resolve promise `p`; every activity and every continuation left in a cell carries some.
  */
module FutureCompletion {
  import opened Common
  import opened Outcomes
  import opened Sequential
  import opened FutureChain

  datatype Token = Use(k: nat) | Feed(p: nat)

  function Bit(b: bool): nat { if b then 1 else 0 }

  function UsesOf(uses: multiset<nat>, x: Token): nat {
    if x.Use? then uses[x.k] else 0
  }

  /** The leaf futures that the callback of `w` comes to use. */
  ghost function CallbackUses(w: Waiter, o: Outcome, env: Env): multiset<nat> {
    match w
    case OnValue(f, _) => if o.Val? then Result(f(o.v), env).uses else multiset{}
    case OnFuture(g, _) => Result(g(o), env).uses
    case Relay(_) => multiset{}
  }

  ghost function CallbackCount(w: Waiter, o: Outcome, env: Env, x: Token): nat {
    Bit(x == Feed(w.p)) + UsesOf(CallbackUses(w, o, env), x)
  }

  ghost function FramesCount(ks: Frames, e: Expr, env: Env, x: Token): nat
    decreases ks
  {
    match ks
    case Nil => 0
    case Cons(k, rest) =>
      UsesOf(CallbackUses(WaiterOf(k, 0), Result(e, env).o, env), x) + FramesCount(rest, Chain(e, k), env, x)
  }

  function DestCount(d: Dest, x: Token): nat {
    Bit(d.Into? && x == Feed(d.p))
  }

  ghost function ActCount(spec: seq<Expr>, env: Env, a: Activity, x: Token): nat {
    match a
    case Building(e, ks, d) => UsesOf(Result(e, env).uses, x) + FramesCount(ks, e, env, x) + DestCount(d, x)
    case Built(c, ks, d, _) => if c >= |spec| then 0 else FramesCount(ks, spec[c], env, x) + DestCount(d, x)
    case Running(w, o) => CallbackCount(w, o, env, x)
    case Resolving(p, _) => Bit(x == Feed(p))
    case Ended => 0
  }

  ghost function CellCount(e: Expr, env: Env, cell: Cell, x: Token): nat {
    if cell.result.None? && cell.waiter.Some? then CallbackCount(cell.waiter.value, Result(e, env).o, env, x) else 0
  }

  ghost function ActsCount(spec: seq<Expr>, env: Env, acts: seq<Activity>, x: Token): nat {
    if acts == [] then 0 else ActsCount(spec, env, acts[..|acts| - 1], x) + ActCount(spec, env, acts[|acts| - 1], x)
  }

  ghost function CellsCount(spec: seq<Expr>, env: Env, cells: seq<Cell>, x: Token): nat
    requires |cells| <= |spec|
  {
    if cells == [] then 0
    else CellsCount(spec, env, cells[..|cells| - 1], x) + CellCount(spec[|cells| - 1], env, cells[|cells| - 1], x)
  }

  /** Uses made already and leaf promises nobody has begun to resolve count too. */
  function OpenCount(pending: set<nat>, moved: set<nat>, x: Token): nat {
    match x
    case Use(k) => Bit(k in moved)
    case Feed(p) => Bit(p in pending)
  }

  ghost function Count(s: State, env: Env, x: Token): nat
    requires |s.cells| == |s.spec|
  {
    ActsCount(s.spec, env, s.acts, x) + CellsCount(s.spec, env, s.cells, x) + OpenCount(s.pending, s.moved, x)
  }

  /** What there must be: each use that sequential evaluation makes, and one feeder of each unresolved promise. */
  ghost function Due(s: State, env: Env, main: Expr, x: Token): nat {
    match x
    case Use(k) => Result(main, env).uses[k]
    case Feed(p) => Bit(p < |s.cells| && s.cells[p].result.None?)
  }

  ghost predicate Balanced(s: State, env: Env, main: Expr)
    requires |s.cells| == |s.spec|
  {
    forall x: Token :: Count(s, env, x) == Due(s, env, main, x)
  }

  // ---------------------------------------------------------------------------------------------
  // The accounts under the operations steps are made of

  lemma {:induction false} ActsCountUpdate(spec: seq<Expr>, env: Env, acts: seq<Activity>, i: nat, a: Activity,
                                           x: Token)
    requires i < |acts|
    ensures ActsCount(spec, env, acts[i := a], x) ==
            ActsCount(spec, env, acts, x) - ActCount(spec, env, acts[i], x) + ActCount(spec, env, a, x)
  {
    var n := |acts| - 1;
    if i < n {
      assert acts[i := a][..n] == acts[..n][i := a];
      ActsCountUpdate(spec, env, acts[..n], i, a, x);
    } else {
      assert acts[i := a][..n] == acts[..n];
    }
  }

  lemma {:induction false} CellsCountUpdate(spec: seq<Expr>, env: Env, cells: seq<Cell>, c: nat, cell: Cell, x: Token)
    requires c < |cells| <= |spec|
    ensures CellsCount(spec, env, cells[c := cell], x) ==
            CellsCount(spec, env, cells, x) - CellCount(spec[c], env, cells[c], x) + CellCount(spec[c], env, cell, x)
  {
    var n := |cells| - 1;
    if c < n {
      assert cells[c := cell][..n] == cells[..n][c := cell];
      CellsCountUpdate(spec, env, cells[..n], c, cell, x);
    } else {
      assert cells[c := cell][..n] == cells[..n];
    }
  }

  lemma {:induction false} ActsCountAlloc(spec: seq<Expr>, env: Env, acts: seq<Activity>, e: Expr, x: Token)
    requires forall i :: 0 <= i < |acts| && acts[i].Built? ==> acts[i].c < |spec|
    ensures ActsCount(spec + [e], env, acts, x) == ActsCount(spec, env, acts, x)
  {
    if acts != [] { ActsCountAlloc(spec, env, acts[..|acts| - 1], e, x); }
  }

  lemma {:induction false} CellsCountAlloc(spec: seq<Expr>, env: Env, cells: seq<Cell>, e: Expr, x: Token)
    requires |cells| <= |spec|
    ensures CellsCount(spec + [e], env, cells, x) == CellsCount(spec, env, cells, x)
  {
    if cells != [] { CellsCountAlloc(spec, env, cells[..|cells| - 1], e, x); }
  }

  lemma BecomeCount(s: State, env: Env, i: nat, a: Activity, x: Token)
    requires |s.cells| == |s.spec| && i < |s.acts|
    ensures Count(Become(s, i, a), env, x) ==
            Count(s, env, x) - ActCount(s.spec, env, s.acts[i], x) + ActCount(s.spec, env, a, x)
  {
    ActsCountUpdate(s.spec, env, s.acts, i, a, x);
  }

  lemma SpawnCount(s: State, env: Env, a: Activity, x: Token)
    requires |s.cells| == |s.spec|
    ensures Count(s.(acts := s.acts + [a]), env, x) == Count(s, env, x) + ActCount(s.spec, env, a, x)
  {
    assert (s.acts + [a])[..|s.acts|] == s.acts;
  }

  lemma SetCellCount(s: State, env: Env, c: nat, cell: Cell, x: Token)
    requires |s.cells| == |s.spec| && c < |s.cells|
    ensures Count(s.(cells := s.cells[c := cell]), env, x) ==
            Count(s, env, x) - CellCount(s.spec[c], env, s.cells[c], x) + CellCount(s.spec[c], env, cell, x)
  {
    CellsCountUpdate(s.spec, env, s.cells, c, cell, x);
  }

  lemma AllocCount(s: State, env: Env, main: Expr, leaves: nat, cell: Cell, e: Expr, x: Token)
    requires Sound(s, env, main, leaves) && cell.waiter.None?
    ensures Count(Alloc(s, cell, e), env, x) == Count(s, env, x)
  {
    forall i | 0 <= i < |s.acts| && s.acts[i].Built? ensures s.acts[i].c < |s.spec| {
      assert ActOk(s.spec, env, main, s.acts[i]);
    }
    ActsCountAlloc(s.spec, env, s.acts, e, x);
    CellsCountAlloc(s.spec, env, s.cells, e, x);
    assert (s.cells + [cell])[..|s.cells|] == s.cells;
  }

  lemma SetCallbackCount(s: State, env: Env, main: Expr, leaves: nat, c: nat, w: Waiter, x: Token)
    requires Sound(s, env, main, leaves) && c < |s.cells| && Untouched(s.cells[c])
    ensures Count(SetCallback(s, c, w), env, x) == Count(s, env, x) + CallbackCount(w, Result(s.spec[c], env).o, env, x)
  {
    var cell := s.cells[c];
    assert CellOk(s.spec, env, s.spec[c], cell);
    if cell.result.None? {
      SetCellCount(s, env, c, cell.(waiter := Some(w)), x);
    } else {
      SetCellCount(s, env, c, cell.(taken := true), x);
      SpawnCount(s.(cells := s.cells[c := cell.(taken := true)]), env, Running(w, cell.result.value), x);
    }
  }

  lemma SetResultCount(s: State, env: Env, p: nat, o: Outcome, x: Token)
    requires |s.cells| == |s.spec| && p < |s.cells| && WellFormed(s.cells[p]) && Evaluates(s.spec[p], env, o)
    ensures Count(SetResult(s, p, o), env, x) == Count(s, env, x)
  {
    var cell := s.cells[p];
    if cell.waiter.Some? && !cell.taken {
      SetCellCount(s, env, p, Cell(Some(o), true, cell.waiter), x);
      SpawnCount(s.(cells := s.cells[p := Cell(Some(o), true, cell.waiter)]), env, Running(cell.waiter.value, o), x);
    } else {
      SetCellCount(s, env, p, cell.(result := Some(o)), x);
    }
  }

  /** The uses of a chain are those of what it waits for and those of its callback. */
  lemma ChainUses(e: Expr, k: Frame, env: Env)
    requires Ends(Chain(e, k), env)
    ensures Result(Chain(e, k), env).uses ==
            Result(e, env).uses + CallbackUses(WaiterOf(k, 0), Result(e, env).o, env)
  {
    ChainPartsEnd(Chain(e, k), env);
    ChainEnds(Chain(e, k), env);
  }

  // ---------------------------------------------------------------------------------------------
  // Every step keeps the accounts

  lemma BuildingChainCount(s: State, env: Env, i: nat, e: Expr, k: Frame, ks: Frames, d: Dest, x: Token)
    requires |s.cells| == |s.spec| && i < |s.acts| && s.acts[i] == Building(Chain(e, k), ks, d)
               && Ends(Chain(e, k), env)
    ensures Count(Become(s, i, Building(e, Cons(k, ks), d)), env, x) == Count(s, env, x)
  {
    ChainUses(e, k, env);
    BecomeCount(s, env, i, Building(e, Cons(k, ks), d), x);
  }

  lemma BuildingCount(s: State, env: Env, main: Expr, leaves: nat, i: nat, x: Token)
    requires Sound(s, env, main, leaves) && AllEnd(s.spec, env) && Ends(main, env)
    requires CanStep(s, leaves, i) && s.acts[i].Building?
    ensures Count(Step(s, leaves, i), env, x) == Count(s, env, x)
  {
    var Building(e, ks, d) := s.acts[i];
    assert ActOk(s.spec, env, main, s.acts[i]);
    DestEnds(s.spec, env, main, d, Plug(e, ks));
    PlugEnds(e, ks, env);
    match e {
      case Now(o) =>
        NowEvaluates(o, env);
        AllocCount(s, env, main, leaves, Cell(Some(o), false, None), e, x);
        BecomeCount(Alloc(s, Cell(Some(o), false, None), e), env, i, Built(|s.cells|, ks, d, false), x);
      case Leaf(k) => BuildingLeafCount(s, env, main, leaves, i, x);
      case Then(m, f) => BuildingChainCount(s, env, i, m, KThen(f), ks, d, x);
      case ThenWrapped(m, g) => BuildingChainCount(s, env, i, m, KThenWrapped(g), ks, d, x);
    }
  }

  lemma BuildingLeafCount(s: State, env: Env, main: Expr, leaves: nat, i: nat, x: Token)
    requires Sound(s, env, main, leaves) && CanStep(s, leaves, i) && s.acts[i].Building? && s.acts[i].e.Leaf?
    ensures Count(Step(s, leaves, i), env, x) == Count(s, env, x)
  {
    var Building(Leaf(k), ks, d) := s.acts[i];
    LeafEvaluates(k, env);
    BecomeCount(s.(moved := s.moved + {k}), env, i, Built(k, ks, d, false), x);
  }

  lemma RegisterCount(s: State, env: Env, main: Expr, leaves: nat, i: nat, x: Token)
    requires Sound(s, env, main, leaves) && Linear(s, leaves) && CanStep(s, leaves, i)
    requires s.acts[i].Built? && s.acts[i].ks.Cons?
    ensures Count(Step(s, leaves, i), env, x) == Count(s, env, x) + Bit(x == Feed(|s.cells|))
  {
    var Built(c, Cons(k, rest), d, _) := s.acts[i];
    assert ActOk(s.spec, env, main, s.acts[i]) && Available(s, leaves, c);
    var e := Chain(s.spec[c], k);
    AllocCount(s, env, main, leaves, FRESH, e, x);
    AllocSound(s, env, main, leaves, FRESH, e);
    var s1, a := Alloc(s, FRESH, e), Built(|s.cells|, rest, d, false);
    BecomeCount(s1, env, i, a, x);
    BecomeSound(s1, env, main, leaves, i, a);
    SetCallbackCount(Become(s1, i, a), env, main, leaves, c, WaiterOf(k, |s.cells|), x);
  }

  lemma RelayCount(s: State, env: Env, main: Expr, leaves: nat, i: nat, x: Token)
    requires Sound(s, env, main, leaves) && Linear(s, leaves) && CanStep(s, leaves, i)
    requires s.acts[i].Built? && s.acts[i].ks.Nil? && s.acts[i].d.Into? && s.acts[i].found
    ensures Count(Step(s, leaves, i), env, x) == Count(s, env, x)
  {
    var Built(c, _, d, _) := s.acts[i];
    assert ActOk(s.spec, env, main, s.acts[i]) && Available(s, leaves, c);
    BecomeCount(s, env, i, Ended, x);
    BecomeSound(s, env, main, leaves, i, Ended);
    SetCallbackCount(Become(s, i, Ended), env, main, leaves, c, Relay(d.p), x);
  }

  lemma ChainFutureCount(s: State, env: Env, main: Expr, leaves: nat, i: nat, x: Token)
    requires Sound(s, env, main, leaves) && Linear(s, leaves) && CanStep(s, leaves, i)
    requires s.acts[i].Built? && s.acts[i].ks.Nil?
    ensures Count(Step(s, leaves, i), env, x) == Count(s, env, x)
  {
    var Built(c, _, d, found) := s.acts[i];
    if d.Into? && found {
      RelayCount(s, env, main, leaves, i, x);
    } else if d.Into? && s.cells[c].result.Some? && !s.cells[c].taken {
      var s1 := s.(cells := s.cells[c := s.cells[c].(taken := true)]);
      SetCellCount(s, env, c, s.cells[c].(taken := true), x);
      BecomeCount(s1, env, i, Resolving(d.p, s.cells[c].result.value), x);
    } else {
      BecomeCount(s, env, i, Step(s, leaves, i).acts[i], x);
    }
  }

  /** What a continuation becomes when it runs has the tokens it had. */
  lemma RunningKeeps(spec: seq<Expr>, env: Env, w: Waiter, o: Outcome, a: Activity, x: Token)
    requires match w
             case OnValue(f, p) => if o.Val? then a == Building(f(o.v), Nil, Into(p)) else a == Resolving(p, o)
             case OnFuture(g, p) => a == Building(g(o), Nil, Into(p))
             case Relay(p) => a == Resolving(p, o)
    ensures ActCount(spec, env, a, x) == CallbackCount(w, o, env, x)
  {
  }

  lemma RunningCount(s: State, env: Env, main: Expr, leaves: nat, i: nat, x: Token)
    requires Sound(s, env, main, leaves) && CanStep(s, leaves, i) && s.acts[i].Running?
    ensures Count(Step(s, leaves, i), env, x) == Count(s, env, x)
  {
    var a := Step(s, leaves, i).acts[i];
    BecomeCount(s, env, i, a, x);
    RunningKeeps(s.spec, env, s.acts[i].w, s.acts[i].o, a, x);
  }

  lemma ResolvingCount(s: State, env: Env, main: Expr, leaves: nat, i: nat, x: Token)
    requires Sound(s, env, main, leaves) && Linear(s, leaves) && CanStep(s, leaves, i) && s.acts[i].Resolving?
    ensures Count(Step(s, leaves, i), env, x) == Count(s, env, x) - Bit(x == Feed(s.acts[i].p))
  {
    assert ActOk(s.spec, env, main, s.acts[i]);
    BecomeCount(s, env, i, Ended, x);
    SetResultCount(Become(s, i, Ended), env, s.acts[i].p, s.acts[i].o, x);
  }

  /** A promise somebody feeds is unresolved. */
  lemma {:induction false} FedIsUnresolved(s: State, env: Env, main: Expr, p: nat)
    requires |s.cells| == |s.spec| && Balanced(s, env, main)
    requires (exists i :: 0 <= i < |s.acts| && ActCount(s.spec, env, s.acts[i], Feed(p)) > 0) ||
             (exists c :: 0 <= c < |s.cells| && CellCount(s.spec[c], env, s.cells[c], Feed(p)) > 0)
    ensures p < |s.cells| && s.cells[p].result.None?
  {
    if i :| 0 <= i < |s.acts| && ActCount(s.spec, env, s.acts[i], Feed(p)) > 0 {
      ActAmong(s.spec, env, s.acts, i, Feed(p));
    } else {
      var c :| 0 <= c < |s.cells| && CellCount(s.spec[c], env, s.cells[c], Feed(p)) > 0;
      CellAmong(s.spec, env, s.cells, c, Feed(p));
    }
    assert Count(s, env, Feed(p)) == Due(s, env, main, Feed(p));
  }

  lemma {:induction false} ActAmong(spec: seq<Expr>, env: Env, acts: seq<Activity>, i: nat, x: Token)
    requires i < |acts|
    ensures ActCount(spec, env, acts[i], x) <= ActsCount(spec, env, acts, x)
  {
    if i < |acts| - 1 { ActAmong(spec, env, acts[..|acts| - 1], i, x); }
  }

  lemma {:induction false} CellAmong(spec: seq<Expr>, env: Env, cells: seq<Cell>, c: nat, x: Token)
    requires c < |cells| <= |spec|
    ensures CellCount(spec[c], env, cells[c], x) <= CellsCount(spec, env, cells, x)
  {
    if c < |cells| - 1 { CellAmong(spec, env, cells[..|cells| - 1], c, x); }
  }

  lemma ResolvingBalanced(s: State, env: Env, main: Expr, leaves: nat, i: nat, x: Token)
    requires Sound(s, env, main, leaves) && Linear(s, leaves) && Balanced(s, env, main) && CanStep(s, leaves, i)
    requires s.acts[i].Resolving?
    ensures Count(Step(s, leaves, i), env, x) == Due(Step(s, leaves, i), env, main, x)
  {
    var p := s.acts[i].p;
    assert ActCount(s.spec, env, s.acts[i], Feed(p)) == 1;
    FedIsUnresolved(s, env, main, p);
    ResolvingCount(s, env, main, leaves, i, x);
    assert Count(s, env, x) == Due(s, env, main, x);
  }

  /** All steps but Resolving leave the old cells unresolved or resolved as they are. */
  lemma SameDue(s: State, env: Env, main: Expr, leaves: nat, i: nat, x: Token)
    requires |s.spec| == |s.cells| && CanStep(s, leaves, i) && !s.acts[i].Resolving?
    ensures Due(Step(s, leaves, i), env, main, x) ==
            Due(s, env, main, x) + Bit(s.acts[i].Built? && s.acts[i].ks.Cons? && x == Feed(|s.cells|))
  {
  }

  lemma StepBalanced(s: State, env: Env, main: Expr, leaves: nat, i: nat)
    requires Sound(s, env, main, leaves) && Linear(s, leaves) && AllEnd(s.spec, env) && Ends(main, env)
    requires Balanced(s, env, main) && CanStep(s, leaves, i)
    ensures |Step(s, leaves, i).cells| == |Step(s, leaves, i).spec| && Balanced(Step(s, leaves, i), env, main)
  {
    StepSound(s, env, main, leaves, i);
    var s' := Step(s, leaves, i);
    forall x: Token ensures Count(s', env, x) == Due(s', env, main, x) {
      assert Count(s, env, x) == Due(s, env, main, x);
      match s.acts[i] {
        case Resolving(_, _) => ResolvingBalanced(s, env, main, leaves, i, x);
        case Building(_, _, _) => SameDue(s, env, main, leaves, i, x); BuildingCount(s, env, main, leaves, i, x);
        case Built(_, Cons(_, _), _, _) =>
          SameDue(s, env, main, leaves, i, x);
          RegisterCount(s, env, main, leaves, i, x);
        case Built(_, Nil, _, _) => SameDue(s, env, main, leaves, i, x); ChainFutureCount(s, env, main, leaves, i, x);
        case Running(_, _) => SameDue(s, env, main, leaves, i, x); RunningCount(s, env, main, leaves, i, x);
      }
    }
  }

  lemma ResolveLeafBalanced(s: State, env: Env, main: Expr, k: nat)
    requires |s.cells| == |s.spec| && Balanced(s, env, main) && k in s.pending
    ensures Balanced(ResolveLeaf(s, env, k), env, main)
  {
    forall x: Token ensures Count(ResolveLeaf(s, env, k), env, x) == Due(ResolveLeaf(s, env, k), env, main, x) {
      assert Count(s, env, x) == Due(s, env, main, x);
      SpawnCount(s.(pending := s.pending - {k}), env, Resolving(k, env(k)), x);
    }
  }

  lemma {:induction false} FreshCellsCount(spec: seq<Expr>, env: Env, cells: seq<Cell>, x: Token)
    requires |cells| <= |spec| && forall c :: 0 <= c < |cells| ==> cells[c] == FRESH
    ensures CellsCount(spec, env, cells, x) == 0
  {
    if cells != [] { FreshCellsCount(spec, env, cells[..|cells| - 1], x); }
  }

  lemma InitBalanced(env: Env, main: Expr, leaves: nat)
    ensures Balanced(Init(main, leaves), env, main)
  {
    var s := Init(main, leaves);
    forall x: Token ensures Count(s, env, x) == Due(s, env, main, x) {
      FreshCellsCount(s.spec, env, s.cells, x);
      assert s.acts[..|s.acts| - 1] == [];
      assert ActsCount(s.spec, env, s.acts, x) == ActCount(s.spec, env, s.acts[0], x);
    }
  }

  // ---------------------------------------------------------------------------------------------
  // Every future made for a chain has somebody to go on with it

  /** Somebody holds the future of `p`, or has registered on it or taken its result. */
  predicate Wanted(s: State, p: nat)
    requires p < |s.cells|
  {
    Held(s, p) || !Untouched(s.cells[p])
  }

  predicate AllWanted(s: State, leaves: nat) {
    && (forall p :: leaves <= p < |s.cells| ==> Wanted(s, p))
    && (forall k :: k in s.moved ==> k < leaves)
  }

  lemma BecomeWanted(s: State, i: nat, a: Activity, p: nat)
    requires i < |s.acts| && p < |s.cells| && Wanted(s, p)
    requires s.acts[i].Built? && s.acts[i].c == p ==> a.Built? && a.c == p
    ensures Wanted(Become(s, i, a), p)
  {
    var s' := Become(s, i, a);
    if j :| 0 <= j < |s.acts| && s.acts[j].Built? && s.acts[j].c == p { assert s'.acts[j].Built? && s'.acts[j].c == p; }
  }

  lemma SetCallbackWanted(s: State, c: nat, w: Waiter, p: nat)
    requires c < |s.cells| && p < |s.cells| && Untouched(s.cells[c]) && (p != c ==> Wanted(s, p))
    ensures Wanted(SetCallback(s, c, w), p)
  {
    var s' := SetCallback(s, c, w);
    if j :| 0 <= j < |s.acts| && s.acts[j].Built? && s.acts[j].c == p { assert s'.acts[j].Built? && s'.acts[j].c == p; }
  }

  lemma SetResultWanted(s: State, q: nat, o: Outcome, p: nat)
    requires q < |s.cells| && p < |s.cells| && Wanted(s, p)
    ensures Wanted(SetResult(s, q, o), p)
  {
    var s' := SetResult(s, q, o);
    if j :| 0 <= j < |s.acts| && s.acts[j].Built? && s.acts[j].c == p { assert s'.acts[j].Built? && s'.acts[j].c == p; }
  }

  lemma AllocWanted(s: State, cell: Cell, e: Expr, p: nat)
    requires p < |s.cells| && Wanted(s, p)
    ensures Wanted(Alloc(s, cell, e), p)
  {
    var s' := Alloc(s, cell, e);
    if j :| 0 <= j < |s.acts| && s.acts[j].Built? && s.acts[j].c == p { assert s'.acts[j].Built? && s'.acts[j].c == p; }
  }

  lemma BuiltWanted(s: State, leaves: nat, i: nat, p: nat)
    requires Linear(s, leaves) && |s.spec| == |s.cells| && CanStep(s, leaves, i) && s.acts[i].Built?
    requires leaves <= p < |Step(s, leaves, i).cells| && (p < |s.cells| ==> Wanted(s, p))
    ensures Wanted(Step(s, leaves, i), p)
  {
    var Built(c, ks, d, found) := s.acts[i];
    assert Available(s, leaves, c);
    var s' := Step(s, leaves, i);
    match ks {
      case Cons(k, rest) =>
        var s1, a := Alloc(s, FRESH, Chain(s.spec[c], k)), Built(|s.cells|, rest, d, false);
        var s2 := Become(s1, i, a);
        if p == |s.cells| {
          assert s2.acts[i].Built? && s2.acts[i].c == p;
        } else if p != c {
          AllocWanted(s, FRESH, Chain(s.spec[c], k), p);
          BecomeWanted(s1, i, a, p);
        }
        SetCallbackWanted(s2, c, WaiterOf(k, |s.cells|), p);
      case Nil =>
        if d == Root {
          if p != c {
            BecomeWanted(s, i, Ended, p);
            assert ForRoot(s.acts[i]);
          }
        } else if found {
          if p != c { BecomeWanted(s, i, Ended, p); }
          SetCallbackWanted(Become(s, i, Ended), c, Relay(d.p), p);
        } else {
          BecomeWanted(s, i, if p == c then s.acts[i] else s'.acts[i], p);
          if p == c && s'.acts[i].Built? { assert s'.acts[i].c == p; }
        }
    }
  }

  lemma StepWanted(s: State, leaves: nat, i: nat)
    requires Linear(s, leaves) && |s.spec| == |s.cells| && CanStep(s, leaves, i) && AllWanted(s, leaves)
    ensures AllWanted(Step(s, leaves, i), leaves)
  {
    var s' := Step(s, leaves, i);
    forall p | leaves <= p < |s'.cells| ensures Wanted(s', p) {
      match s.acts[i] {
        case Built(_, _, _, _) => BuiltWanted(s, leaves, i, p);
        case Resolving(q, o) =>
          BecomeWanted(s, i, Ended, p);
          SetResultWanted(Become(s, i, Ended), q, o, p);
        case Building(Now(o), ks, d) =>
          if p == |s.cells| {
            assert s'.acts[i].Built? && s'.acts[i].c == p;
          } else {
            AllocWanted(s, Cell(Some(o), false, None), Now(o), p);
            BecomeWanted(Alloc(s, Cell(Some(o), false, None), Now(o)), i, s'.acts[i], p);
          }
        case _ => BecomeWanted(s, i, s'.acts[i], p);
      }
    }
  }

  lemma ResolveLeafWanted(s: State, env: Env, leaves: nat, k: nat)
    requires AllWanted(s, leaves)
    ensures AllWanted(ResolveLeaf(s, env, k), leaves)
  {
    var s' := ResolveLeaf(s, env, k);
    forall p | leaves <= p < |s'.cells| ensures Wanted(s', p) {
      assert Wanted(s, p);
      if j :| 0 <= j < |s.acts| && s.acts[j].Built? && s.acts[j].c == p {
        assert s'.acts[j].Built? && s'.acts[j].c == p;
      }
    }
  }

  // ---------------------------------------------------------------------------------------------
  // What is stuck keeps the user's future unresolved

  ghost function TotalCost(spec: seq<Expr>, env: Env): nat {
    if spec == [] then 0 else TotalCost(spec[..|spec| - 1], env) + Result(spec[|spec| - 1], env).cost
  }

  lemma {:induction false} CostBound(spec: seq<Expr>, env: Env, p: nat)
    requires p < |spec|
    ensures Result(spec[p], env).cost <= TotalCost(spec, env)
  {
    if p < |spec| - 1 { CostBound(spec[..|spec| - 1], env, p); }
  }

  ghost predicate Accounts(s: State, env: Env, main: Expr, leaves: nat) {
    Inv(s, env, main, leaves) && AllEnd(s.spec, env) && Balanced(s, env, main) && AllWanted(s, leaves)
  }

  /** The promise that a continuation in an unresolved cell is to resolve is made for a chain, unresolved, and
      costs more. */
  lemma NextUp(s: State, env: Env, main: Expr, leaves: nat, p: nat)
    requires Accounts(s, env, main, leaves) && p < |s.cells| && s.cells[p].result.None? && s.cells[p].waiter.Some?
    ensures var q := s.cells[p].waiter.value.p;
            && leaves <= q < |s.cells| && s.cells[q].result.None?
            && Result(s.spec[p], env).cost < Result(s.spec[q], env).cost
  {
    var w := s.cells[p].waiter.value;
    assert CellOk(s.spec, env, s.spec[p], s.cells[p]);
    assert CellCount(s.spec[p], env, s.cells[p], Feed(w.p)) > 0;
    FedIsUnresolved(s, env, main, w.p);
    ChainPartsEnd(s.spec[w.p], env);
    ChainEnds(s.spec[w.p], env);
  }

  /** An unresolved promise of a chain, once no activity holds a future, leaves the user's future unresolved. */
  lemma {:induction false} UnresolvedUpToRoot(s: State, env: Env, main: Expr, leaves: nat, p: nat)
    requires Accounts(s, env, main, leaves) && leaves <= p < |s.cells| && s.cells[p].result.None?
    requires forall i :: 0 <= i < |s.acts| ==> !s.acts[i].Built?
    ensures s.root.Some? ==> s.cells[s.root.value].result.None?
    decreases TotalCost(s.spec, env) - Result(s.spec[p], env).cost
  {
    assert Wanted(s, p) && WellFormed(s.cells[p]);
    if s.root != Some(p) {
      NextUp(s, env, main, leaves, p);
      var q := s.cells[p].waiter.value.p;
      CostBound(s.spec, env, q);
      UnresolvedUpToRoot(s, env, main, leaves, q);
    }
  }

  /** When nothing can happen any more and the user's future is resolved, no activity and no continuation is left. */
  lemma ResolvedMeansIdle(s: State, env: Env, main: Expr, leaves: nat)
    requires Accounts(s, env, main, leaves) && Halted(s, leaves)
    requires RootResolved(s)
    ensures forall i :: 0 <= i < |s.acts| ==> s.acts[i] == Ended
    ensures forall c :: 0 <= c < |s.cells| ==> s.cells[c].result.Some? || s.cells[c].waiter.None?
  {
    forall i | 0 <= i < |s.acts| ensures s.acts[i] == Ended || (s.acts[i].Building? && s.acts[i].e.Leaf?) {
      assert !CanStep(s, leaves, i) && ActOk(s.spec, env, main, s.acts[i]);
    }
    forall i | 0 <= i < |s.acts| ensures s.acts[i] == Ended {
      if s.acts[i] != Ended {
        var d := s.acts[i].d;
        assert ActOk(s.spec, env, main, s.acts[i]) && !ForRoot(s.acts[i]);
        assert ActCount(s.spec, env, s.acts[i], Feed(d.p)) > 0;
        FedIsUnresolved(s, env, main, d.p);
        UnresolvedUpToRoot(s, env, main, leaves, d.p);
      }
    }
    forall c | 0 <= c < |s.cells| ensures s.cells[c].result.Some? || s.cells[c].waiter.None? {
      if s.cells[c].result.None? && s.cells[c].waiter.Some? {
        NextUp(s, env, main, leaves, c);
        UnresolvedUpToRoot(s, env, main, leaves, s.cells[c].waiter.value.p);
      }
    }
  }

  lemma {:induction false} NoActsCount(spec: seq<Expr>, env: Env, acts: seq<Activity>, x: Token)
    requires forall i :: 0 <= i < |acts| ==> acts[i] == Ended
    ensures ActsCount(spec, env, acts, x) == 0
  {
    if acts != [] { NoActsCount(spec, env, acts[..|acts| - 1], x); }
  }

  lemma {:induction false} NoWaitersCount(spec: seq<Expr>, env: Env, cells: seq<Cell>, x: Token)
    requires |cells| <= |spec| && forall c :: 0 <= c < |cells| ==> cells[c].result.Some? || cells[c].waiter.None?
    ensures CellsCount(spec, env, cells, x) == 0
  {
    if cells != [] { NoWaitersCount(spec, env, cells[..|cells| - 1], x); }
  }

  // ---------------------------------------------------------------------------------------------
  // Exactly when every run completes

  /** The future handed to the user is resolved. */
  predicate RootResolved(s: State) {
    s.root.Some? && s.root.value < |s.cells| && s.cells[s.root.value].result.Some?
  }

  /** Sequential evaluation uses each leaf future at most once, and only those that exist. */
  ghost predicate UsedOnce(e: Expr, env: Env, leaves: nat) {
    forall k :: k in Result(e, env).uses ==> k < leaves && Result(e, env).uses[k] == 1
  }

  lemma {:induction false} RunAccounts(states: seq<State>, env: Env, main: Expr, leaves: nat)
    requires IsRun(states, main, env, leaves) && Ends(main, env)
    ensures Accounts(states[|states| - 1], env, main, leaves)
  {
    var n := |states| - 1;
    RunInv(states, env, main, leaves);
    if n == 0 {
      InitBalanced(env, main, leaves);
    } else {
      RunAccounts(states[..n], env, main, leaves);
      assert Next(states[n - 1], states[n - 1 + 1], env, leaves);
      NextAccounts(states[n - 1], states[n], env, main, leaves);
    }
  }

  lemma NextAccounts(s: State, s': State, env: Env, main: Expr, leaves: nat)
    requires Accounts(s, env, main, leaves) && Next(s, s', env, leaves) && Ends(main, env)
    ensures Accounts(s', env, main, leaves)
  {
    NextInv(s, s', env, main, leaves);
    if i: nat :| CanStep(s, leaves, i) && |s.spec| == |s.cells| && s' == Step(s, leaves, i) {
      StepBalanced(s, env, main, leaves, i);
      StepWanted(s, leaves, i);
    } else {
      var k: nat :| k in s.pending && s' == ResolveLeaf(s, env, k);
      ResolveLeafBalanced(s, env, main, k);
      ResolveLeafWanted(s, env, leaves, k);
    }
  }

  /** A use still to come is one more than what was moved already. */
  lemma UseToCome(s: State, env: Env, main: Expr, leaves: nat, i: nat)
    requires Accounts(s, env, main, leaves) && i < |s.acts| && s.acts[i].Building? && s.acts[i].e.Leaf?
    ensures Bit(s.acts[i].e.k in s.moved) < Result(main, env).uses[s.acts[i].e.k]
  {
    var k := s.acts[i].e.k;
    LeafEvaluates(k, env);
    ActAmong(s.spec, env, s.acts, i, Use(k));
    assert Count(s, env, Use(k)) == Due(s, env, main, Use(k));
  }

  lemma UsedOnceUnstuck(s: State, env: Env, main: Expr, leaves: nat)
    requires Accounts(s, env, main, leaves) && UsedOnce(main, env, leaves)
    ensures !UsesMovedFuture(s, leaves)
  {
    forall i | 0 <= i < |s.acts| && s.acts[i].Building? && s.acts[i].e.Leaf? ensures CanStep(s, leaves, i) {
      UseToCome(s, env, main, leaves, i);
    }
  }

  lemma ResolvedUsedOnce(s: State, env: Env, main: Expr, leaves: nat)
    requires Accounts(s, env, main, leaves) && Halted(s, leaves)
    requires RootResolved(s)
    ensures UsedOnce(main, env, leaves)
  {
    ResolvedMeansIdle(s, env, main, leaves);
    forall k | k in Result(main, env).uses ensures k < leaves && Result(main, env).uses[k] == 1 {
      NoActsCount(s.spec, env, s.acts, Use(k));
      NoWaitersCount(s.spec, env, s.cells, Use(k));
      assert Count(s, env, Use(k)) == Due(s, env, main, Use(k));
    }
  }

  /**
    * Whenever sequential evaluation ends, so does every run, within a number of steps that depends only on the
    * expression. Once nothing can happen any more the user's future holds the sequential result if and only if
    * sequential evaluation uses each leaf future at most once; otherwise it stays unresolved, whatever the schedule.
    */
  lemma EveryRunCompletes(states: seq<State>, env: Env, main: Expr, leaves: nat)
    requires IsRun(states, main, env, leaves) && Ends(main, env)
    ensures |states| - 1 <= Result(main, env).cost + 1 + 2 * leaves
    ensures var s := states[|states| - 1];
            Halted(s, leaves) ==>
              && (UsedOnce(main, env, leaves) <==> RootHolds(s, Result(main, env).o))
              && (UsedOnce(main, env, leaves) <==> RootResolved(s))
  {
    RunInv(states, env, main, leaves);
    RunAccounts(states, env, main, leaves);
    var s := states[|states| - 1];
    if Halted(s, leaves) && UsedOnce(main, env, leaves) {
      UsedOnceUnstuck(s, env, main, leaves);
      UnstuckHolds(s, env, main, leaves);
    }
    if Halted(s, leaves) && RootResolved(s) {
      ResolvedUsedOnce(s, env, main, leaves);
    }
  }

  lemma NotHalted(s: State, env: Env, leaves: nat) returns (s': State)
    requires !Halted(s, leaves) && |s.spec| == |s.cells|
    ensures Next(s, s', env, leaves)
  {
    if i: nat :| CanStep(s, leaves, i) {
      s' := Step(s, leaves, i);
    } else {
      var k :| k in s.pending;
      s' := ResolveLeaf(s, env, k);
    }
  }

  lemma ExtendRun(states: seq<State>, s': State, env: Env, main: Expr, leaves: nat)
    requires IsRun(states, main, env, leaves) && Next(states[|states| - 1], s', env, leaves)
    ensures IsRun(states + [s'], main, env, leaves)
  {
    var more := states + [s'];
    forall i | 0 <= i < |more| - 1 ensures Next(more[i], more[i + 1], env, leaves) {
      if i < |states| - 1 { assert Next(states[i], states[i + 1], env, leaves); }
    }
  }

  lemma RunBound(states: seq<State>, env: Env, main: Expr, leaves: nat)
    requires IsRun(states, main, env, leaves) && Ends(main, env)
    ensures |states| <= Result(main, env).cost + 2 * leaves + 2
    ensures |states[|states| - 1].spec| == |states[|states| - 1].cells|
  {
    RunInv(states, env, main, leaves);
  }

  /** Every run goes on until nothing can happen any more. */
  lemma {:induction false} RunHalts(states: seq<State>, env: Env, main: Expr, leaves: nat) returns (all: seq<State>)
    requires IsRun(states, main, env, leaves) && Ends(main, env)
    ensures states <= all && IsRun(all, main, env, leaves) && Halted(all[|all| - 1], leaves)
    decreases Result(main, env).cost + 2 * leaves + 2 - |states|
  {
    RunBound(states, env, main, leaves);
    if Halted(states[|states| - 1], leaves) {
      all := states;
    } else {
      var s' := NotHalted(states[|states| - 1], env, leaves);
      ExtendRun(states, s', env, main, leaves);
      all := RunHalts(states + [s'], env, main, leaves);
    }
  }

  /** leaf.Then(_ => leaf): the callback returns the future it was registered on. */
  function LeafTwice(): Expr {
    Then(Leaf(0), _ => Leaf(0))
  }

  lemma LeafTwiceUses(env: Env)
    requires env(0).Val?
    ensures Ends(LeafTwice(), env) && Result(LeafTwice(), env).uses == multiset{0, 0}
  {
    LeafEvaluates(0, env);
    ChainEnds(LeafTwice(), env);
  }

  /** With a leaf that is resolved with a value its sequential evaluation ends, but every run that stops, and there
      is one, leaves the user's future unresolved. */
  lemma LeafTwiceNeverResolves(env: Env) returns (states: seq<State>)
    requires env(0).Val?
    ensures Ends(LeafTwice(), env) && !UsedOnce(LeafTwice(), env, 1)
    ensures IsRun(states, LeafTwice(), env, 1) && Halted(states[|states| - 1], 1)
    ensures !RootResolved(states[|states| - 1])
  {
    LeafTwiceUses(env);
    assert 0 in Result(LeafTwice(), env).uses;
    states := RunHalts([Init(LeafTwice(), 1)], env, LeafTwice(), 1);
    EveryRunCompletes(states, env, LeafTwice(), 1);
  }
}
