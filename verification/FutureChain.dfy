/**
 What a chain of `Then` calls means: the result of running the callbacks one after the other, as a plain
 sequential program would.
  */
module Sequential {
  import opened Common
  import opened Outcomes

  /** An expression that makes a future. `Leaf(k)` is the future of the k-th promise that somebody else
      resolves; a callback may return any expression, so callbacks nest without bound. */
  datatype Expr =
    | Now(o: Outcome)                             // MakeReadyFuture, MakeExceptionFuture
    | Leaf(k: nat)
    | Then(m: Expr, f: Value -> Expr)             // Then with a callback that takes the value
    | ThenWrapped(m: Expr, g: Outcome -> Expr)    // Then with a callback that takes the future

  /** What the leaf promises are resolved with. */
  type Env = nat -> Outcome

  /** An outcome, the number of machine steps that go into producing it, and the leaf futures that are used for it. */
  datatype Answer = Answer(o: Outcome, cost: nat, uses: multiset<nat>)

  /** Sequential evaluation, `None` when `fuel` levels of nesting do not suffice. */
  function Eval(e: Expr, env: Env, fuel: nat): Option<Answer>
    decreases fuel
  {
    if fuel == 0 then None else
    match e
    case Now(o) => Some(Answer(o, 1, multiset{}))
    case Leaf(k) => Some(Answer(env(k), 1, multiset{k}))
    case Then(m, f) =>
      (match Eval(m, env, fuel - 1)
       case None => None
       case Some(Answer(Err(x), c, us)) => Some(Answer(Err(x), c + 4, us))
       case Some(Answer(Val(v), c, us)) => Add(Eval(f(v), env, fuel - 1), c + 7, us))
    case ThenWrapped(m, g) =>
      (match Eval(m, env, fuel - 1)
       case None => None
       case Some(Answer(o, c, us)) => Add(Eval(g(o), env, fuel - 1), c + 7, us))
  }

  function Add(a: Option<Answer>, c: nat, us: multiset<nat>): Option<Answer> {
    match a
    case None => None
    case Some(Answer(o, d, vs)) => Some(Answer(o, c + d, us + vs))
  }

  /** Sequential evaluation of `e` comes to an end. */
  ghost predicate Ends(e: Expr, env: Env) {
    exists fuel :: Eval(e, env, fuel).Some?
  }

  /** The outcome of sequential evaluation, and its cost; arbitrary when it does not end. */
  ghost function Result(e: Expr, env: Env): Answer {
    if Ends(e, env) then
      var fuel :| Eval(e, env, fuel).Some?;
      Eval(e, env, fuel).value
    else
      Answer(env(0), 0, multiset{})
  }

  /** Sequential evaluation of `e` ends with `o`. */
  ghost predicate Evaluates(e: Expr, env: Env, o: Outcome) {
    Ends(e, env) && Result(e, env).o == o
  }

  lemma SameThen(m: Expr, f: Value -> Expr, env: Env, n: nat, n': nat)
    requires Eval(m, env, n).Some? && Eval(m, env, n') == Eval(m, env, n)
    requires var o := Eval(m, env, n).value.o; o.Val? ==> Eval(f(o.v), env, n') == Eval(f(o.v), env, n)
    ensures Eval(Then(m, f), env, n' + 1) == Eval(Then(m, f), env, n + 1)
  {
  }

  lemma SameThenWrapped(m: Expr, g: Outcome -> Expr, env: Env, n: nat, n': nat)
    requires Eval(m, env, n).Some? && Eval(m, env, n') == Eval(m, env, n)
    requires var o := Eval(m, env, n).value.o; Eval(g(o), env, n') == Eval(g(o), env, n)
    ensures Eval(ThenWrapped(m, g), env, n' + 1) == Eval(ThenWrapped(m, g), env, n + 1)
  {
  }

  lemma {:induction false} MoreFuelThen(e: Expr, env: Env, fuel: nat, more: nat)
    requires e.Then? && Eval(e, env, fuel).Some? && fuel <= more
    ensures Eval(e, env, more) == Eval(e, env, fuel)
    decreases fuel, 0
  {
    MoreFuel(e.m, env, fuel - 1, more - 1);
    var a := Eval(e.m, env, fuel - 1).value;
    if a.o.Val? { MoreFuel(e.f(a.o.v), env, fuel - 1, more - 1); }
    SameThen(e.m, e.f, env, fuel - 1, more - 1);
  }

  lemma {:induction false} MoreFuelThenWrapped(e: Expr, env: Env, fuel: nat, more: nat)
    requires e.ThenWrapped? && Eval(e, env, fuel).Some? && fuel <= more
    ensures Eval(e, env, more) == Eval(e, env, fuel)
    decreases fuel, 0
  {
    MoreFuel(e.m, env, fuel - 1, more - 1);
    MoreFuel(e.g(Eval(e.m, env, fuel - 1).value.o), env, fuel - 1, more - 1);
    SameThenWrapped(e.m, e.g, env, fuel - 1, more - 1);
  }

  lemma {:induction false} MoreFuel(e: Expr, env: Env, fuel: nat, more: nat)
    requires Eval(e, env, fuel).Some? && fuel <= more
    ensures Eval(e, env, more) == Eval(e, env, fuel)
    decreases fuel, 1
  {
    if e.Then? {
      MoreFuelThen(e, env, fuel, more);
    } else if e.ThenWrapped? {
      MoreFuelThenWrapped(e, env, fuel, more);
    }
  }

  /** Any fuel that suffices gives the result. */
  lemma FuelGivesResult(e: Expr, env: Env, fuel: nat)
    requires Eval(e, env, fuel).Some?
    ensures Ends(e, env) && Result(e, env) == Eval(e, env, fuel).value
  {
    var other :| Eval(e, env, other).Some? && Result(e, env) == Eval(e, env, other).value;
    if fuel <= other { MoreFuel(e, env, fuel, other); } else { MoreFuel(e, env, other, fuel); }
  }

  ghost function Fuel(e: Expr, env: Env): (fuel: nat)
    requires Ends(e, env)
    ensures Eval(e, env, fuel).Some? && Eval(e, env, fuel).value == Result(e, env)
  {
    var fuel :| Eval(e, env, fuel).Some?;
    FuelGivesResult(e, env, fuel);
    fuel
  }

  /** How a chain evaluates: the expression a callback returns takes the place of the chain. */
  ghost function Reduct(e: Expr, env: Env): Expr
    requires e.ThenWrapped? || (e.Then? && Result(e.m, env).o.Val?)
  {
    if e.Then? then e.f(Result(e.m, env).o.v) else e.g(Result(e.m, env).o)
  }

  ghost predicate Skips(e: Expr, env: Env)
    requires e.Then? || e.ThenWrapped?
  {
    e.Then? && Result(e.m, env).o.Err?
  }

  lemma ChainEnds(e: Expr, env: Env)
    requires e.Then? || e.ThenWrapped?
    requires Ends(e.m, env) && (!Skips(e, env) ==> Ends(Reduct(e, env), env))
    ensures Ends(e, env)
    ensures var m := Result(e.m, env);
            if Skips(e, env) then Result(e, env) == Answer(m.o, m.cost + 4, m.uses)
            else var r := Result(Reduct(e, env), env);
                Result(e, env) == Answer(r.o, m.cost + r.cost + 7, m.uses + r.uses)
  {
    var n := Fuel(e.m, env);
    if Skips(e, env) {
      FuelGivesResult(e, env, n + 1);
    } else {
      var k := Fuel(Reduct(e, env), env);
      var fuel := if n < k then k else n;
      MoreFuel(e.m, env, n, fuel);
      MoreFuel(Reduct(e, env), env, k, fuel);
      FuelGivesResult(e, env, fuel + 1);
    }
  }

  lemma ChainPartsEnd(e: Expr, env: Env)
    requires (e.Then? || e.ThenWrapped?) && Ends(e, env)
    ensures Ends(e.m, env) && (!Skips(e, env) ==> Ends(Reduct(e, env), env))
  {
    var fuel := Fuel(e, env);
    FuelGivesResult(e.m, env, fuel - 1);
    if !Skips(e, env) { FuelGivesResult(Reduct(e, env), env, fuel - 1); }
  }

  /** (m.Then f).Then g and m.Then(x => f(x).Then g) evaluate alike. */
  lemma ThenIsAssociative(m: Expr, f: Value -> Expr, g: Value -> Expr, env: Env, o: Outcome)
    ensures Evaluates(Then(Then(m, f), g), env, o) <==> Evaluates(Then(m, v => Then(f(v), g)), env, o)
  {
    var l, r := Then(Then(m, f), g), Then(m, v => Then(f(v), g));
    if Ends(l, env) {
      ChainPartsEnd(l, env);
      ChainPartsEnd(l.m, env);
      ChainEnds(l.m, env);
      ChainEnds(l, env);
      if Result(m, env).o.Val? { ChainEnds(Reduct(r, env), env); }
      ChainEnds(r, env);
    }
    if Ends(r, env) {
      ChainPartsEnd(r, env);
      if Result(m, env).o.Val? {
        ChainPartsEnd(Reduct(r, env), env);
        ChainEnds(Reduct(r, env), env);
      }
      ChainEnds(r, env);
      ChainEnds(l.m, env);
      ChainEnds(l, env);
    }
  }
}

/**
 The machine that runs such expressions: futures share `FutureImpl` cells, `Then` leaves a continuation in the
 cell or schedules it, `ChainFuture` ties the future a callback returned to the promise made by `Then`, and
 leaf promises are resolved by others whenever they like.

 A scheduled continuation becomes an activity of its own and all activities interleave step by step. Running it
 inline, on the executor of a reactor or on another thread are three of the ways to interleave.
  */
module FutureChain {
  import opened Common
  import opened Outcomes
  import opened Sequential

  /** A continuation: the callback and the promise it is to resolve. `Relay` is the one ChainFuture registers. */
  datatype Waiter =
    | OnValue(f: Value -> Expr, p: nat)
    | OnFuture(g: Outcome -> Expr, p: nat)
    | Relay(p: nat)

  /** `taken` is set when GetValue or GetException has moved the result out. */
  datatype Cell = Cell(result: Option<Outcome>, taken: bool, waiter: Option<Waiter>)

  datatype Frame = KThen(f: Value -> Expr) | KThenWrapped(g: Outcome -> Expr)

  datatype Frames = Nil | Cons(top: Frame, rest: Frames)

  /** Where a finished future goes: to the user, or through ChainFuture into a promise. */
  datatype Dest = Root | Into(p: nat)

  datatype Activity =
    | Building(e: Expr, ks: Frames, d: Dest)   // about to make the future of `e`, then to apply `ks` to it
    | Built(c: nat, ks: Frames, d: Dest, found: bool)
                                               // holds the future of cell `c`, about to apply `ks` to it; `found`
                                               // when ChainFuture has found it neither ready nor failed
    | Running(w: Waiter, o: Outcome)           // about to run a continuation
    | Resolving(p: nat, o: Outcome)            // about to set the result of a promise
    | Ended

  /** `spec` is auxiliary: the expression whose future each cell belongs to. */
  datatype State = State(
    cells: seq<Cell>,
    spec: seq<Expr>,
    acts: seq<Activity>,
    pending: set<nat>,   // leaf promises nobody has begun to resolve
    moved: set<nat>,     // leaf futures already moved into an expression
    root: Option<nat>)   // the future handed to the user

  const FRESH := Cell(None, false, None)

  function Below(n: nat): (ks: set<nat>)
    ensures |ks| == n && forall k: nat :: k in ks <==> k < n
  {
    if n == 0 then {} else Below(n - 1) + {n - 1}
  }

  ghost function Init(e: Expr, leaves: nat): State {
    State(
      seq(leaves, _ => FRESH),
      seq(leaves, k requires 0 <= k => Leaf(k)),
      [Building(e, Nil, Root)],
      Below(leaves),
      {},
      None)
  }

  // ---------------------------------------------------------------------------------------------
  // Steps

  /** Only a second use of a leaf future stops an activity: what it would register there is never scheduled. */
  predicate CanStep(s: State, leaves: nat, i: nat) {
    i < |s.acts| &&
    match s.acts[i]
    case Ended => false
    case Building(Leaf(k), _, _) => k < leaves && k !in s.moved
    case Building(_, _, _) => true
    case Built(c, _, _, _) => c < |s.cells|
    case Running(_, _) => true
    case Resolving(p, _) => p < |s.cells|
  }

  ghost function Become(s: State, i: nat, a: Activity): State
    requires i < |s.acts|
  {
    s.(acts := s.acts[i := a])
  }

  /** SetCallback: schedule at once when the result is there, else leave the continuation in the cell. */
  ghost function SetCallback(s: State, c: nat, w: Waiter): State
    requires c < |s.cells|
  {
    var cell := s.cells[c];
    match cell.result
    case None => s.(cells := s.cells[c := cell.(waiter := Some(w))])
    case Some(o) =>
      if cell.taken then s
      else s.(cells := s.cells[c := cell.(taken := true)], acts := s.acts + [Running(w, o)])
  }

  /** SetValue and SetException: store the result and schedule the continuation, if any. */
  ghost function SetResult(s: State, p: nat, o: Outcome): State
    requires p < |s.cells|
  {
    var cell := s.cells[p];
    match cell.waiter
    case Some(w) =>
      if cell.taken then s.(cells := s.cells[p := cell.(result := Some(o))])
      else s.(cells := s.cells[p := Cell(Some(o), true, Some(w))], acts := s.acts + [Running(w, o)])
    case None => s.(cells := s.cells[p := cell.(result := Some(o))])
  }

  ghost function Alloc(s: State, cell: Cell, e: Expr): State {
    s.(cells := s.cells + [cell], spec := s.spec + [e])
  }

  ghost function Chain(e: Expr, k: Frame): Expr {
    match k
    case KThen(f) => Then(e, f)
    case KThenWrapped(g) => ThenWrapped(e, g)
  }

  function WaiterOf(k: Frame, p: nat): Waiter {
    match k
    case KThen(f) => OnValue(f, p)
    case KThenWrapped(g) => OnFuture(g, p)
  }

  ghost function Step(s: State, leaves: nat, i: nat): State
    requires CanStep(s, leaves, i) && |s.spec| == |s.cells|
  {
    match s.acts[i]
    case Building(Now(o), ks, d) =>
      Become(Alloc(s, Cell(Some(o), false, None), Now(o)), i, Built(|s.cells|, ks, d, false))
    case Building(Leaf(k), ks, d) => Become(s.(moved := s.moved + {k}), i, Built(k, ks, d, false))
    case Building(Then(m, f), ks, d) => Become(s, i, Building(m, Cons(KThen(f), ks), d))
    case Building(ThenWrapped(m, g), ks, d) => Become(s, i, Building(m, Cons(KThenWrapped(g), ks), d))
    case Built(c, Cons(k, ks), d, _) =>
      SetCallback(Become(Alloc(s, FRESH, Chain(s.spec[c], k)), i, Built(|s.cells|, ks, d, false)), c,
          WaiterOf(k, |s.cells|))
    case Built(c, Nil, Root, _) => Become(s.(root := Some(c)), i, Ended)
    case Built(c, Nil, Into(p), found) =>
      if found then SetCallback(Become(s, i, Ended), c, Relay(p))
      else if s.cells[c].result.Some? && !s.cells[c].taken then
        Become(s.(cells := s.cells[c := s.cells[c].(taken := true)]), i, Resolving(p, s.cells[c].result.value))
      else Become(s, i, Built(c, Nil, Into(p), true))
    case Running(OnValue(f, p), Val(v)) => Become(s, i, Building(f(v), Nil, Into(p)))
    case Running(OnValue(f, p), Err(x)) => Become(s, i, Resolving(p, Err(x)))
    case Running(OnFuture(g, p), o) => Become(s, i, Building(g(o), Nil, Into(p)))
    case Running(Relay(p), o) => Become(s, i, Resolving(p, o))
    case Resolving(p, o) => SetResult(Become(s, i, Ended), p, o)
  }

  /** Somebody begins to resolve leaf promise `k`. */
  ghost function ResolveLeaf(s: State, env: Env, k: nat): State {
    s.(pending := s.pending - {k}, acts := s.acts + [Resolving(k, env(k))])
  }

  ghost predicate Next(s: State, s': State, env: Env, leaves: nat) {
    || (exists i: nat :: CanStep(s, leaves, i) && |s.spec| == |s.cells| && s' == Step(s, leaves, i))
    || (exists k: nat :: k in s.pending && s' == ResolveLeaf(s, env, k))
  }

  ghost predicate IsRun(states: seq<State>, e: Expr, env: Env, leaves: nat) {
    && 0 < |states|
    && states[0] == Init(e, leaves)
    && forall i :: 0 <= i < |states| - 1 ==> Next(states[i], states[i + 1], env, leaves)
  }

  /** Nothing can happen any more. */
  ghost predicate Halted(s: State, leaves: nat) {
    s.pending == {} && forall i: nat :: !CanStep(s, leaves, i)
  }

  /** Some activity is about to use a leaf future that was used before, or that does not exist. */
  predicate UsesMovedFuture(s: State, leaves: nat) {
    exists i :: 0 <= i < |s.acts| && s.acts[i].Building? && s.acts[i].e.Leaf? && !CanStep(s, leaves, i)
  }

  // ---------------------------------------------------------------------------------------------
  // Every cell holds what its expression evaluates to

  ghost function Plug(e: Expr, ks: Frames): Expr
    decreases ks
  {
    match ks
    case Nil => e
    case Cons(k, rest) => Plug(Chain(e, k), rest)
  }

  /** `e` is what the callback of the chain `x` returned. */
  ghost predicate Reduces(x: Expr, e: Expr, env: Env) {
    (x.Then? || x.ThenWrapped?) && Ends(x.m, env) && !Skips(x, env) && e == Reduct(x, env)
  }

  /** Continuation `w` may wait for the outcome of `e`. */
  ghost predicate WaiterOk(spec: seq<Expr>, env: Env, e: Expr, w: Waiter) {
    w.p < |spec| &&
    match w
    case OnValue(f, p) => spec[p] == Then(e, f)
    case OnFuture(g, p) => spec[p] == ThenWrapped(e, g)
    case Relay(p) => Reduces(spec[p], e, env)
  }

  /** Continuation `w` may run with outcome `o`. */
  ghost predicate RunOk(spec: seq<Expr>, env: Env, w: Waiter, o: Outcome) {
    w.p < |spec| &&
    match w
    case OnValue(f, p) => spec[p].Then? && spec[p].f == f && Evaluates(spec[p].m, env, o)
    case OnFuture(g, p) => spec[p].ThenWrapped? && spec[p].g == g && Evaluates(spec[p].m, env, o)
    case Relay(p) => Evaluates(spec[p], env, o)
  }

  ghost predicate DestOk(spec: seq<Expr>, env: Env, main: Expr, d: Dest, e: Expr) {
    match d
    case Root => e == main
    case Into(p) => p < |spec| && Reduces(spec[p], e, env)
  }

  ghost predicate ActOk(spec: seq<Expr>, env: Env, main: Expr, a: Activity) {
    match a
    case Building(e, ks, d) => DestOk(spec, env, main, d, Plug(e, ks))
    case Built(c, ks, d, _) => c < |spec| && DestOk(spec, env, main, d, Plug(spec[c], ks))
    case Running(w, o) => RunOk(spec, env, w, o)
    case Resolving(p, o) => p < |spec| && Evaluates(spec[p], env, o)
    case Ended => true
  }

  ghost predicate CellOk(spec: seq<Expr>, env: Env, e: Expr, cell: Cell) {
    && (cell.result.Some? ==> Evaluates(e, env, cell.result.value))
    && (cell.waiter.Some? ==> WaiterOk(spec, env, e, cell.waiter.value))
  }

  ghost predicate Sound(s: State, env: Env, main: Expr, leaves: nat) {
    && leaves <= |s.spec| == |s.cells|
    && (forall k :: 0 <= k < leaves ==> s.spec[k] == Leaf(k))
    && (forall k :: k in s.pending ==> k < leaves)
    && (forall i :: 0 <= i < |s.acts| ==> ActOk(s.spec, env, main, s.acts[i]))
    && (forall c :: 0 <= c < |s.cells| ==> CellOk(s.spec, env, s.spec[c], s.cells[c]))
    && (s.root.Some? ==> s.root.value < |s.spec| && s.spec[s.root.value] == main)
  }

  lemma BecomeSound(s: State, env: Env, main: Expr, leaves: nat, i: nat, a: Activity)
    requires Sound(s, env, main, leaves) && i < |s.acts| && ActOk(s.spec, env, main, a)
    ensures Sound(Become(s, i, a), env, main, leaves)
  {
  }

  lemma AllocSound(s: State, env: Env, main: Expr, leaves: nat, cell: Cell, e: Expr)
    requires Sound(s, env, main, leaves) && CellOk(s.spec, env, e, cell) && cell.waiter.None?
    ensures Sound(Alloc(s, cell, e), env, main, leaves)
  {
    var s' := Alloc(s, cell, e);
    forall i | 0 <= i < |s'.acts| ensures ActOk(s'.spec, env, main, s'.acts[i]) {
      assert ActOk(s.spec, env, main, s.acts[i]);
    }
    forall c | 0 <= c < |s'.cells| ensures CellOk(s'.spec, env, s'.spec[c], s'.cells[c]) {
      assert c < |s.cells| ==> CellOk(s.spec, env, s.spec[c], s.cells[c]);
    }
  }

  lemma WaiterFires(spec: seq<Expr>, env: Env, e: Expr, w: Waiter, o: Outcome)
    requires WaiterOk(spec, env, e, w) && Evaluates(e, env, o)
    ensures RunOk(spec, env, w, o)
  {
    if w.Relay? { ChainEnds(spec[w.p], env); }
  }

  lemma SpawnSound(s: State, env: Env, main: Expr, leaves: nat, a: Activity)
    requires Sound(s, env, main, leaves) && ActOk(s.spec, env, main, a)
    ensures Sound(s.(acts := s.acts + [a]), env, main, leaves)
  {
  }

  lemma SetCellSound(s: State, env: Env, main: Expr, leaves: nat, c: nat, cell: Cell)
    requires Sound(s, env, main, leaves) && c < |s.cells| && CellOk(s.spec, env, s.spec[c], cell)
    ensures Sound(s.(cells := s.cells[c := cell]), env, main, leaves)
  {
  }

  lemma SetCallbackSound(s: State, env: Env, main: Expr, leaves: nat, c: nat, w: Waiter)
    requires Sound(s, env, main, leaves) && c < |s.cells| && WaiterOk(s.spec, env, s.spec[c], w)
    ensures Sound(SetCallback(s, c, w), env, main, leaves)
  {
    var cell := s.cells[c];
    assert CellOk(s.spec, env, s.spec[c], cell);
    if cell.result.None? {
      SetCellSound(s, env, main, leaves, c, cell.(waiter := Some(w)));
    } else if !cell.taken {
      WaiterFires(s.spec, env, s.spec[c], w, cell.result.value);
      SetCellSound(s, env, main, leaves, c, cell.(taken := true));
      SpawnSound(s.(cells := s.cells[c := cell.(taken := true)]), env, main, leaves, Running(w, cell.result.value));
    }
  }

  lemma SetResultSound(s: State, env: Env, main: Expr, leaves: nat, p: nat, o: Outcome)
    requires Sound(s, env, main, leaves) && p < |s.cells| && Evaluates(s.spec[p], env, o)
    ensures Sound(SetResult(s, p, o), env, main, leaves)
  {
    var cell := s.cells[p];
    assert CellOk(s.spec, env, s.spec[p], cell);
    if cell.waiter.Some? && !cell.taken {
      WaiterFires(s.spec, env, s.spec[p], cell.waiter.value, o);
      SetCellSound(s, env, main, leaves, p, Cell(Some(o), true, cell.waiter));
      SpawnSound(s.(cells := s.cells[p := Cell(Some(o), true, cell.waiter)]), env, main, leaves,
          Running(cell.waiter.value, o));
    } else {
      SetCellSound(s, env, main, leaves, p, cell.(result := Some(o)));
    }
  }

  lemma NowEvaluates(o: Outcome, env: Env)
    ensures Evaluates(Now(o), env, o) && Result(Now(o), env) == Answer(o, 1, multiset{})
  {
    FuelGivesResult(Now(o), env, 1);
  }

  lemma LeafEvaluates(k: nat, env: Env)
    ensures Evaluates(Leaf(k), env, env(k)) && Result(Leaf(k), env) == Answer(env(k), 1, multiset{k})
  {
    FuelGivesResult(Leaf(k), env, 1);
  }

  lemma BuildingSound(s: State, env: Env, main: Expr, leaves: nat, i: nat)
    requires Sound(s, env, main, leaves) && CanStep(s, leaves, i) && s.acts[i].Building?
    ensures Sound(Step(s, leaves, i), env, main, leaves)
  {
    var Building(e, ks, d) := s.acts[i];
    assert ActOk(s.spec, env, main, s.acts[i]);
    match e {
      case Now(o) =>
        NowEvaluates(o, env);
        AllocSound(s, env, main, leaves, Cell(Some(o), false, None), e);
        BecomeSound(Alloc(s, Cell(Some(o), false, None), e), env, main, leaves, i, Built(|s.cells|, ks, d, false));
      case Leaf(k) =>
        BecomeSound(s.(moved := s.moved + {k}), env, main, leaves, i, Built(k, ks, d, false));
      case Then(m, f) =>
        assert Plug(m, Cons(KThen(f), ks)) == Plug(e, ks);
        BecomeSound(s, env, main, leaves, i, Building(m, Cons(KThen(f), ks), d));
      case ThenWrapped(m, g) =>
        assert Plug(m, Cons(KThenWrapped(g), ks)) == Plug(e, ks);
        BecomeSound(s, env, main, leaves, i, Building(m, Cons(KThenWrapped(g), ks), d));
    }
  }

  lemma RegisterSound(s: State, env: Env, main: Expr, leaves: nat, i: nat)
    requires Sound(s, env, main, leaves) && CanStep(s, leaves, i) && s.acts[i].Built? && s.acts[i].ks.Cons?
    ensures Sound(Step(s, leaves, i), env, main, leaves)
  {
    var Built(c, Cons(k, rest), d, _) := s.acts[i];
    assert ActOk(s.spec, env, main, s.acts[i]);
    assert CellOk(s.spec, env, s.spec[c], s.cells[c]);
    var e := Chain(s.spec[c], k);
    AllocSound(s, env, main, leaves, FRESH, e);
    var s1 := Alloc(s, FRESH, e);
    BecomeSound(s1, env, main, leaves, i, Built(|s.cells|, rest, d, false));
    SetCallbackSound(Become(s1, i, Built(|s.cells|, rest, d, false)), env, main, leaves, c, WaiterOf(k, |s.cells|));
  }

  lemma BuiltSound(s: State, env: Env, main: Expr, leaves: nat, i: nat)
    requires Sound(s, env, main, leaves) && CanStep(s, leaves, i) && s.acts[i].Built?
    ensures Sound(Step(s, leaves, i), env, main, leaves)
  {
    var Built(c, ks, d, found) := s.acts[i];
    assert ActOk(s.spec, env, main, s.acts[i]);
    assert CellOk(s.spec, env, s.spec[c], s.cells[c]);
    if ks.Cons? {
      RegisterSound(s, env, main, leaves, i);
    } else if d == Root {
    } else if !found && s.cells[c].result.Some? && !s.cells[c].taken {
      ChainEnds(s.spec[d.p], env);
      SetCellSound(s, env, main, leaves, c, s.cells[c].(taken := true));
    } else if !found {
      BecomeSound(s, env, main, leaves, i, Built(c, Nil, d, true));
    } else {
      BecomeSound(s, env, main, leaves, i, Ended);
      SetCallbackSound(Become(s, i, Ended), env, main, leaves, c, Relay(d.p));
    }
  }

  lemma RunningSound(s: State, env: Env, main: Expr, leaves: nat, i: nat)
    requires Sound(s, env, main, leaves) && CanStep(s, leaves, i) && s.acts[i].Running?
    ensures Sound(Step(s, leaves, i), env, main, leaves)
  {
    var Running(w, o) := s.acts[i];
    assert ActOk(s.spec, env, main, s.acts[i]);
    if w.OnValue? && o.Err? { ChainEnds(s.spec[w.p], env); }
  }

  lemma ResolvingSound(s: State, env: Env, main: Expr, leaves: nat, i: nat)
    requires Sound(s, env, main, leaves) && CanStep(s, leaves, i) && s.acts[i].Resolving?
    ensures Sound(Step(s, leaves, i), env, main, leaves)
  {
    assert ActOk(s.spec, env, main, s.acts[i]);
    BecomeSound(s, env, main, leaves, i, Ended);
    SetResultSound(Become(s, i, Ended), env, main, leaves, s.acts[i].p, s.acts[i].o);
  }

  lemma StepSound(s: State, env: Env, main: Expr, leaves: nat, i: nat)
    requires Sound(s, env, main, leaves) && CanStep(s, leaves, i)
    ensures Sound(Step(s, leaves, i), env, main, leaves)
  {
    match s.acts[i] {
      case Building(_, _, _) => BuildingSound(s, env, main, leaves, i);
      case Built(_, _, _, _) => BuiltSound(s, env, main, leaves, i);
      case Running(_, _) => RunningSound(s, env, main, leaves, i);
      case Resolving(_, _) => ResolvingSound(s, env, main, leaves, i);
    }
  }

  lemma ResolveLeafSound(s: State, env: Env, main: Expr, leaves: nat, k: nat)
    requires Sound(s, env, main, leaves) && k in s.pending
    ensures Sound(ResolveLeaf(s, env, k), env, main, leaves)
  {
    LeafEvaluates(k, env);
    assert ActOk(s.spec, env, main, Resolving(k, env(k)));
  }

  // ---------------------------------------------------------------------------------------------
  // Every future has one holder

  /** Nobody has registered on the future nor taken its result. */
  predicate Untouched(cell: Cell) {
    !cell.taken && cell.waiter.None?
  }

  /** A result is taken only once it is there, and a continuation takes it as soon as it is there. */
  predicate WellFormed(cell: Cell) {
    (cell.taken ==> cell.result.Some?) && (cell.waiter.Some? && cell.result.Some? ==> cell.taken)
  }

  /** Whoever is given cell `c` may be given it. */
  predicate Available(s: State, leaves: nat, c: nat) {
    c < |s.cells| && Untouched(s.cells[c]) && (c < leaves ==> c in s.moved)
  }

  predicate ForRoot(a: Activity) {
    (a.Building? || a.Built?) && a.d == Root
  }

  predicate Linear(s: State, leaves: nat) {
    && leaves <= |s.cells|
    && (forall i :: 0 <= i < |s.acts| && s.acts[i].Built? ==> Available(s, leaves, s.acts[i].c))
    && (forall i, j :: 0 <= i < j < |s.acts| && s.acts[i].Built? && s.acts[j].Built? ==> s.acts[i].c != s.acts[j].c)
    && (s.root.Some? ==> Available(s, leaves, s.root.value) && !HeldByActivity(s, s.root.value))
    && (forall k :: 0 <= k < leaves && k !in s.moved ==> Untouched(s.cells[k]))
    && (forall c :: 0 <= c < |s.cells| ==> WellFormed(s.cells[c]))
    && (forall i, j :: 0 <= i < j < |s.acts| && ForRoot(s.acts[i]) ==> !ForRoot(s.acts[j]))
    && (s.root.Some? ==> forall i :: 0 <= i < |s.acts| ==> !ForRoot(s.acts[i]))
  }

  predicate HeldByActivity(s: State, c: nat) {
    exists i :: 0 <= i < |s.acts| && s.acts[i].Built? && s.acts[i].c == c
  }

  predicate Held(s: State, c: nat) {
    HeldByActivity(s, c) || s.root == Some(c)
  }

  /** A held future may move on inside its activity, or be dropped. */
  lemma BecomeLinear(s: State, leaves: nat, i: nat, a: Activity)
    requires Linear(s, leaves) && i < |s.acts|
    requires a.Built? ==> Available(s, leaves, a.c) && ((s.acts[i].Built? && s.acts[i].c == a.c) || !Held(s, a.c))
    requires ForRoot(a) ==> ForRoot(s.acts[i])
    ensures Linear(Become(s, i, a), leaves)
    ensures s.acts[i].Built? && !(a.Built? && a.c == s.acts[i].c) ==> !Held(Become(s, i, a), s.acts[i].c)
  {
  }

  lemma SetCellLinear(s: State, leaves: nat, c: nat, cell: Cell)
    requires Linear(s, leaves) && c < |s.cells| && !Held(s, c) && (c < leaves ==> c in s.moved || Untouched(cell))
    requires WellFormed(cell)
    ensures Linear(s.(cells := s.cells[c := cell]), leaves)
  {
  }

  lemma SpawnLinear(s: State, leaves: nat, a: Activity)
    requires Linear(s, leaves) && (a.Running? || a.Resolving?)
    ensures Linear(s.(acts := s.acts + [a]), leaves)
  {
  }

  lemma AllocLinear(s: State, leaves: nat, cell: Cell, e: Expr)
    requires Linear(s, leaves) && Untouched(cell)
    ensures Linear(Alloc(s, cell, e), leaves)
    ensures !Held(Alloc(s, cell, e), |s.cells|)
  {
    var s' := Alloc(s, cell, e);
    assert forall i :: 0 <= i < |s.acts| && s.acts[i].Built? ==> Available(s, leaves, s.acts[i].c);
  }

  lemma SetCallbackLinear(s: State, leaves: nat, c: nat, w: Waiter)
    requires Linear(s, leaves) && c < |s.cells| && !Held(s, c) && (c < leaves ==> c in s.moved)
    ensures Linear(SetCallback(s, c, w), leaves)
  {
    var cell := s.cells[c];
    if cell.result.None? {
      SetCellLinear(s, leaves, c, cell.(waiter := Some(w)));
    } else if !cell.taken {
      SetCellLinear(s, leaves, c, cell.(taken := true));
      SpawnLinear(s.(cells := s.cells[c := cell.(taken := true)]), leaves, Running(w, cell.result.value));
    }
  }

  lemma SetResultLinear(s: State, leaves: nat, p: nat, o: Outcome)
    requires Linear(s, leaves) && p < |s.cells|
    ensures Linear(SetResult(s, p, o), leaves)
  {
    var cell := s.cells[p];
    if cell.waiter.Some? && !cell.taken {
      SetCellLinear(s, leaves, p, Cell(Some(o), true, cell.waiter));
      SpawnLinear(s.(cells := s.cells[p := Cell(Some(o), true, cell.waiter)]), leaves, Running(cell.waiter.value, o));
    }
  }

  lemma StepLinear(s: State, leaves: nat, i: nat)
    requires Linear(s, leaves) && |s.spec| == |s.cells| && CanStep(s, leaves, i)
    ensures Linear(Step(s, leaves, i), leaves)
  {
    match s.acts[i] {
      case Building(Now(o), ks, d) =>
        AllocLinear(s, leaves, Cell(Some(o), false, None), Now(o));
        BecomeLinear(Alloc(s, Cell(Some(o), false, None), Now(o)), leaves, i, Built(|s.cells|, ks, d, false));
      case Building(Leaf(k), ks, d) =>
        var s1 := s.(moved := s.moved + {k});
        assert !Held(s1, k);
        BecomeLinear(s1, leaves, i, Built(k, ks, d, false));
      case Building(Then(m, f), ks, d) => BecomeLinear(s, leaves, i, Building(m, Cons(KThen(f), ks), d));
      case Building(ThenWrapped(m, g), ks, d) => BecomeLinear(s, leaves, i, Building(m, Cons(KThenWrapped(g), ks), d));
      case Built(c, ks, d, _) => BuiltLinear(s, leaves, i);
      case Running(OnValue(f, p), Val(v)) => BecomeLinear(s, leaves, i, Building(f(v), Nil, Into(p)));
      case Running(OnValue(f, p), Err(x)) => BecomeLinear(s, leaves, i, Resolving(p, Err(x)));
      case Running(OnFuture(g, p), o) => BecomeLinear(s, leaves, i, Building(g(o), Nil, Into(p)));
      case Running(Relay(p), o) => BecomeLinear(s, leaves, i, Resolving(p, o));
      case Resolving(p, o) =>
        BecomeLinear(s, leaves, i, Ended);
        SetResultLinear(Become(s, i, Ended), leaves, p, o);
    }
  }

  lemma BuiltLinear(s: State, leaves: nat, i: nat)
    requires Linear(s, leaves) && |s.spec| == |s.cells| && CanStep(s, leaves, i) && s.acts[i].Built?
    ensures Linear(Step(s, leaves, i), leaves)
  {
    var Built(c, ks, d, found) := s.acts[i];
    assert Available(s, leaves, c);
    match ks {
      case Cons(k, rest) =>
        var s1 := Alloc(s, FRESH, Chain(s.spec[c], k));
        AllocLinear(s, leaves, FRESH, Chain(s.spec[c], k));
        BecomeLinear(s1, leaves, i, Built(|s.cells|, rest, d, false));
        SetCallbackLinear(Become(s1, i, Built(|s.cells|, rest, d, false)), leaves, c, WaiterOf(k, |s.cells|));
      case Nil =>
        if d == Root {
          BecomeLinear(s, leaves, i, Ended);
          var s1 := Become(s, i, Ended);
          assert ForRoot(s.acts[i]);
          assert !HeldByActivity(s1, c);
        } else if !found && s.cells[c].result.Some? && !s.cells[c].taken {
          var a := Resolving(d.p, s.cells[c].result.value);
          BecomeLinear(s, leaves, i, a);
          SetCellLinear(Become(s, i, a), leaves, c, s.cells[c].(taken := true));
        } else if !found {
          BecomeLinear(s, leaves, i, Built(c, Nil, d, true));
        } else {
          BecomeLinear(s, leaves, i, Ended);
          SetCallbackLinear(Become(s, i, Ended), leaves, c, Relay(d.p));
        }
    }
  }

  lemma ResolveLeafLinear(s: State, env: Env, leaves: nat, k: nat)
    requires Linear(s, leaves)
    ensures Linear(ResolveLeaf(s, env, k), leaves)
  {
    SpawnLinear(s, leaves, Resolving(k, env(k)));
  }

  // ---------------------------------------------------------------------------------------------
  // Every unresolved future has somebody who will resolve it

  /** Activity `a` works towards resolving cell `p`. */
  predicate Feeds(a: Activity, p: nat) {
    match a
    case Building(_, _, d) => d == Into(p)
    case Built(_, _, d, _) => d == Into(p)
    case Running(w, _) => w.p == p
    case Resolving(q, _) => q == p
    case Ended => false
  }

  /** A continuation left in an unresolved cell will, once run, work towards resolving cell `p`. */
  predicate WaitsFor(cell: Cell, p: nat) {
    cell.result.None? && cell.waiter.Some? && cell.waiter.value.p == p
  }

  predicate Fed(s: State, p: nat) {
    || p in s.pending
    || (exists i :: 0 <= i < |s.acts| && Feeds(s.acts[i], p))
    || (exists c :: 0 <= c < |s.cells| && WaitsFor(s.cells[c], p))
  }

  predicate AllFed(s: State) {
    && (forall p {:trigger Fed(s, p)} :: 0 <= p < |s.cells| && s.cells[p].result.None? ==> Fed(s, p))
    && (s.root.None? ==> exists i :: 0 <= i < |s.acts| && ForRoot(s.acts[i]))
  }

  /** `s'` still has what fed `p` in `s`. */
  predicate StillFed(s: State, s': State, p: nat) {
    Fed(s, p) ==> Fed(s', p)
  }

  lemma BecomeFed(s: State, i: nat, a: Activity, p: nat)
    requires i < |s.acts| && (Feeds(s.acts[i], p) ==> Feeds(a, p))
    ensures StillFed(s, Become(s, i, a), p)
  {
    var s' := Become(s, i, a);
    if j :| 0 <= j < |s.acts| && Feeds(s.acts[j], p) { assert Feeds(s'.acts[j], p); }
  }

  lemma AllocFed(s: State, cell: Cell, e: Expr, p: nat)
    ensures StillFed(s, Alloc(s, cell, e), p)
  {
    var s' := Alloc(s, cell, e);
    if c :| 0 <= c < |s.cells| && WaitsFor(s.cells[c], p) { assert WaitsFor(s'.cells[c], p); }
  }

  lemma SetCallbackFed(s: State, c: nat, w: Waiter, p: nat)
    requires c < |s.cells| && Untouched(s.cells[c])
    ensures StillFed(s, SetCallback(s, c, w), p) && Fed(SetCallback(s, c, w), w.p)
  {
    var s' := SetCallback(s, c, w);
    if j :| 0 <= j < |s.acts| && Feeds(s.acts[j], p) { assert Feeds(s'.acts[j], p); }
    if d :| 0 <= d < |s.cells| && WaitsFor(s.cells[d], p) { assert WaitsFor(s'.cells[d], p); }
    if s.cells[c].result.None? {
      assert WaitsFor(s'.cells[c], w.p);
    } else {
      assert Feeds(s'.acts[|s.acts|], w.p);
    }
  }

  lemma SetResultFed(s: State, leaves: nat, q: nat, o: Outcome, p: nat)
    requires Linear(s, leaves) && q < |s.cells|
    ensures StillFed(s, SetResult(s, q, o), p)
  {
    var s' := SetResult(s, q, o);
    if j :| 0 <= j < |s.acts| && Feeds(s.acts[j], p) { assert Feeds(s'.acts[j], p); }
    if d :| 0 <= d < |s.cells| && WaitsFor(s.cells[d], p) {
      if d == q {
        assert Feeds(s'.acts[|s.acts|], p);
      } else {
        assert WaitsFor(s'.cells[d], p);
      }
    }
  }

  /** A step keeps every other future fed and feeds the one it makes; only the future it resolves needs no more. */
  lemma StepFed(s: State, leaves: nat, i: nat, p: nat)
    requires Linear(s, leaves) && |s.spec| == |s.cells| && CanStep(s, leaves, i)
    requires p < |Step(s, leaves, i).cells| && Step(s, leaves, i).cells[p].result.None?
    requires p < |s.cells| ==> Fed(s, p)
    ensures Fed(Step(s, leaves, i), p)
  {
    match s.acts[i] {
      case Building(Now(o), ks, d) =>
        AllocFed(s, Cell(Some(o), false, None), Now(o), p);
        BecomeFed(Alloc(s, Cell(Some(o), false, None), Now(o)), i, Built(|s.cells|, ks, d, false), p);
      case Building(Leaf(k), ks, d) => BecomeFed(s.(moved := s.moved + {k}), i, Built(k, ks, d, false), p);
      case Building(Then(m, f), ks, d) => BecomeFed(s, i, Building(m, Cons(KThen(f), ks), d), p);
      case Building(ThenWrapped(m, g), ks, d) => BecomeFed(s, i, Building(m, Cons(KThenWrapped(g), ks), d), p);
      case Built(c, ks, d, _) => BuiltFed(s, leaves, i, p);
      case Running(OnValue(f, q), Val(v)) => BecomeFed(s, i, Building(f(v), Nil, Into(q)), p);
      case Running(OnValue(f, q), Err(x)) => BecomeFed(s, i, Resolving(q, Err(x)), p);
      case Running(OnFuture(g, q), o) => BecomeFed(s, i, Building(g(o), Nil, Into(q)), p);
      case Running(Relay(q), o) => BecomeFed(s, i, Resolving(q, o), p);
      case Resolving(q, o) =>
        BecomeLinear(s, leaves, i, Ended);
        BecomeFed(s, i, Ended, p);
        SetResultFed(Become(s, i, Ended), leaves, q, o, p);
    }
  }

  lemma BuiltFed(s: State, leaves: nat, i: nat, p: nat)
    requires Linear(s, leaves) && |s.spec| == |s.cells| && CanStep(s, leaves, i) && s.acts[i].Built?
    requires p < |Step(s, leaves, i).cells| && Step(s, leaves, i).cells[p].result.None?
    requires p < |s.cells| ==> Fed(s, p)
    ensures Fed(Step(s, leaves, i), p)
  {
    var Built(c, ks, d, found) := s.acts[i];
    assert Available(s, leaves, c);
    match ks {
      case Cons(k, rest) =>
        var s1 := Alloc(s, FRESH, Chain(s.spec[c], k));
        AllocFed(s, FRESH, Chain(s.spec[c], k), p);
        BecomeFed(s1, i, Built(|s.cells|, rest, d, false), p);
        SetCallbackFed(Become(s1, i, Built(|s.cells|, rest, d, false)), c, WaiterOf(k, |s.cells|), p);
      case Nil =>
        if d == Root {
          BecomeFed(s, i, Ended, p);
        } else if !found && s.cells[c].result.Some? && !s.cells[c].taken {
          var s1 := s.(cells := s.cells[c := s.cells[c].(taken := true)]);
          if e :| 0 <= e < |s.cells| && WaitsFor(s.cells[e], p) { assert WaitsFor(s1.cells[e], p); }
          BecomeFed(s1, i, Resolving(d.p, s.cells[c].result.value), p);
        } else if !found {
          BecomeFed(s, i, Built(c, Nil, d, true), p);
        } else {
          if p != d.p { BecomeFed(s, i, Ended, p); }
          SetCallbackFed(Become(s, i, Ended), c, Relay(d.p), p);
        }
    }
  }

  lemma StepRootFed(s: State, leaves: nat, i: nat)
    requires Linear(s, leaves) && |s.spec| == |s.cells| && CanStep(s, leaves, i) && AllFed(s)
    ensures var s' := Step(s, leaves, i);
            s'.root.None? ==> exists j :: 0 <= j < |s'.acts| && ForRoot(s'.acts[j])
  {
    var s' := Step(s, leaves, i);
    if s'.root.None? {
      var j :| 0 <= j < |s.acts| && ForRoot(s.acts[j]);
      assert ForRoot(s'.acts[j]);
    }
  }

  lemma StepAllFed(s: State, leaves: nat, i: nat)
    requires Linear(s, leaves) && |s.spec| == |s.cells| && CanStep(s, leaves, i) && AllFed(s)
    ensures AllFed(Step(s, leaves, i))
  {
    var s' := Step(s, leaves, i);
    forall p | 0 <= p < |s'.cells| && s'.cells[p].result.None? ensures Fed(s', p) {
      assert p < |s.cells| ==> s.cells[p].result.None?;
      StepFed(s, leaves, i, p);
    }
    StepRootFed(s, leaves, i);
  }

  lemma ResolveLeafAllFed(s: State, env: Env, k: nat)
    requires AllFed(s) && k in s.pending
    ensures AllFed(ResolveLeaf(s, env, k))
  {
    var s' := ResolveLeaf(s, env, k);
    forall p | 0 <= p < |s'.cells| && s'.cells[p].result.None? ensures Fed(s', p) {
      assert Fed(s, p);
      if p == k {
        assert Feeds(s'.acts[|s.acts|], p);
      } else if i :| 0 <= i < |s.acts| && Feeds(s.acts[i], p) {
        assert Feeds(s'.acts[i], p);
      }
    }
    if s'.root.None? {
      var j :| 0 <= j < |s.acts| && ForRoot(s.acts[j]);
      assert ForRoot(s'.acts[j]);
    }
  }

  // ---------------------------------------------------------------------------------------------
  // Every step does one unit of the work sequential evaluation asks for

  ghost predicate AllEnd(spec: seq<Expr>, env: Env) {
    forall c :: 0 <= c < |spec| ==> Ends(spec[c], env)
  }

  lemma {:induction false} PlugEnds(e: Expr, ks: Frames, env: Env)
    requires Ends(Plug(e, ks), env)
    ensures Ends(e, env)
    decreases ks
  {
    match ks {
      case Nil =>
      case Cons(k, rest) =>
        PlugEnds(Chain(e, k), rest, env);
        ChainPartsEnd(Chain(e, k), env);
    }
  }

  lemma DestEnds(spec: seq<Expr>, env: Env, main: Expr, d: Dest, e: Expr)
    requires AllEnd(spec, env) && Ends(main, env) && DestOk(spec, env, main, d, e)
    ensures Ends(e, env)
  {
    if d.Into? { ChainPartsEnd(spec[d.p], env); }
  }

  lemma StepAllEnd(s: State, env: Env, main: Expr, leaves: nat, i: nat)
    requires Sound(s, env, main, leaves) && AllEnd(s.spec, env) && Ends(main, env) && CanStep(s, leaves, i)
    ensures AllEnd(Step(s, leaves, i).spec, env)
  {
    assert ActOk(s.spec, env, main, s.acts[i]);
    match s.acts[i] {
      case Building(Now(o), ks, d) => NowEvaluates(o, env);
      case Built(c, Cons(k, rest), d, _) =>
        DestEnds(s.spec, env, main, d, Plug(s.spec[c], s.acts[i].ks));
        PlugEnds(Chain(s.spec[c], k), rest, env);
      case _ =>
    }
  }

  /** The steps from the moment a continuation is scheduled to the moment its promise is resolved. */
  ghost function CallbackWork(w: Waiter, o: Outcome, env: Env): nat {
    match w
    case OnValue(f, _) => if o.Val? then 5 + Result(f(o.v), env).cost else 2
    case OnFuture(g, _) => 5 + Result(g(o), env).cost
    case Relay(_) => 2
  }

  ghost function FramesWork(ks: Frames, e: Expr, env: Env): nat
    decreases ks
  {
    match ks
    case Nil => 0
    case Cons(k, rest) => 1 + CallbackWork(WaiterOf(k, 0), Result(e, env).o, env) + FramesWork(rest, Chain(e, k), env)
  }

  function DestWork(d: Dest): nat {
    if d == Root then 1 else 4
  }

  ghost function ActWork(spec: seq<Expr>, env: Env, a: Activity): nat {
    match a
    case Building(e, ks, d) => Result(e, env).cost + FramesWork(ks, e, env) + DestWork(d)
    case Built(c, ks, d, found) =>
      if c >= |spec| then 0 else if found && ks.Nil? && d.Into? then 3 else FramesWork(ks, spec[c], env) + DestWork(d)
    case Running(w, o) => CallbackWork(w, o, env)
    case Resolving(_, _) => 1
    case Ended => 0
  }

  ghost function CellWork(e: Expr, env: Env, cell: Cell): nat {
    if cell.result.None? && cell.waiter.Some? then CallbackWork(cell.waiter.value, Result(e, env).o, env) else 0
  }

  ghost function ActsWork(spec: seq<Expr>, env: Env, acts: seq<Activity>): nat {
    if acts == [] then 0 else ActsWork(spec, env, acts[..|acts| - 1]) + ActWork(spec, env, acts[|acts| - 1])
  }

  ghost function CellsWork(spec: seq<Expr>, env: Env, cells: seq<Cell>): nat
    requires |cells| <= |spec|
  {
    if cells == [] then 0
    else CellsWork(spec, env, cells[..|cells| - 1]) + CellWork(spec[|cells| - 1], env, cells[|cells| - 1])
  }

  ghost function Work(s: State, env: Env): nat
    requires |s.cells| == |s.spec|
  {
    ActsWork(s.spec, env, s.acts) + CellsWork(s.spec, env, s.cells) + 2 * |s.pending|
  }

  lemma {:induction false} ActsWorkUpdate(spec: seq<Expr>, env: Env, acts: seq<Activity>, i: nat, a: Activity)
    requires i < |acts|
    ensures ActsWork(spec, env, acts[i := a]) ==
              ActsWork(spec, env, acts) - ActWork(spec, env, acts[i]) + ActWork(spec, env, a)
  {
    var n := |acts| - 1;
    if i < n {
      assert acts[i := a][..n] == acts[..n][i := a];
      ActsWorkUpdate(spec, env, acts[..n], i, a);
    } else {
      assert acts[i := a][..n] == acts[..n];
    }
  }

  lemma {:induction false} CellsWorkUpdate(spec: seq<Expr>, env: Env, cells: seq<Cell>, c: nat, cell: Cell)
    requires c < |cells| <= |spec|
    ensures CellsWork(spec, env, cells[c := cell]) ==
            CellsWork(spec, env, cells) - CellWork(spec[c], env, cells[c]) + CellWork(spec[c], env, cell)
  {
    var n := |cells| - 1;
    if c < n {
      assert cells[c := cell][..n] == cells[..n][c := cell];
      CellsWorkUpdate(spec, env, cells[..n], c, cell);
    } else {
      assert cells[c := cell][..n] == cells[..n];
    }
  }

  lemma {:induction false} ActsWorkAlloc(spec: seq<Expr>, env: Env, acts: seq<Activity>, e: Expr)
    requires forall i :: 0 <= i < |acts| && acts[i].Built? ==> acts[i].c < |spec|
    ensures ActsWork(spec + [e], env, acts) == ActsWork(spec, env, acts)
  {
    if acts != [] { ActsWorkAlloc(spec, env, acts[..|acts| - 1], e); }
  }

  lemma {:induction false} CellsWorkAlloc(spec: seq<Expr>, env: Env, cells: seq<Cell>, e: Expr)
    requires |cells| <= |spec|
    ensures CellsWork(spec + [e], env, cells) == CellsWork(spec, env, cells)
  {
    if cells != [] { CellsWorkAlloc(spec, env, cells[..|cells| - 1], e); }
  }

  lemma BecomeWork(s: State, env: Env, i: nat, a: Activity)
    requires |s.cells| == |s.spec| && i < |s.acts|
    ensures Work(Become(s, i, a), env) == Work(s, env) - ActWork(s.spec, env, s.acts[i]) + ActWork(s.spec, env, a)
  {
    ActsWorkUpdate(s.spec, env, s.acts, i, a);
  }

  lemma SpawnWork(s: State, env: Env, a: Activity)
    requires |s.cells| == |s.spec|
    ensures Work(s.(acts := s.acts + [a]), env) == Work(s, env) + ActWork(s.spec, env, a)
  {
    assert (s.acts + [a])[..|s.acts|] == s.acts;
  }

  lemma SetCellWork(s: State, env: Env, c: nat, cell: Cell)
    requires |s.cells| == |s.spec| && c < |s.cells|
    ensures Work(s.(cells := s.cells[c := cell]), env) ==
              Work(s, env) - CellWork(s.spec[c], env, s.cells[c]) + CellWork(s.spec[c], env, cell)
  {
    CellsWorkUpdate(s.spec, env, s.cells, c, cell);
  }

  lemma AllocWork(s: State, env: Env, main: Expr, leaves: nat, cell: Cell, e: Expr)
    requires Sound(s, env, main, leaves) && cell.waiter.None?
    ensures Work(Alloc(s, cell, e), env) == Work(s, env)
  {
    forall i | 0 <= i < |s.acts| && s.acts[i].Built? ensures s.acts[i].c < |s.spec| {
      assert ActOk(s.spec, env, main, s.acts[i]);
    }
    ActsWorkAlloc(s.spec, env, s.acts, e);
    CellsWorkAlloc(s.spec, env, s.cells, e);
    assert (s.cells + [cell])[..|s.cells|] == s.cells;
  }

  lemma SetCallbackWork(s: State, env: Env, main: Expr, leaves: nat, c: nat, w: Waiter)
    requires Sound(s, env, main, leaves) && c < |s.cells| && Untouched(s.cells[c])
    ensures Work(SetCallback(s, c, w), env) == Work(s, env) + CallbackWork(w, Result(s.spec[c], env).o, env)
  {
    var cell := s.cells[c];
    assert CellOk(s.spec, env, s.spec[c], cell);
    if cell.result.None? {
      SetCellWork(s, env, c, cell.(waiter := Some(w)));
    } else {
      SetCellWork(s, env, c, cell.(taken := true));
      SpawnWork(s.(cells := s.cells[c := cell.(taken := true)]), env, Running(w, cell.result.value));
    }
  }

  lemma SetResultWork(s: State, env: Env, p: nat, o: Outcome)
    requires |s.cells| == |s.spec| && p < |s.cells| && WellFormed(s.cells[p]) && Evaluates(s.spec[p], env, o)
    ensures Work(SetResult(s, p, o), env) == Work(s, env)
  {
    var cell := s.cells[p];
    if cell.waiter.Some? && !cell.taken {
      SetCellWork(s, env, p, Cell(Some(o), true, cell.waiter));
      SpawnWork(s.(cells := s.cells[p := Cell(Some(o), true, cell.waiter)]), env, Running(cell.waiter.value, o));
    } else {
      SetCellWork(s, env, p, cell.(result := Some(o)));
    }
  }

  /** The work of a chain is the work of what it waits for, of registering, and of running its callback. */
  lemma ChainWork(e: Expr, k: Frame, env: Env)
    requires Ends(Chain(e, k), env)
    ensures Result(Chain(e, k), env).cost ==
              Result(e, env).cost + 2 + CallbackWork(WaiterOf(k, 0), Result(e, env).o, env)
  {
    ChainPartsEnd(Chain(e, k), env);
    ChainEnds(Chain(e, k), env);
  }

  lemma BuildingWork(s: State, env: Env, main: Expr, leaves: nat, i: nat)
    requires Sound(s, env, main, leaves) && AllEnd(s.spec, env) && Ends(main, env)
    requires CanStep(s, leaves, i) && s.acts[i].Building?
    ensures Work(Step(s, leaves, i), env) == Work(s, env) - 1
  {
    var Building(e, ks, d) := s.acts[i];
    assert ActOk(s.spec, env, main, s.acts[i]);
    DestEnds(s.spec, env, main, d, Plug(e, ks));
    PlugEnds(e, ks, env);
    match e {
      case Now(o) =>
        NowEvaluates(o, env);
        AllocWork(s, env, main, leaves, Cell(Some(o), false, None), e);
        var s1 := Alloc(s, Cell(Some(o), false, None), e);
        BecomeWork(s1, env, i, Built(|s.cells|, ks, d, false));
      case Leaf(k) =>
        LeafEvaluates(k, env);
        BecomeWork(s.(moved := s.moved + {k}), env, i, Built(k, ks, d, false));
      case Then(m, f) =>
        ChainWork(m, KThen(f), env);
        BecomeWork(s, env, i, Building(m, Cons(KThen(f), ks), d));
      case ThenWrapped(m, g) =>
        ChainWork(m, KThenWrapped(g), env);
        BecomeWork(s, env, i, Building(m, Cons(KThenWrapped(g), ks), d));
    }
  }

  lemma RegisterWork(s: State, env: Env, main: Expr, leaves: nat, i: nat)
    requires Sound(s, env, main, leaves) && Linear(s, leaves) && CanStep(s, leaves, i) && s.acts[i].Built?
               && s.acts[i].ks.Cons?
    ensures Work(Step(s, leaves, i), env) < Work(s, env)
  {
    var Built(c, Cons(k, rest), d, _) := s.acts[i];
    assert ActOk(s.spec, env, main, s.acts[i]) && Available(s, leaves, c);
    var e := Chain(s.spec[c], k);
    AllocWork(s, env, main, leaves, FRESH, e);
    AllocSound(s, env, main, leaves, FRESH, e);
    var s1, a := Alloc(s, FRESH, e), Built(|s.cells|, rest, d, false);
    BecomeWork(s1, env, i, a);
    BecomeSound(s1, env, main, leaves, i, a);
    SetCallbackWork(Become(s1, i, a), env, main, leaves, c, WaiterOf(k, |s.cells|));
  }

  lemma ChainFutureWork(s: State, env: Env, main: Expr, leaves: nat, i: nat)
    requires Sound(s, env, main, leaves) && Linear(s, leaves) && CanStep(s, leaves, i) && s.acts[i].Built?
               && s.acts[i].ks.Nil?
    ensures Work(Step(s, leaves, i), env) < Work(s, env)
  {
    var Built(c, _, d, found) := s.acts[i];
    assert ActOk(s.spec, env, main, s.acts[i]) && Available(s, leaves, c);
    if d == Root {
      BecomeWork(s, env, i, Ended);
    } else if found {
      BecomeWork(s, env, i, Ended);
      BecomeSound(s, env, main, leaves, i, Ended);
      SetCallbackWork(Become(s, i, Ended), env, main, leaves, c, Relay(d.p));
    } else if s.cells[c].result.Some? {
      SetCellWork(s, env, c, s.cells[c].(taken := true));
      BecomeWork(s.(cells := s.cells[c := s.cells[c].(taken := true)]), env, i,
          Resolving(d.p, s.cells[c].result.value));
    } else {
      BecomeWork(s, env, i, Built(c, Nil, d, true));
    }
  }

  lemma RunningWork(s: State, env: Env, main: Expr, leaves: nat, i: nat)
    requires Sound(s, env, main, leaves) && AllEnd(s.spec, env) && CanStep(s, leaves, i) && s.acts[i].Running?
    ensures Work(Step(s, leaves, i), env) < Work(s, env)
  {
    assert ActOk(s.spec, env, main, s.acts[i]);
    BecomeWork(s, env, i, Step(s, leaves, i).acts[i]);
  }

  lemma StepWork(s: State, env: Env, main: Expr, leaves: nat, i: nat)
    requires Sound(s, env, main, leaves) && Linear(s, leaves) && AllEnd(s.spec, env) && Ends(main, env)
    requires CanStep(s, leaves, i)
    ensures Work(Step(s, leaves, i), env) < Work(s, env)
  {
    assert ActOk(s.spec, env, main, s.acts[i]);
    match s.acts[i] {
      case Building(_, _, _) => BuildingWork(s, env, main, leaves, i);
      case Built(_, Cons(_, _), _, _) => RegisterWork(s, env, main, leaves, i);
      case Built(_, Nil, _, _) => ChainFutureWork(s, env, main, leaves, i);
      case Running(_, _) => RunningWork(s, env, main, leaves, i);
      case Resolving(p, o) =>
        BecomeWork(s, env, i, Ended);
        SetResultWork(Become(s, i, Ended), env, p, o);
    }
  }

  lemma ResolveLeafWork(s: State, env: Env, k: nat)
    requires |s.cells| == |s.spec| && k in s.pending
    ensures Work(ResolveLeaf(s, env, k), env) == Work(s, env) - 1
  {
    SpawnWork(s.(pending := s.pending - {k}), env, Resolving(k, env(k)));
  }

  // ---------------------------------------------------------------------------------------------
  // What every run does

  ghost predicate Inv(s: State, env: Env, main: Expr, leaves: nat) {
    Sound(s, env, main, leaves) && Linear(s, leaves) && AllFed(s)
  }

  lemma InitInv(env: Env, main: Expr, leaves: nat)
    ensures Inv(Init(main, leaves), env, main, leaves)
  {
    assert ForRoot(Init(main, leaves).acts[0]);
  }

  lemma InitWork(env: Env, main: Expr, leaves: nat)
    ensures AllEnd(Init(main, leaves).spec, env)
    ensures Work(Init(main, leaves), env) == Result(main, env).cost + 1 + 2 * leaves
  {
    var s := Init(main, leaves);
    forall k | 0 <= k < leaves ensures Ends(s.spec[k], env) { LeafEvaluates(k, env); }
    FreshCellsWork(s.spec, env, s.cells);
    assert s.acts[..|s.acts| - 1] == [];
    assert ActsWork(s.spec, env, s.acts) == ActWork(s.spec, env, s.acts[0]);
    assert |s.pending| == leaves;
  }

  lemma {:induction false} FreshCellsWork(spec: seq<Expr>, env: Env, cells: seq<Cell>)
    requires |cells| <= |spec| && forall c :: 0 <= c < |cells| ==> cells[c] == FRESH
    ensures CellsWork(spec, env, cells) == 0
  {
    if cells != [] { FreshCellsWork(spec, env, cells[..|cells| - 1]); }
  }

  lemma NextInv(s: State, s': State, env: Env, main: Expr, leaves: nat)
    requires Inv(s, env, main, leaves) && Next(s, s', env, leaves)
    ensures Inv(s', env, main, leaves)
    ensures AllEnd(s.spec, env) && Ends(main, env) ==> AllEnd(s'.spec, env) && Work(s', env) < Work(s, env)
  {
    if i: nat :| CanStep(s, leaves, i) && |s.spec| == |s.cells| && s' == Step(s, leaves, i) {
      StepSound(s, env, main, leaves, i);
      StepLinear(s, leaves, i);
      StepAllFed(s, leaves, i);
      if AllEnd(s.spec, env) && Ends(main, env) {
        StepAllEnd(s, env, main, leaves, i);
        StepWork(s, env, main, leaves, i);
      }
    } else {
      var k: nat :| k in s.pending && s' == ResolveLeaf(s, env, k);
      ResolveLeafSound(s, env, main, leaves, k);
      ResolveLeafLinear(s, env, leaves, k);
      ResolveLeafAllFed(s, env, k);
      ResolveLeafWork(s, env, k);
    }
  }

  lemma {:induction false} RunInv(states: seq<State>, env: Env, main: Expr, leaves: nat)
    requires IsRun(states, main, env, leaves)
    ensures Inv(states[|states| - 1], env, main, leaves)
    ensures Ends(main, env) ==>
              && AllEnd(states[|states| - 1].spec, env)
              && |states| - 1 + Work(states[|states| - 1], env) <= Result(main, env).cost + 1 + 2 * leaves
  {
    var n := |states| - 1;
    if n == 0 {
      InitInv(env, main, leaves);
      InitWork(env, main, leaves);
    } else {
      RunInv(states[..n], env, main, leaves);
      var s, s' := states[n - 1], states[n];
      assert Next(states[n - 1], states[n - 1 + 1], env, leaves);
      NextInv(s, s', env, main, leaves);
    }
  }

  /** Whatever the order in which leaves are resolved and continuations run, the future handed to the user only
      ever resolves to what sequential evaluation gives. In particular it never resolves when that does not end. */
  lemma ResolvesToSequential(states: seq<State>, env: Env, main: Expr, leaves: nat, o: Outcome)
    requires IsRun(states, main, env, leaves)
    requires var s := states[|states| - 1];
             s.root.Some? && s.root.value < |s.cells| && s.cells[s.root.value].result == Some(o)
    ensures Evaluates(main, env, o)
  {
    RunInv(states, env, main, leaves);
    var s := states[|states| - 1];
    assert CellOk(s.spec, env, s.spec[s.root.value], s.cells[s.root.value]);
  }

  /** No continuation overwrites another and no result is taken twice: whoever is about to register on a future,
      or to read its result, is the first to do so. */
  lemma FuturesUsedOnce(states: seq<State>, env: Env, main: Expr, leaves: nat, i: nat)
    requires IsRun(states, main, env, leaves)
    requires i < |states[|states| - 1].acts| && states[|states| - 1].acts[i].Built?
    ensures var s := states[|states| - 1];
            && s.acts[i].c < |s.cells| && Untouched(s.cells[s.acts[i].c])
            && (forall j :: 0 <= j < |s.acts| && j != i && s.acts[j].Built? ==> s.acts[j].c != s.acts[i].c)
  {
    RunInv(states, env, main, leaves);
    assert Available(states[|states| - 1], leaves, states[|states| - 1].acts[i].c);
  }

  /** When every activity has ended and no leaf is pending, every future is resolved: an unresolved one would wait for a
      cheaper one. */
  lemma {:induction false} AllResolved(s: State, env: Env, main: Expr, leaves: nat, p: nat)
    requires Inv(s, env, main, leaves) && AllEnd(s.spec, env) && s.pending == {}
    requires forall i :: 0 <= i < |s.acts| ==> s.acts[i] == Ended
    requires p < |s.cells|
    ensures s.cells[p].result.Some?
    decreases Result(s.spec[p], env).cost
  {
    if s.cells[p].result.None? {
      assert Fed(s, p);
      var c :| 0 <= c < |s.cells| && WaitsFor(s.cells[c], p);
      assert CellOk(s.spec, env, s.spec[c], s.cells[c]);
      ChainPartsEnd(s.spec[p], env);
      ChainEnds(s.spec[p], env);
      AllResolved(s, env, main, leaves, c);
    }
  }

  /** The future handed to the user is resolved with `o`. */
  predicate RootHolds(s: State, o: Outcome) {
    s.root.Some? && s.root.value < |s.cells| && s.cells[s.root.value].result == Some(o)
  }

  /** When nothing can happen any more and no activity is stuck, the user's future holds the sequential result. */
  lemma UnstuckHolds(s: State, env: Env, main: Expr, leaves: nat)
    requires Inv(s, env, main, leaves) && AllEnd(s.spec, env) && Halted(s, leaves) && !UsesMovedFuture(s, leaves)
    ensures RootHolds(s, Result(main, env).o)
  {
    forall i | 0 <= i < |s.acts| ensures s.acts[i] == Ended {
      assert !CanStep(s, leaves, i) && ActOk(s.spec, env, main, s.acts[i]);
    }
    assert s.root.Some?;
    AllResolved(s, env, main, leaves, s.root.value);
    assert CellOk(s.spec, env, s.spec[s.root.value], s.cells[s.root.value]);
  }
}
