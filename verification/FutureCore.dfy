/** The outcome of a future: a value, or the exception it failed with. */
module Outcomes {

  type Value(==, !new)
  type Exception(==, !new)

  datatype Outcome = Val(v: Value) | Err(e: Exception)

}

/**
 The race on one `FutureImpl`: one thread registers a callback through `Then` while any number of threads
 resolve the promise through `SetValue` or `SetException`.

 Each plain store, each load, the region under `mtx` and the `test_and_set` are steps of their own, and the
 steps of different threads interleave freely.
  */
module FutureCore {
  import opened Common
  import opened Outcomes

  datatype Job = Register | Resolve(outcome: Outcome)

  datatype Pc =
    | Begin            // SetCallback: before the callback is stored; SetValue: before the value is stored
    | Stored           // SetValue: value stored, before `ready` is set (SetException: before `failed` is set)
    | Locking          // before the region under mtx
    | TestReady        // TrySchedule: mtx released, before IsReady()
    | TestFailed       // TrySchedule: not ready, before IsFailed()
    | AtFlag(asValue: bool)  // TrySchedule: before schedule_flag.test_and_set()
    | Won(asValue: bool)     // TrySchedule: won the flag, before GetValue() or GetException()
    | Carrying(outcome: Outcome)  // TrySchedule: the continuation holds the outcome, before Schedule()
    | Done

  /** The fields of FutureState. */
  datatype Cell = Cell(
    value: Option<Value>,
    exception: Option<Exception>,
    ready: bool,
    failed: bool,
    hasResult: bool,
    hasCallback: bool,
    callback: bool,           // the continuation is stored
    flag: bool,               // schedule_flag
    winner: Option<nat>,      // auxiliary: the thread that found the flag clear
    scheduled: seq<Outcome>)  // every Schedule() of the continuation, with what it carries

  datatype State = State(cell: Cell, pcs: seq<Pc>)

  function Init(jobs: seq<Job>): State {
    State(Cell(None, None, false, false, false, false, false, false, None, []), seq(|jobs|, _ => Begin))
  }

  /** Exactly one of the threads registers a callback. */
  predicate OneRegistrar(jobs: seq<Job>) {
    exists r :: 0 <= r < |jobs| && jobs[r] == Register && forall t :: 0 <= t < |jobs| && t != r ==> jobs[t].Resolve?
  }

  /** Where a thread goes from `pc`. */
  function NextPc(c: Cell, job: Job, pc: Pc): Pc {
    match pc
    case Begin => if job.Register? then Locking else Stored
    case Stored => Locking
    case Locking => if (if job.Register? then c.hasResult else c.hasCallback) then TestReady else Done
    case TestReady => if c.ready then AtFlag(true) else TestFailed
    case TestFailed => if c.failed then AtFlag(false) else Done
    case AtFlag(asValue) => if c.flag then Done else Won(asValue)
    case Won(asValue) =>
      if asValue && c.value.Some? then Carrying(Val(c.value.value))
      else if !asValue && c.exception.Some? then Carrying(Err(c.exception.value))
      else Done
    case Carrying(_) => Done
    case Done => Done
  }

  /** What thread `t` does to the cell at `pc`. */
  function NextCell(c: Cell, job: Job, t: nat, pc: Pc): Cell {
    match pc
    case Begin =>
      if job.Register? then c.(callback := true)
      else if job.outcome.Val? then c.(value := Some(job.outcome.v))
      else c.(exception := Some(job.outcome.e))
    case Stored =>
      if job.Register? then c else if job.outcome.Val? then c.(ready := true) else c.(failed := true)
    case Locking => if job.Register? then c.(hasCallback := true) else c.(hasResult := true)
    case TestReady => c
    case TestFailed => c
    case AtFlag(_) => if c.flag then c else c.(flag := true, winner := Some(t))
    case Won(asValue) => if asValue then c.(ready := false) else c.(failed := false)
    case Carrying(outcome) => c.(scheduled := c.scheduled + [outcome])
    case Done => c
  }

  predicate Enabled(s: State, jobs: seq<Job>, t: nat) {
    |s.pcs| == |jobs| && t < |jobs| && s.pcs[t] != Done
  }

  function Step(s: State, jobs: seq<Job>, t: nat): State
    requires Enabled(s, jobs, t)
  {
    State(NextCell(s.cell, jobs[t], t, s.pcs[t]), s.pcs[t := NextPc(s.cell, jobs[t], s.pcs[t])])
  }

  predicate AllDone(s: State) {
    forall t :: 0 <= t < |s.pcs| ==> s.pcs[t] == Done
  }

  ghost predicate Next(s: State, s': State, jobs: seq<Job>) {
    exists t: nat :: Enabled(s, jobs, t) && s' == Step(s, jobs, t)
  }

  ghost predicate IsRun(states: seq<State>, jobs: seq<Job>) {
    && 0 < |states|
    && states[0] == Init(jobs)
    && forall i :: 0 <= i < |states| - 1 ==> Next(states[i], states[i + 1], jobs)
  }

  // ---------------------------------------------------------------------------------------------
  // The invariant

  predicate HoldsFlag(pc: Pc) { pc.Won? || pc.Carrying? }

  predicate OnTheWay(pc: Pc) { pc.TestReady? || pc.TestFailed? || pc.AtFlag? }

  /** An outcome some thread was asked to resolve the promise with. */
  predicate Offered(jobs: seq<Job>, o: Outcome) {
    Resolve(o) in jobs
  }

  /** What a thread knows at its program counter. */
  predicate ThreadFacts(c: Cell, jobs: seq<Job>, job: Job, pc: Pc) {
    match pc
    case Begin => true
    case Stored => job.Resolve? && if job.outcome.Val? then c.value.Some? else c.exception.Some?
    case Locking => if job.Register? then c.callback else c.flag || c.ready || c.failed
    case TestReady => c.hasCallback && c.hasResult
    case TestFailed => c.hasCallback && c.hasResult && (c.flag || c.failed)
    case AtFlag(asValue) => c.hasCallback && c.hasResult && (c.flag || if asValue then c.ready else c.failed)
    case Won(asValue) => c.hasCallback && c.hasResult && c.flag && if asValue then c.ready else c.failed
    case Carrying(outcome) => c.hasCallback && c.hasResult && c.flag && Offered(jobs, outcome)
    case Done => if job.Register? then c.hasCallback else c.hasResult
  }

  predicate CellFacts(c: Cell, jobs: seq<Job>) {
    && (c.value.Some? ==> Offered(jobs, Val(c.value.value)))
    && (c.exception.Some? ==> Offered(jobs, Err(c.exception.value)))
    && (c.ready ==> c.value.Some?)
    && (c.failed ==> c.exception.Some?)
    && (c.hasResult && !c.flag ==> c.ready || c.failed)
    && (c.hasCallback ==> c.callback)
    && (c.scheduled != [] ==> c.hasCallback && c.hasResult && Offered(jobs, c.scheduled[0]))
  }

  /** The flag is up exactly when a thread has won it, and only that thread holds it, until it has scheduled
      the continuation. */
  predicate FlagFacts(s: State) {
    && s.cell.flag == s.cell.winner.Some?
    && (s.cell.winner.Some? ==>
          && s.cell.winner.value < |s.pcs|
          && |s.cell.scheduled| == (if HoldsFlag(s.pcs[s.cell.winner.value]) then 0 else 1))
    && (s.cell.winner.None? ==> s.cell.scheduled == [])
    && (forall t :: 0 <= t < |s.pcs| && HoldsFlag(s.pcs[t]) ==> s.cell.winner == Some(t))
  }

  /** Once both sides are in, somebody has taken the flag or is on the way to it. */
  predicate NobodyMissed(s: State) {
    s.cell.hasCallback && s.cell.hasResult && !s.cell.flag ==> exists t :: 0 <= t < |s.pcs| && OnTheWay(s.pcs[t])
  }

  predicate Inv(s: State, jobs: seq<Job>) {
    && |s.pcs| == |jobs|
    && (forall t :: 0 <= t < |s.pcs| ==> ThreadFacts(s.cell, jobs, jobs[t], s.pcs[t]))
    && CellFacts(s.cell, jobs) && FlagFacts(s) && NobodyMissed(s)
  }

  /** The steps before TrySchedule, which only store. */
  predicate Storing(pc: Pc) { pc.Begin? || pc.Stored? || pc.Locking? }

  lemma StoringCell(c: Cell, jobs: seq<Job>, t: nat, pc: Pc)
    requires t < |jobs| && CellFacts(c, jobs) && ThreadFacts(c, jobs, jobs[t], pc) && Storing(pc)
    ensures CellFacts(NextCell(c, jobs[t], t, pc), jobs)
  {
    assert jobs[t] in jobs;
  }

  lemma StepCell(c: Cell, jobs: seq<Job>, t: nat, pc: Pc)
    requires t < |jobs| && CellFacts(c, jobs) && ThreadFacts(c, jobs, jobs[t], pc)
    ensures CellFacts(NextCell(c, jobs[t], t, pc), jobs)
  {
    if Storing(pc) { StoringCell(c, jobs, t, pc); }
  }

  lemma StepSelf(c: Cell, jobs: seq<Job>, t: nat, pc: Pc)
    requires t < |jobs| && CellFacts(c, jobs) && ThreadFacts(c, jobs, jobs[t], pc)
    ensures ThreadFacts(NextCell(c, jobs[t], t, pc), jobs, jobs[t], NextPc(c, jobs[t], pc))
  {
  }

  lemma StoringOther(c: Cell, jobs: seq<Job>, t: nat, pc: Pc, other: Job, otherPc: Pc)
    requires t < |jobs| && ThreadFacts(c, jobs, jobs[t], pc) && ThreadFacts(c, jobs, other, otherPc) && Storing(pc)
    ensures ThreadFacts(NextCell(c, jobs[t], t, pc), jobs, other, otherPc)
  {
  }

  /** Another thread keeps what it knows: only the winner takes a result away. */
  lemma StepOther(c: Cell, jobs: seq<Job>, t: nat, pc: Pc, other: Job, otherPc: Pc)
    requires t < |jobs| && ThreadFacts(c, jobs, jobs[t], pc) && ThreadFacts(c, jobs, other, otherPc)
    requires !(HoldsFlag(pc) && HoldsFlag(otherPc))
    ensures ThreadFacts(NextCell(c, jobs[t], t, pc), jobs, other, otherPc)
  {
    if Storing(pc) { StoringOther(c, jobs, t, pc, other, otherPc); }
  }

  /** What a step does to the flag, its winner and the schedule. */
  predicate FlagMoved(c: Cell, c': Cell, t: nat, pc: Pc, pc': Pc) {
    var wins := pc.AtFlag? && !c.flag;
    && c'.flag == (c.flag || wins)
    && c'.winner == (if wins then Some(t) else c.winner)
    && |c'.scheduled| == |c.scheduled| + (if pc.Carrying? then 1 else 0)
    && HoldsFlag(pc') == (wins || pc.Won?)
  }

  lemma StoringLeavesFlag(c: Cell, job: Job, t: nat, pc: Pc)
    requires Storing(pc)
    ensures FlagMoved(c, NextCell(c, job, t, pc), t, pc, NextPc(c, job, pc))
  {
  }

  /** They change only on the way from AtFlag over Won to Carrying. */
  lemma FlagMoves(c: Cell, jobs: seq<Job>, t: nat, pc: Pc)
    requires t < |jobs| && CellFacts(c, jobs) && ThreadFacts(c, jobs, jobs[t], pc)
    ensures FlagMoved(c, NextCell(c, jobs[t], t, pc), t, pc, NextPc(c, jobs[t], pc))
  {
    if Storing(pc) { StoringLeavesFlag(c, jobs[t], t, pc); }
  }

  lemma StepFlag(s: State, jobs: seq<Job>, t: nat)
    requires FlagFacts(s) && Enabled(s, jobs, t) && CellFacts(s.cell, jobs)
               && ThreadFacts(s.cell, jobs, jobs[t], s.pcs[t])
    ensures FlagFacts(Step(s, jobs, t))
  {
    FlagMoves(s.cell, jobs, t, s.pcs[t]);
    var s' := Step(s, jobs, t);
    forall u | 0 <= u < |s'.pcs| && HoldsFlag(s'.pcs[u]) ensures s'.cell.winner == Some(u) {
      assert u != t ==> HoldsFlag(s.pcs[u]);
    }
  }

  lemma StepNobodyMissed(s: State, jobs: seq<Job>, t: nat)
    requires Inv(s, jobs) && Enabled(s, jobs, t)
    ensures NobodyMissed(Step(s, jobs, t))
  {
    var s' := Step(s, jobs, t);
    if s'.cell.hasCallback && s'.cell.hasResult && !s'.cell.flag {
      if s.cell.hasCallback && s.cell.hasResult {
        var u :| 0 <= u < |s.pcs| && OnTheWay(s.pcs[u]);
        assert OnTheWay(s'.pcs[u]);
      } else {
        assert OnTheWay(s'.pcs[t]);
      }
    }
  }

  lemma StepInv(s: State, jobs: seq<Job>, t: nat)
    requires Inv(s, jobs) && Enabled(s, jobs, t)
    ensures Inv(Step(s, jobs, t), jobs)
  {
    var s' := Step(s, jobs, t);
    StepCell(s.cell, jobs, t, s.pcs[t]);
    StepSelf(s.cell, jobs, t, s.pcs[t]);
    StepFlag(s, jobs, t);
    StepNobodyMissed(s, jobs, t);
    forall u | 0 <= u < |s.pcs| ensures ThreadFacts(s'.cell, jobs, jobs[u], s'.pcs[u]) {
      if u != t { StepOther(s.cell, jobs, t, s.pcs[t], jobs[u], s.pcs[u]); }
    }
  }

  lemma {:induction false} RunInv(states: seq<State>, jobs: seq<Job>)
    requires IsRun(states, jobs)
    ensures Inv(states[|states| - 1], jobs)
  {
    var n := |states| - 1;
    if n > 0 {
      RunInv(states[..n], jobs);
      assert Next(states[n - 1], states[n - 1 + 1], jobs);
      var t: nat :| Enabled(states[n - 1], jobs, t) && states[n] == Step(states[n - 1], jobs, t);
      StepInv(states[n - 1], jobs, t);
    }
  }

  // ---------------------------------------------------------------------------------------------
  // Delivery

  /** However often and by however many threads the promise is resolved, the continuation is scheduled at most
      once, with an outcome the promise was resolved with, and only after it is registered and a result is in.
      The `assert(ready)` of GetValue never fires. */
  lemma AtMostOnce(states: seq<State>, jobs: seq<Job>)
    requires IsRun(states, jobs)
    ensures var s := states[|states| - 1];
            && |s.cell.scheduled| <= 1
            && (s.cell.scheduled != [] ==> Offered(jobs, s.cell.scheduled[0]) && s.cell.hasCallback && s.cell.hasResult)
            && (forall t :: 0 <= t < |s.pcs| && s.pcs[t] == Won(true) ==> s.cell.ready)
  {
    RunInv(states, jobs);
  }

  /** When Then and every resolution begun, at least one, have returned, the continuation has been scheduled
      exactly once. */
  lemma ExactlyOnce(states: seq<State>, jobs: seq<Job>)
    requires IsRun(states, jobs) && OneRegistrar(jobs) && 2 <= |jobs|
    requires AllDone(states[|states| - 1])
    ensures |states[|states| - 1].cell.scheduled| == 1 && Offered(jobs, states[|states| - 1].cell.scheduled[0])
  {
    RunInv(states, jobs);
    var s := states[|states| - 1];
    var r :| 0 <= r < |jobs| && jobs[r] == Register && forall t :: 0 <= t < |jobs| && t != r ==> jobs[t].Resolve?;
    var u := if r == 0 then 1 else 0;
    assert jobs[u].Resolve? && s.pcs[u] == Done && s.pcs[r] == Done;
    assert ThreadFacts(s.cell, jobs, jobs[r], Done) && ThreadFacts(s.cell, jobs, jobs[u], Done);
  }

  /** When all that the promise is resolved with is `o`, as with one resolver, that is what is scheduled. */
  lemma DeliversTheResult(states: seq<State>, jobs: seq<Job>, o: Outcome)
    requires IsRun(states, jobs) && OneRegistrar(jobs) && 2 <= |jobs| && forall x :: Offered(jobs, x) ==> x == o
    ensures states[|states| - 1].cell.scheduled == [] || states[|states| - 1].cell.scheduled == [o]
    ensures AllDone(states[|states| - 1]) ==> states[|states| - 1].cell.scheduled == [o]
  {
    AtMostOnce(states, jobs);
    if AllDone(states[|states| - 1]) { ExactlyOnce(states, jobs); }
  }

  // ---------------------------------------------------------------------------------------------
  // Every run comes to its end

  /** An upper bound on the steps a thread still takes. */
  function Left(pc: Pc): nat {
    match pc
    case Begin => 8
    case Stored => 7
    case Locking => 6
    case TestReady => 5
    case TestFailed => 4
    case AtFlag(_) => 3
    case Won(_) => 2
    case Carrying(_) => 1
    case Done => 0
  }

  function AllLeft(pcs: seq<Pc>): nat {
    if pcs == [] then 0 else Left(pcs[0]) + AllLeft(pcs[1..])
  }

  lemma {:induction false} AllLeftMove(pcs: seq<Pc>, t: nat, pc: Pc)
    requires t < |pcs|
    ensures AllLeft(pcs[t := pc]) == AllLeft(pcs) - Left(pcs[t]) + Left(pc)
  {
    if t == 0 {
      assert pcs[t := pc][1..] == pcs[1..];
    } else {
      assert pcs[t := pc][1..] == pcs[1..][t - 1 := pc];
      AllLeftMove(pcs[1..], t - 1, pc);
    }
  }

  lemma {:induction false} AllLeftInit(pcs: seq<Pc>)
    requires forall t :: 0 <= t < |pcs| ==> pcs[t] == Begin
    ensures AllLeft(pcs) == 8 * |pcs|
  {
    if pcs != [] { AllLeftInit(pcs[1..]); }
  }

  lemma StepUsesUp(s: State, jobs: seq<Job>, t: nat)
    requires Enabled(s, jobs, t)
    ensures AllLeft(Step(s, jobs, t).pcs) < AllLeft(s.pcs)
  {
    AllLeftMove(s.pcs, t, NextPc(s.cell, jobs[t], s.pcs[t]));
  }

  /** No run takes more than eight steps for each thread. */
  lemma {:induction false} RunIsShort(states: seq<State>, jobs: seq<Job>)
    requires IsRun(states, jobs)
    ensures |states| - 1 + AllLeft(states[|states| - 1].pcs) <= 8 * |jobs|
  {
    var n := |states| - 1;
    if n == 0 {
      AllLeftInit(states[0].pcs);
    } else {
      RunIsShort(states[..n], jobs);
      assert Next(states[n - 1], states[n - 1 + 1], jobs);
      var t: nat :| Enabled(states[n - 1], jobs, t) && states[n] == Step(states[n - 1], jobs, t);
      StepUsesUp(states[n - 1], jobs, t);
    }
  }

  lemma ExtendRun(states: seq<State>, jobs: seq<Job>, t: nat)
    requires IsRun(states, jobs) && Enabled(states[|states| - 1], jobs, t)
    ensures IsRun(states + [Step(states[|states| - 1], jobs, t)], jobs)
  {
    var n, more := |states| - 1, states + [Step(states[|states| - 1], jobs, t)];
    forall i | 0 <= i < |more| - 1 ensures Next(more[i], more[i + 1], jobs) {
      if i < n { assert Next(states[i], states[i + 1], jobs); }
    }
  }

  /** Every run goes on until all threads have returned. */
  lemma {:induction false} GoesOn(states: seq<State>, jobs: seq<Job>) returns (all: seq<State>)
    requires IsRun(states, jobs)
    ensures IsRun(all, jobs) && states <= all && AllDone(all[|all| - 1])
    decreases AllLeft(states[|states| - 1].pcs)
  {
    var s := states[|states| - 1];
    RunInv(states, jobs);
    if AllDone(s) {
      all := states;
    } else {
      var t: nat :| t < |s.pcs| && s.pcs[t] != Done;
      StepUsesUp(s, jobs, t);
      ExtendRun(states, jobs, t);
      all := GoesOn(states + [Step(s, jobs, t)], jobs);
    }
  }

  /** Whatever has happened so far, with one Then and at least one resolution, the run comes to its end, within eight
      steps for each thread, and the continuation was scheduled exactly once by then; with `o`, if the promise is
      resolved with nothing else. */
  lemma Delivers(states: seq<State>, jobs: seq<Job>) returns (all: seq<State>)
    requires IsRun(states, jobs) && OneRegistrar(jobs) && 2 <= |jobs|
    ensures IsRun(all, jobs) && states <= all && |all| <= 8 * |jobs| + 1 && AllDone(all[|all| - 1])
    ensures |all[|all| - 1].cell.scheduled| == 1 && Offered(jobs, all[|all| - 1].cell.scheduled[0])
    ensures forall o :: (forall x :: Offered(jobs, x) ==> x == o) ==> all[|all| - 1].cell.scheduled == [o]
  {
    all := GoesOn(states, jobs);
    RunIsShort(all, jobs);
    ExactlyOnce(all, jobs);
  }

  // ---------------------------------------------------------------------------------------------
  // With one resolver the result is taken out

  /** Thread `r` is the only one that resolves. */
  predicate OneResolver(jobs: seq<Job>, r: nat) {
    r < |jobs| && jobs[r].Resolve? && forall t :: 0 <= t < |jobs| && jobs[t].Resolve? ==> t == r
  }

  /** Once the winner has taken the result out of the cell, nobody finds it ready or failed again. */
  predicate TakenOut(s: State, jobs: seq<Job>, r: nat) {
    && |s.pcs| == |jobs| && OneResolver(jobs, r)
    && (s.cell.ready ==> jobs[r].outcome.Val?) && (s.cell.failed ==> jobs[r].outcome.Err?)
    && (s.cell.hasResult ==> !Storing(s.pcs[r]))
    && (s.cell.winner.Some? ==>
          && s.cell.winner.value < |s.pcs| && s.cell.hasResult
          && (s.pcs[s.cell.winner.value].Won? || (!s.cell.ready && !s.cell.failed)))
  }

  lemma StepTakenOut(s: State, jobs: seq<Job>, t: nat, r: nat)
    requires Inv(s, jobs) && TakenOut(s, jobs, r) && Enabled(s, jobs, t)
    ensures TakenOut(Step(s, jobs, t), jobs, r)
  {
    assert ThreadFacts(s.cell, jobs, jobs[t], s.pcs[t]);
    if HoldsFlag(s.pcs[t]) { assert s.cell.winner == Some(t); }
    if Storing(s.pcs[t]) && jobs[t].Resolve? { assert t == r; }
  }

  lemma {:induction false} RunTakenOut(states: seq<State>, jobs: seq<Job>, r: nat)
    requires IsRun(states, jobs) && OneResolver(jobs, r)
    ensures TakenOut(states[|states| - 1], jobs, r)
  {
    var n := |states| - 1;
    if n > 0 {
      RunTakenOut(states[..n], jobs, r);
      RunInv(states[..n], jobs);
      assert Next(states[n - 1], states[n - 1 + 1], jobs);
      var t: nat :| Enabled(states[n - 1], jobs, t) && states[n] == Step(states[n - 1], jobs, t);
      StepTakenOut(states[n - 1], jobs, t, r);
    }
  }

  /** One Then and one resolution, in whatever order and however interleaved: the run comes to its end, the continuation
      was scheduled once, with the outcome, and the future is consumed. */
  lemma DeliversOnce(states: seq<State>, jobs: seq<Job>, o: Outcome) returns (all: seq<State>)
    requires jobs == [Register, Resolve(o)] || jobs == [Resolve(o), Register]
    requires IsRun(states, jobs)
    ensures IsRun(all, jobs) && states <= all && |all| <= 17 && AllDone(all[|all| - 1])
    ensures var c := all[|all| - 1].cell; c.scheduled == [o] && !c.ready && !c.failed
  {
    var r := if jobs[0].Resolve? then 0 else 1;
    assert jobs[r] == Resolve(o) && jobs[1 - r] == Register;
    assert forall x :: Offered(jobs, x) ==> x == o;
    all := Delivers(states, jobs);
    RunTakenOut(all, jobs, r);
    RunInv(all, jobs);
  }
}
