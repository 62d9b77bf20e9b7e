/**
 `DoUntil`, which loops by letting the callback of each body's future call `Run` again, and `DoFor` on top of it.

 `stop` and `func` are callables with captured, mutable state `S`. A body's future resolves, and its callback
 runs, at any later time: the machine below takes that step whenever it happens and is idle in between.
  */
module DoUntil {
  import opened Common
  import opened Outcomes

  /** `stop` returns its answer and `func` the exception its future fails with, if any; both return the state
      they leave. */
  datatype Loop<!S> = Loop(stop: S -> (bool, S), func: S -> (Option<Exception>, S))

  datatype Event<S> = Asked(answer: bool) | Called(s: S)

  datatype Pc =
    | Entering                            // DoUntil, before its own call of stop()
    | Running(nostop: bool)               // DoUntilState::Run
    | Awaiting(failure: Option<Exception>)  // the body's future is on its way to its callback
    | Finished(failure: Option<Exception>)  // the returned future is ready, or failed

  datatype Machine<S> = Machine(pc: Pc, s: S, events: seq<Event<S>>)

  function Start<S>(s: S): Machine<S> {
    Machine(Entering, s, [])
  }

  function Step<S>(loop: Loop<S>, m: Machine<S>): Machine<S> {
    match m.pc
    case Entering =>
      var (answer, s) := loop.stop(m.s);
      Machine(if answer then Finished(None) else Running(true), s, m.events + [Asked(answer)])
    case Running(nostop) =>
      if nostop then
        var (failure, s) := loop.func(m.s);
        Machine(Awaiting(failure), s, m.events + [Called(m.s)])
      else
        var (answer, s) := loop.stop(m.s);
        Machine(if answer then Finished(None) else Running(true), s, m.events + [Asked(answer)])
    case Awaiting(failure) => m.(pc := if failure.Some? then Finished(failure) else Running(false))
    case Finished(_) => m
  }

  function Steps<S>(loop: Loop<S>, m: Machine<S>, n: nat): Machine<S>
    decreases n
  {
    if n == 0 then m else Steps(loop, Step(loop, m), n - 1)
  }

  // ---------------------------------------------------------------------------------------------
  // The plain loop

  /** How a loop went: its calls in order, the exception that ended it, if any, and the state it left. */
  datatype Course<S> = Course(events: seq<Event<S>>, failure: Option<Exception>, s: S)

  /** `while (!stop()) func();` that gives up at the first failure, cut off after `fuel` rounds. */
  function While<S>(loop: Loop<S>, s: S, fuel: nat): Option<Course<S>>
    decreases fuel
  {
    if fuel == 0 then None else
    var (answer, s1) := loop.stop(s);
    if answer then Some(Course([Asked(true)], None, s1)) else
    var (failure, s2) := loop.func(s1);
    var round := [Asked(false), Called(s1)];
    if failure.Some? then Some(Course(round, failure, s2)) else
    match While(loop, s2, fuel - 1)
    case None => None
    case Some(c) => Some(Course(round + c.events, c.failure, c.s))
  }

  /** The machine is about to begin a round. */
  predicate AtTest(pc: Pc) { pc == Entering || pc == Running(false) }

  /** One round of the loop is three steps of the machine. */
  lemma Round<S>(loop: Loop<S>, m: Machine<S>)
    requires AtTest(m.pc)
    ensures var (answer, s1) := loop.stop(m.s);
            var (failure, s2) := loop.func(s1);
            && (answer ==> Steps(loop, m, 1) == Machine(Finished(None), s1, m.events + [Asked(true)]))
            && (!answer ==> !Steps(loop, m, 1).pc.Finished? && !Steps(loop, m, 2).pc.Finished?)
            && (!answer ==>
                  Steps(loop, m, 3) ==
                  Machine(if failure.Some? then Finished(failure) else Running(false), s2,
                          m.events + [Asked(false), Called(s1)]))
  {
    var m1 := Step(loop, m);
    var m2 := Step(loop, m1);
    var m3 := Step(loop, m2);
    assert Steps(loop, m, 1) == Steps(loop, m1, 0);
    assert Steps(loop, m, 2) == Steps(loop, m1, 1) == Steps(loop, m2, 0);
    assert Steps(loop, m, 3) == Steps(loop, m1, 2) == Steps(loop, m2, 1) == Steps(loop, m3, 0);
    assert m.events + [Asked(false)] + [Called(m1.s)] == m.events + [Asked(false), Called(m1.s)];
  }

  lemma {:induction false} StepsAdd<S>(loop: Loop<S>, m: Machine<S>, a: nat, b: nat)
    ensures Steps(loop, m, a + b) == Steps(loop, Steps(loop, m, a), b)
    decreases a
  {
    if a > 0 { StepsAdd(loop, Step(loop, m), a - 1, b); }
  }

  lemma {:induction false} FinishedStays<S>(loop: Loop<S>, m: Machine<S>, n: nat)
    requires m.pc.Finished?
    ensures Steps(loop, m, n) == m
    decreases n
  {
    if n > 0 { FinishedStays(loop, m, n - 1); }
  }

  /** If the plain loop ends within `fuel` rounds, the machine does what it does and finishes within 3 * fuel steps. */
  lemma {:induction false} MachineFollows<S>(loop: Loop<S>, m: Machine<S>, fuel: nat)
    requires AtTest(m.pc) && While(loop, m.s, fuel).Some?
    ensures var c := While(loop, m.s, fuel).value;
            Steps(loop, m, 3 * fuel) == Machine(Finished(c.failure), c.s, m.events + c.events)
    decreases fuel
  {
    Round(loop, m);
    var (answer, s1) := loop.stop(m.s);
    var (failure, s2) := loop.func(s1);
    var c := While(loop, m.s, fuel).value;
    if answer {
      StepsAdd(loop, m, 1, 3 * fuel - 1);
      FinishedStays(loop, Steps(loop, m, 1), 3 * fuel - 1);
    } else {
      StepsAdd(loop, m, 3, 3 * fuel - 3);
      var m3 := Steps(loop, m, 3);
      if failure.Some? {
        FinishedStays(loop, m3, 3 * fuel - 3);
      } else {
        MachineFollows(loop, m3, fuel - 1);
        var rest := While(loop, s2, fuel - 1).value;
        assert m.events + ([Asked(false), Called(s1)] + rest.events) ==
                 (m.events + [Asked(false), Called(s1)]) + rest.events;
      }
    }
  }

  /** If the machine finishes within `n` steps, the plain loop ends within `n` rounds. */
  lemma {:induction false} WhileFollows<S>(loop: Loop<S>, m: Machine<S>, n: nat)
    requires AtTest(m.pc) && Steps(loop, m, n).pc.Finished?
    ensures While(loop, m.s, n).Some?
    decreases n
  {
    assert n > 0;
    Round(loop, m);
    var (answer, s1) := loop.stop(m.s);
    var (failure, s2) := loop.func(s1);
    if !answer && failure.None? {
      assert n > 2;
      StepsAdd(loop, m, 3, n - 3);
      WhileFollows(loop, Steps(loop, m, 3), n - 3);
      MoreRounds(loop, s2, n - 3, n - 1);
    }
  }

  lemma {:induction false} MoreRounds<S>(loop: Loop<S>, s: S, fuel: nat, more: nat)
    requires While(loop, s, fuel).Some? && fuel <= more
    ensures While(loop, s, more) == While(loop, s, fuel)
    decreases fuel
  {
    var (answer, s1) := loop.stop(s);
    var (failure, s2) := loop.func(s1);
    if !answer && failure.None? { MoreRounds(loop, s2, fuel - 1, more - 1); }
  }

  /** DoUntil finishes if and only if the plain loop ends, and then makes the same calls on the same states in the
      same order and ends with the same exception, or none. */
  lemma SameAsWhile<S>(loop: Loop<S>, s: S, n: nat)
    ensures Steps(loop, Start(s), n).pc.Finished? ==>
              && While(loop, s, n).Some?
              && var m := Steps(loop, Start(s), n); While(loop, s, n).value == Course(m.events, m.pc.failure, m.s)
    ensures While(loop, s, n).Some? ==> Steps(loop, Start(s), 3 * n).pc.Finished?
  {
    var m := Start(s);
    if Steps(loop, m, n).pc.Finished? {
      WhileFollows(loop, m, n);
      MachineFollows(loop, m, n);
      StepsAdd(loop, m, n, 2 * n);
      FinishedStays(loop, Steps(loop, m, n), 2 * n);
    }
    if While(loop, s, n).Some? { MachineFollows(loop, m, n); }
  }

  // ---------------------------------------------------------------------------------------------
  // DoFor

  const SIZE_MAX_PLUS_1: int := 0x1_0000_0000_0000_0000

  /** The counted loop: what the body does to the user's state at each index, and whether it fails there. */
  type Body<!T> = (nat, T) -> (Option<Exception>, T)

  /** DoFor with a body that takes the index: the captured counter runs down from n, the index is n minus it. */
  function IndexedLoop<T>(n: nat, body: Body<T>): Loop<(nat, T)> {
    Loop((s: (nat, T)) => (s.0 == 0, s), (s: (nat, T)) => CallIndexed(n, body, s))
  }

  function Down(n: nat): nat {
    (n - 1) % SIZE_MAX_PLUS_1
  }

  function CallIndexed<T>(n: nat, body: Body<T>, s: (nat, T)): (Option<Exception>, (nat, T)) {
    var (failure, t) := body((n - s.0) % SIZE_MAX_PLUS_1, s.1);
    (failure, (Down(s.0), t))
  }

  /** DoFor with a body that takes no argument: stop() itself counts down and wraps around at its last call. */
  function CountedLoop<T>(n: nat, body: T -> (Option<Exception>, T)): Loop<(nat, T)> {
    Loop((s: (nat, T)) => (s.0 == 0, (Down(s.0), s.1)), (s: (nat, T)) => CallCounted(body, s))
  }

  function CallCounted<T>(body: T -> (Option<Exception>, T), s: (nat, T)): (Option<Exception>, (nat, T)) {
    var (failure, t) := body(s.1);
    (failure, (s.0, t))
  }

  /** The user's states in which `for (i = k; i < n; ++i) body(i)` calls the body, up to the first failure. */
  function ForCalls<T>(k: nat, n: nat, body: Body<T>, t: T): seq<T>
    requires k <= n
    decreases n - k
  {
    if k == n then [] else
    var (failure, t1) := body(k, t);
    if failure.Some? then [t] else [t] + ForCalls(k + 1, n, body, t1)
  }

  function ForFailure<T>(k: nat, n: nat, body: Body<T>, t: T): Option<Exception>
    requires k <= n
    decreases n - k
  {
    if k == n then None else
    var (failure, t1) := body(k, t);
    if failure.Some? then failure else ForFailure(k + 1, n, body, t1)
  }

  /** The calls of a for-loop: each but the last succeeds and hands its state to the next, and all n are made
      unless one fails, which is then the last. */
  ghost predicate ForCourse<T>(k: nat, n: nat, body: Body<T>, calls: seq<T>, failure: Option<Exception>) {
    && (forall j :: 0 <= j < |calls| - 1 ==> body(k + j, calls[j]) == (None, calls[j + 1]))
    && (failure.None? ==> |calls| == n - k)
    && (failure.Some? ==> 0 < |calls| <= n - k)
    && (calls != [] ==> body(k + |calls| - 1, calls[|calls| - 1]).0 == failure)
  }

  lemma {:induction false} ForCallsCourse<T>(k: nat, n: nat, body: Body<T>, t: T)
    requires k <= n
    ensures ForCourse(k, n, body, ForCalls(k, n, body, t), ForFailure(k, n, body, t))
    ensures k < n ==> ForCalls(k, n, body, t) != [] && ForCalls(k, n, body, t)[0] == t
    decreases n - k
  {
    if k < n && body(k, t).0.None? {
      var t1 := body(k, t).1;
      var rest := ForCalls(k + 1, n, body, t1);
      ForCallsCourse(k + 1, n, body, t1);
      var calls := [t] + rest;
      forall j | 0 <= j < |calls| - 1 ensures body(k + j, calls[j]) == (None, calls[j + 1]) {
        if j > 0 { assert body(k + 1 + (j - 1), rest[j - 1]) == (None, rest[j - 1 + 1]); }
      }
      assert rest != [] ==> calls[|calls| - 1] == rest[|rest| - 1];
    }
  }

  /** The (counter, user state) pairs on which the body was called. */
  function Calls<S>(events: seq<Event<S>>): seq<S> {
    if events == [] then []
    else if events[0].Called? then [events[0].s] + Calls(events[1..])
    else Calls(events[1..])
  }

  lemma RoundCalls<S>(s: S, events: seq<Event<S>>)
    ensures Calls([Asked(false), Called(s)] + events) == [s] + Calls(events)
  {
    var round := [Asked(false), Called(s)];
    assert (round + events)[1..] == [Called(s)] + events;
    assert ([Called(s)] + events)[1..] == events;
  }

  lemma OneRound<S>(s: S)
    ensures Calls([Asked(false), Called(s)]) == [s]
  {
    var call := [Called(s)];
    assert Calls(call[1..]) == [];
    assert Calls(call) == [s];
    assert [Asked(false), Called(s)][1..] == call;
  }

  /** The calls of a loop whose first call fails, or goes well. */
  lemma FirstFails<S>(loop: Loop<S>, s: S, s1: S, s2: S, failure: Option<Exception>, fuel: nat)
    requires fuel > 0 && loop.stop(s) == (false, s1) && loop.func(s1) == (failure, s2) && failure.Some?
    ensures While(loop, s, fuel).Some? && While(loop, s, fuel).value.failure == failure
    ensures Calls(While(loop, s, fuel).value.events) == [s1]
  {
    OneRound(s1);
    assert While(loop, s, fuel) == Some(Course([Asked(false), Called(s1)], failure, s2));
  }

  lemma FirstGoesWell<S>(loop: Loop<S>, s: S, s1: S, s2: S, fuel: nat)
    requires fuel > 0 && loop.stop(s) == (false, s1) && loop.func(s1) == (None, s2) && While(loop, s2, fuel - 1).Some?
    ensures While(loop, s, fuel).Some? && While(loop, s, fuel).value.failure == While(loop, s2, fuel - 1).value.failure
    ensures Calls(While(loop, s, fuel).value.events) == [s1] + Calls(While(loop, s2, fuel - 1).value.events)
  {
    RoundCalls(s1, While(loop, s2, fuel - 1).value.events);
  }

  lemma IndexedRound<T>(n: nat, body: Body<T>, k: nat, t: T)
    requires k < n < SIZE_MAX_PLUS_1
    ensures var s: (nat, T), s2: (nat, T) := (n - k, t), (n - k - 1, body(k, t).1);
            IndexedLoop(n, body).stop(s) == (false, s) && IndexedLoop(n, body).func(s) == (body(k, t).0, s2)
  {
    assert Down(n - k) == n - k - 1;
    assert (n - (n - k)) % SIZE_MAX_PLUS_1 == k;
  }

  lemma CountedRound<T>(n: nat, body: T -> (Option<Exception>, T), k: nat, t: T)
    requires k < n < SIZE_MAX_PLUS_1
    ensures var s: (nat, T), s1: (nat, T), s2: (nat, T) := (n - k, t), (n - k - 1, t), (n - k - 1, body(t).1);
            CountedLoop(n, body).stop(s) == (false, s1) && CountedLoop(n, body).func(s1) == (body(t).0, s2)
  {
    assert Down(n - k) == n - k - 1;
  }

  /** The calls were made on these states, the counter running down from `top`. */
  ghost predicate CountingDown<T>(calls: seq<(nat, T)>, top: nat, states: seq<T>) {
    |calls| == |states| && forall j :: 0 <= j < |calls| ==> calls[j].0 == top - j && calls[j].1 == states[j]
  }

  lemma CountingDownFrom<T>(s: (nat, T), calls: seq<(nat, T)>, states: seq<T>)
    requires s.0 > 0 && CountingDown(calls, s.0 - 1, states)
    ensures CountingDown([s] + calls, s.0, [s.1] + states)
  {
    var all := [s] + calls;
    forall j | 0 <= j < |all| ensures all[j].0 == s.0 - j && all[j].1 == ([s.1] + states)[j] {
      if j > 0 { assert all[j] == calls[j - 1]; }
    }
  }

  /** DoFor(n) with an indexed body is the for-loop: the j-th call has index j, whatever the executor does. */
  lemma {:induction false} IndexedIsFor<T>(n: nat, body: Body<T>, k: nat, t: T)
    requires k <= n < SIZE_MAX_PLUS_1
    ensures var c := While(IndexedLoop(n, body), (n - k, t), n - k + 1);
            && c.Some?
            && c.value.failure == ForFailure(k, n, body, t)
            && CountingDown(Calls(c.value.events), n - k, ForCalls(k, n, body, t))
    decreases n - k
  {
    var loop := IndexedLoop(n, body);
    var s: (nat, T) := (n - k, t);
    if k < n {
      var (failure, t1) := body(k, t);
      var s2: (nat, T) := (n - k - 1, t1);
      IndexedRound(n, body, k, t);
      if failure.Some? {
        FirstFails(loop, s, s, s2, failure, n - k + 1);
      } else {
        IndexedIsFor(n, body, k + 1, t1);
        FirstGoesWell(loop, s, s, s2, n - k + 1);
        CountingDownFrom(s, Calls(While(loop, s2, n - k).value.events), ForCalls(k + 1, n, body, t1));
      }
    }
  }

  /** DoFor(n) with a plain body makes the same calls. */
  lemma {:induction false} CountedIsFor<T>(n: nat, body: T -> (Option<Exception>, T), k: nat, t: T)
    requires k <= n < SIZE_MAX_PLUS_1
    ensures var c := While(CountedLoop(n, body), (n - k, t), n - k + 1);
            var b: Body<T> := (_, t) => body(t);
            && c.Some?
            && c.value.failure == ForFailure(k, n, b, t)
            && |Calls(c.value.events)| == |ForCalls(k, n, b, t)|
            && forall j :: 0 <= j < |ForCalls(k, n, b, t)| ==> Calls(c.value.events)[j].1 == ForCalls(k, n, b, t)[j]
    decreases n - k
  {
    var loop := CountedLoop(n, body);
    var s: (nat, T) := (n - k, t);
    var b: Body<T> := (_, t) => body(t);
    if k < n {
      var (failure, t1) := body(t);
      var s1: (nat, T) := (n - k - 1, t);
      var s2: (nat, T) := (n - k - 1, t1);
      CountedRound(n, body, k, t);
      if failure.Some? {
        FirstFails(loop, s, s1, s2, failure, n - k + 1);
      } else {
        CountedIsFor(n, body, k + 1, t1);
        FirstGoesWell(loop, s, s1, s2, n - k + 1);
      }
    }
  }

  /** DoFor(n) ends after the n calls a for-loop makes, or after the first that fails, with that failure: the
      futures only stretch it over time. */
  lemma DoForRuns<T>(n: nat, body: Body<T>, t: T)
    requires n < SIZE_MAX_PLUS_1
    ensures var m := Steps(IndexedLoop(n, body), Start((n, t)), 3 * (n + 1));
            && m.pc == Finished(ForFailure(0, n, body, t))
            && CountingDown(Calls(m.events), n, ForCalls(0, n, body, t))
  {
    IndexedIsFor(n, body, 0, t);
    MachineFollows(IndexedLoop(n, body), Start((n, t)), n + 1);
    var c := While(IndexedLoop(n, body), (n, t), n + 1).value;
    assert [] + c.events == c.events;
  }

  /** The same for a body that takes no argument. */
  lemma CountedDoForRuns<T>(n: nat, body: T -> (Option<Exception>, T), t: T)
    requires n < SIZE_MAX_PLUS_1
    ensures var m := Steps(CountedLoop(n, body), Start((n, t)), 3 * (n + 1));
            var b: Body<T> := (_, t) => body(t);
            && m.pc == Finished(ForFailure(0, n, b, t))
            && |Calls(m.events)| == |ForCalls(0, n, b, t)|
            && forall j :: 0 <= j < |Calls(m.events)| ==> Calls(m.events)[j].1 == ForCalls(0, n, b, t)[j]
  {
    CountedIsFor(n, body, 0, t);
    MachineFollows(CountedLoop(n, body), Start((n, t)), n + 1);
    var c := While(CountedLoop(n, body), (n, t), n + 1).value;
    assert [] + c.events == c.events;
  }
}
