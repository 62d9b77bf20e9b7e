/** Counting the elements of a sequence that satisfy a predicate. */
module Counting {

  function CountIf<T>(s: seq<T>, p: T -> bool): (n: nat)
    ensures n <= |s|
  {
    if s == [] then 0 else (if p(s[0]) then 1 else 0) + CountIf(s[1..], p)
  }

  lemma {:induction false} CountUpdate<T>(s: seq<T>, i: nat, x: T, p: T -> bool)
    requires i < |s|
    ensures CountIf(s[i := x], p) == CountIf(s, p) - (if p(s[i]) then 1 else 0) + (if p(x) then 1 else 0)
  {
    if i > 0 {
      assert s[i := x][1..] == s[1..][i - 1 := x];
      CountUpdate(s[1..], i - 1, x, p);
    } else {
      assert s[i := x][1..] == s[1..];
    }
  }

  lemma {:induction false} CountAll<T>(s: seq<T>, p: T -> bool)
    ensures CountIf(s, p) == |s| <==> forall i :: 0 <= i < |s| ==> p(s[i])
  {
    if s != [] {
      CountAll(s[1..], p);
      assert (forall i :: 0 <= i < |s[1..]| ==> p(s[1..][i])) ==> forall i :: 1 <= i < |s| ==> p(s[i]) by {
        assert forall i :: 1 <= i < |s| ==> s[i] == s[1..][i - 1];
      }
    }
  }

  lemma {:induction false} CountNone<T>(s: seq<T>, p: T -> bool)
    ensures CountIf(s, p) == 0 <==> forall i :: 0 <= i < |s| ==> !p(s[i])
  {
    if s != [] {
      CountNone(s[1..], p);
      assert (forall i :: 0 <= i < |s[1..]| ==> !p(s[1..][i])) ==> forall i :: 1 <= i < |s| ==> !p(s[i]) by {
        assert forall i :: 1 <= i < |s| ==> s[i] == s[1..][i - 1];
      }
    }
  }

  const U32: int := 0x1_0000_0000

  /** Two counts in a window of 2^32 that agree as uint32_t agree. */
  lemma SameMod(a: int, b: int)
    requires 0 < a <= U32 && 0 < b <= U32 && a % U32 == b % U32
    ensures a == b
  {
  }
}

/**
 `WhenAll` over an iterator range. Each input's callback runs once, at any time after the registration loop has
 reached that input, so possibly inside the loop; the steps of different callbacks interleave.
  */
module WhenAll {
  import opened Common
  import opened Outcomes
  import opened Counting

  datatype Pc =
    | Waiting   // the callback has not begun
    | Stored    // the outcome is in its slot, before counter.fetch_add
    | Last      // counted, and found to be the last, before promise.SetValue
    | Done

  datatype State = State(
    registered: nat,                        // inputs the loop has called Then on
    slots: seq<Option<Outcome>>,            // result
    counter: nat,                           // *counter, a uint32_t
    pcs: seq<Pc>,
    resolved: seq<seq<Option<Outcome>>>)    // what promise.SetValue was called with, call by call

  function Init(n: nat): State {
    State(0, seq(n, _ => None), 0, seq(n, _ => Waiting), if n == 0 then [[]] else [])
  }

  datatype Action = Register | Callback(i: nat)

  predicate Enabled(s: State, ins: seq<Outcome>, a: Action) {
    && |s.pcs| == |s.slots| == |ins|
    && match a
       case Register => s.registered < |ins|
       case Callback(i) => i < |ins| && i < s.registered && s.pcs[i] != Done
  }

  function Step(s: State, ins: seq<Outcome>, a: Action): State
    requires Enabled(s, ins, a)
  {
    match a
    case Register => s.(registered := s.registered + 1)
    case Callback(i) =>
      match s.pcs[i]
      case Waiting => s.(slots := s.slots[i % U32 := Some(ins[i])], pcs := s.pcs[i := Stored])
      case Stored =>
        s.(counter := (s.counter + 1) % U32,
           pcs := s.pcs[i := if (s.counter + 1) % U32 == |ins| % U32 then Last else Done])
      case Last => s.(resolved := s.resolved + [s.slots], pcs := s.pcs[i := Done])
  }

  ghost predicate Next(s: State, s': State, ins: seq<Outcome>) {
    exists a :: Enabled(s, ins, a) && s' == Step(s, ins, a)
  }

  ghost predicate IsRun(states: seq<State>, ins: seq<Outcome>) {
    && 0 < |states|
    && states[0] == Init(|ins|)
    && forall i :: 0 <= i < |states| - 1 ==> Next(states[i], states[i + 1], ins)
  }

  ghost predicate Reachable(s: State, ins: seq<Outcome>) {
    exists states :: IsRun(states, ins) && states[|states| - 1] == s
  }

  predicate Counted(pc: Pc) { pc == Last || pc == Done }

  predicate IsLast(pc: Pc) { pc == Last }

  /** Each input's outcome in its own slot. */
  function AllOutcomes(ins: seq<Outcome>): seq<Option<Outcome>> {
    seq(|ins|, i requires 0 <= i < |ins| => Some(ins[i]))
  }

  predicate Inv(s: State, ins: seq<Outcome>) {
    && |s.pcs| == |s.slots| == |ins|
    && s.counter == CountIf(s.pcs, Counted) % U32
    && (forall i :: 0 <= i < |ins| ==> s.slots[i] == if s.pcs[i] == Waiting then None else Some(ins[i]))
    && (forall i :: 0 <= i < |ins| && s.pcs[i] != Waiting ==> i < s.registered)
    && s.registered <= |ins|
    && CountIf(s.pcs, IsLast) + |s.resolved| == (if CountIf(s.pcs, Counted) == |ins| then 1 else 0)
    && (s.resolved != [] ==> s.resolved[0] == AllOutcomes(ins))
  }

  lemma InitInv(ins: seq<Outcome>)
    ensures Inv(Init(|ins|), ins)
  {
    CountNone(Init(|ins|).pcs, Counted);
    CountNone(Init(|ins|).pcs, IsLast);
  }

  lemma StoreInv(s: State, ins: seq<Outcome>, i: nat)
    requires Inv(s, ins) && Enabled(s, ins, Callback(i)) && |ins| <= U32 && s.pcs[i] == Waiting
    ensures Inv(Step(s, ins, Callback(i)), ins)
  {
    assert i % U32 == i;
    CountUpdate(s.pcs, i, Stored, Counted);
    CountUpdate(s.pcs, i, Stored, IsLast);
    CountAll(s.pcs, Counted);
  }

  lemma CountInv(s: State, ins: seq<Outcome>, i: nat)
    requires Inv(s, ins) && Enabled(s, ins, Callback(i)) && |ins| <= U32 && s.pcs[i] == Stored
    ensures Inv(Step(s, ins, Callback(i)), ins)
  {
    var k := CountIf(s.pcs, Counted);
    CountAll(s.pcs, Counted);
    assert k < |ins|;
    assert (s.counter + 1) % U32 == (k + 1) % U32 by { assert s.counter == k; }
    var pc := if k + 1 == |ins| then Last else Done;
    if (k + 1) % U32 == |ins| % U32 { SameMod(k + 1, |ins|); }
    assert Step(s, ins, Callback(i)) == s.(counter := (k + 1) % U32, pcs := s.pcs[i := pc]);
    CountUpdate(s.pcs, i, pc, Counted);
    CountUpdate(s.pcs, i, pc, IsLast);
  }

  lemma SetInv(s: State, ins: seq<Outcome>, i: nat)
    requires Inv(s, ins) && Enabled(s, ins, Callback(i)) && s.pcs[i] == Last
    ensures Inv(Step(s, ins, Callback(i)), ins)
  {
    CountUpdate(s.pcs, i, Done, Counted);
    CountUpdate(s.pcs, i, Done, IsLast);
    CountNone(s.pcs, IsLast);
    CountAll(s.pcs, Counted);
    assert s.slots == AllOutcomes(ins);
  }

  lemma StepInv(s: State, ins: seq<Outcome>, a: Action)
    requires Inv(s, ins) && Enabled(s, ins, a) && |ins| <= U32
    ensures Inv(Step(s, ins, a), ins)
  {
    match a {
      case Register =>
      case Callback(i) =>
        match s.pcs[i] {
          case Waiting => StoreInv(s, ins, i);
          case Stored => CountInv(s, ins, i);
          case Last => SetInv(s, ins, i);
        }
    }
  }

  lemma {:induction false} RunInv(states: seq<State>, ins: seq<Outcome>)
    requires IsRun(states, ins) && |ins| <= U32
    ensures Inv(states[|states| - 1], ins)
  {
    var n := |states| - 1;
    if n == 0 {
      InitInv(ins);
    } else {
      RunInv(states[..n], ins);
      assert Next(states[n - 1], states[n - 1 + 1], ins);
      var a :| Enabled(states[n - 1], ins, a) && states[n] == Step(states[n - 1], ins, a);
      StepInv(states[n - 1], ins, a);
    }
  }

  /** The result resolves at most once, only after every input, with each outcome in its input's slot. */
  ghost predicate ResolvesRight(s: State, ins: seq<Outcome>) {
    && |s.resolved| <= 1
    && (s.resolved != [] ==> s.resolved[0] == AllOutcomes(ins) && forall i :: 0 <= i < |s.pcs| ==> Counted(s.pcs[i]))
  }

  predicate AllDone(s: State) {
    forall i :: 0 <= i < |s.pcs| ==> s.pcs[i] == Done
  }

  /** In every interleaving WhenAll resolves once, after all inputs and with their outcomes in order, and it has
      done so when the last callback returns. */
  lemma WhenAllResolvesOnce(s: State, ins: seq<Outcome>)
    requires Reachable(s, ins) && |ins| <= U32
    ensures ResolvesRight(s, ins)
    ensures AllDone(s) ==> s.resolved == [AllOutcomes(ins)]
  {
    var states :| IsRun(states, ins) && states[|states| - 1] == s;
    RunInv(states, ins);
    CountAll(s.pcs, Counted);
    if AllDone(s) { CountNone(s.pcs, IsLast); }
  }

  // ---------------------------------------------------------------------------------------------
  // Every run can be completed

  predicate NotDone(pc: Pc) { pc != Done }

  predicate NotCounted(pc: Pc) { pc == Waiting || pc == Stored }

  predicate IsWaiting(pc: Pc) { pc == Waiting }

  /** Steps of callbacks still to come, at most. */
  function Left(s: State): nat {
    CountIf(s.pcs, NotDone) + CountIf(s.pcs, NotCounted) + CountIf(s.pcs, IsWaiting)
  }

  lemma CallbackLeft(s: State, ins: seq<Outcome>, i: nat)
    requires Enabled(s, ins, Callback(i))
    ensures Left(Step(s, ins, Callback(i))) < Left(s)
  {
    var pc := Step(s, ins, Callback(i)).pcs[i];
    CountUpdate(s.pcs, i, pc, NotDone);
    CountUpdate(s.pcs, i, pc, NotCounted);
    CountUpdate(s.pcs, i, pc, IsWaiting);
  }

  lemma {:induction false} RunShape(states: seq<State>, ins: seq<Outcome>)
    requires IsRun(states, ins)
    ensures var s := states[|states| - 1]; |s.pcs| == |s.slots| == |ins|
  {
    var n := |states| - 1;
    if n > 0 {
      RunShape(states[..n], ins);
      assert Next(states[n - 1], states[n - 1 + 1], ins);
    }
  }

  lemma ExtendRun(states: seq<State>, ins: seq<Outcome>, a: Action)
    requires IsRun(states, ins) && Enabled(states[|states| - 1], ins, a)
    ensures IsRun(states + [Step(states[|states| - 1], ins, a)], ins)
  {
    var n, more := |states| - 1, states + [Step(states[|states| - 1], ins, a)];
    assert Next(more[n], more[n + 1], ins);
    forall i | 0 <= i < |more| - 1 ensures Next(more[i], more[i + 1], ins) {
      if i < n { assert Next(states[i], states[i + 1], ins); }
    }
  }

  /** Every run goes on until all callbacks have returned. */
  lemma {:induction false} GoesOn(states: seq<State>, ins: seq<Outcome>) returns (all: seq<State>)
    requires IsRun(states, ins)
    ensures IsRun(all, ins) && states <= all && AllDone(all[|all| - 1])
    decreases Left(states[|states| - 1]), |ins| - states[|states| - 1].registered
  {
    var s := states[|states| - 1];
    RunShape(states, ins);
    if AllDone(s) {
      all := states;
    } else {
      var i :| 0 <= i < |s.pcs| && s.pcs[i] != Done;
      var a := if i < s.registered then Callback(i) else Register;
      if i < s.registered { CallbackLeft(s, ins, i); }
      ExtendRun(states, ins, a);
      all := GoesOn(states + [Step(s, ins, a)], ins);
    }
  }

  /** Up to 2^32 inputs every run goes on to one that ends with all outcomes in order. */
  lemma Completes(states: seq<State>, ins: seq<Outcome>) returns (all: seq<State>)
    requires IsRun(states, ins) && |ins| <= U32
    ensures IsRun(all, ins) && states <= all && all[|all| - 1].resolved == [AllOutcomes(ins)]
  {
    all := GoesOn(states, ins);
    assert Reachable(all[|all| - 1], ins);
    WhenAllResolvesOnce(all[|all| - 1], ins);
  }

  // ---------------------------------------------------------------------------------------------
  // Beyond 2^32 inputs

  lemma Extend(s: State, ins: seq<Outcome>, a: Action)
    requires Reachable(s, ins) && Enabled(s, ins, a)
    ensures Reachable(Step(s, ins, a), ins)
  {
    var states :| IsRun(states, ins) && states[|states| - 1] == s;
    ExtendRun(states, ins, a);
    assert (states + [Step(s, ins, a)])[|states|] == Step(s, ins, a);
  }

  /** All inputs are registered and callbacks 0 .. m-1 have counted. */
  predicate FirstCounted(s: State, ins: seq<Outcome>, m: nat) {
    && |s.pcs| == |s.slots| == |ins| && m <= |ins| && s.registered == |ins|
    && s.counter == m % U32
    && (forall i :: 0 <= i < |ins| ==> Counted(s.pcs[i]) == (i < m))
    && (forall i :: m <= i < |ins| ==> s.pcs[i] == Waiting)
  }

  lemma {:induction false} RegisterAll(ins: seq<Outcome>, r: nat) returns (s: State)
    requires r <= |ins|
    ensures Reachable(s, ins) && s == Init(|ins|).(registered := r)
  {
    if r == 0 {
      s := Init(|ins|);
      assert IsRun([s], ins);
    } else {
      var s0 := RegisterAll(ins, r - 1);
      Extend(s0, ins, Register);
      s := Step(s0, ins, Register);
    }
  }

  /** The next callback stores its outcome and counts. */
  lemma CountNext(s0: State, ins: seq<Outcome>, m: nat) returns (s: State)
    requires Reachable(s0, ins) && m < |ins| && FirstCounted(s0, ins, m)
    ensures Reachable(s, ins) && FirstCounted(s, ins, m + 1)
    ensures (m + 1) % U32 == |ins| % U32 ==> s.pcs[m] == Last
  {
    Extend(s0, ins, Callback(m));
    var s1 := Step(s0, ins, Callback(m));
    Extend(s1, ins, Callback(m));
    s := Step(s1, ins, Callback(m));
    assert s.counter == (m + 1) % U32 by { assert (m % U32 + 1) % U32 == (m + 1) % U32; }
  }

  lemma {:induction false} CountFirst(ins: seq<Outcome>, m: nat) returns (s: State)
    requires m <= |ins|
    ensures Reachable(s, ins) && FirstCounted(s, ins, m)
    ensures m > 0 && m % U32 == |ins| % U32 ==> s.pcs[m - 1] == Last
  {
    if m == 0 {
      s := RegisterAll(ins, |ins|);
    } else {
      var s0 := CountFirst(ins, m - 1);
      s := CountNext(s0, ins, m - 1);
    }
  }

  /** WhenAll resolves right in every run over n inputs exactly when n <= 2^32: beyond, the uint32_t counter meets
      the truncated size before all inputs are in. */
  lemma WhenAllRightIff(ins: seq<Outcome>)
    ensures |ins| <= U32 <==> forall s :: Reachable(s, ins) ==> ResolvesRight(s, ins)
  {
    if |ins| <= U32 {
      forall s | Reachable(s, ins) ensures ResolvesRight(s, ins) { WhenAllResolvesOnce(s, ins); }
    } else {
      var m := if |ins| % U32 == 0 then U32 else |ins| % U32;
      var s := CountFirst(ins, m);
      Extend(s, ins, Callback(m - 1));
      var s' := Step(s, ins, Callback(m - 1));
      assert Reachable(s', ins) && s'.resolved != [] && s'.pcs[m] == Waiting;
      assert !ResolvesRight(s', ins);
    }
  }
}

/** What `WhenAny` and `WhenAnyWithoutException` set their promise to. */
module AnyResults {
  import opened Outcomes

  datatype AnyResult = Ready(index: nat, v: Value) | Failed(e: Exception) | NoInput
}

/** `WhenAny`: the first callback to exchange `done` sets the promise. */
module WhenAny {
  import opened Outcomes
  import opened AnyResults
  import opened Counting

  datatype Pc = Waiting | Won | Done

  datatype State = State(
    registered: nat,
    done: bool,
    pcs: seq<Pc>,
    order: seq<nat>,           // auxiliary: the inputs in the order in which they completed
    resolved: seq<AnyResult>)

  function Init(n: nat): State {
    State(0, false, seq(n, _ => Waiting), [], if n == 0 then [NoInput] else [])
  }

  datatype Action = Register | Callback(i: nat)

  predicate Enabled(s: State, ins: seq<Outcome>, a: Action) {
    && |s.pcs| == |ins|
    && match a
       case Register => s.registered < |ins|
       case Callback(i) => i < |ins| && i < s.registered && s.pcs[i] != Done
  }

  /** The promise set to the outcome of input `i`; the index passes through a uint32_t. */
  function Taking(ins: seq<Outcome>, i: nat): AnyResult
    requires i < |ins|
  {
    match ins[i]
    case Val(v) => Ready(i % U32, v)
    case Err(e) => Failed(e)
  }

  function Step(s: State, ins: seq<Outcome>, a: Action): State
    requires Enabled(s, ins, a)
  {
    match a
    case Register => s.(registered := s.registered + 1)
    case Callback(i) =>
      if s.pcs[i] == Waiting
      then s.(done := true, order := s.order + [i], pcs := s.pcs[i := if s.done then Done else Won])
      else s.(resolved := s.resolved + [Taking(ins, i)], pcs := s.pcs[i := Done])
  }

  ghost predicate Next(s: State, s': State, ins: seq<Outcome>) {
    exists a :: Enabled(s, ins, a) && s' == Step(s, ins, a)
  }

  ghost predicate IsRun(states: seq<State>, ins: seq<Outcome>) {
    && 0 < |states|
    && states[0] == Init(|ins|)
    && forall i :: 0 <= i < |states| - 1 ==> Next(states[i], states[i + 1], ins)
  }

  predicate Inv(s: State, ins: seq<Outcome>) {
    && |s.pcs| == |ins| && s.registered <= |ins|
    && (s.done <==> s.order != [])
    && (forall i :: 0 <= i < |ins| && s.pcs[i] != Waiting ==> i < s.registered)
    && (forall i :: i in s.order ==> i < |ins| && s.pcs[i] != Waiting)
    && (forall i :: 0 <= i < |ins| && s.pcs[i] != Waiting ==> s.order != [])
    && (forall i :: 0 <= i < |ins| && s.pcs[i] == Won ==> s.order[0] == i)
    && (ins != [] && s.order == [] ==> s.resolved == [])
    && (ins != [] && s.order != [] ==>
          s.order[0] < |ins| && s.resolved == if s.pcs[s.order[0]] == Won then [] else [Taking(ins, s.order[0])])
    && (ins == [] ==> s.resolved == [NoInput] && s.order == [])
  }

  lemma StepInv(s: State, ins: seq<Outcome>, a: Action)
    requires Inv(s, ins) && Enabled(s, ins, a)
    ensures Inv(Step(s, ins, a), ins)
  {
    if a.Callback? && s.pcs[a.i] == Waiting {
      assert forall i :: i in s.order + [a.i] ==> i in s.order || i == a.i;
    }
  }

  lemma {:induction false} RunInv(states: seq<State>, ins: seq<Outcome>)
    requires IsRun(states, ins)
    ensures Inv(states[|states| - 1], ins)
  {
    var n := |states| - 1;
    if n > 0 {
      RunInv(states[..n], ins);
      assert Next(states[n - 1], states[n - 1 + 1], ins);
      var a :| Enabled(states[n - 1], ins, a) && states[n] == Step(states[n - 1], ins, a);
      StepInv(states[n - 1], ins, a);
    }
  }

  predicate AllDone(s: State) {
    forall i :: 0 <= i < |s.pcs| ==> s.pcs[i] == Done
  }

  /** WhenAny takes the first completion, value or exception, and ignores the rest; the index is right up to 2^32
      inputs. */
  lemma TakesTheFirst(states: seq<State>, ins: seq<Outcome>)
    requires IsRun(states, ins)
    ensures var s := states[|states| - 1];
            && |s.resolved| <= 1
            && (ins == [] ==> s.resolved == [NoInput])
            && (ins != [] && s.resolved != [] ==>
                  && s.order != [] && s.order[0] < |ins|
                  && (ins[s.order[0]].Val? ==> s.resolved == [Ready(s.order[0] % U32, ins[s.order[0]].v)])
                  && (ins[s.order[0]].Err? ==> s.resolved == [Failed(ins[s.order[0]].e)]))
            && (forall i :: i in s.order ==> i < s.registered <= |ins|)
            && (AllDone(s) ==> |s.resolved| == 1)
  {
    RunInv(states, ins);
    var s := states[|states| - 1];
    if ins != [] && s.order != [] { assert s.order[0] in s.order; }
    if ins != [] { assert s.pcs[0] != Waiting ==> s.order != []; }
  }

  predicate NotDone(pc: Pc) { pc != Done }

  predicate IsWaiting(pc: Pc) { pc == Waiting }

  /** Steps of callbacks still to come, at most. */
  function Left(s: State): nat {
    CountIf(s.pcs, NotDone) + CountIf(s.pcs, IsWaiting)
  }

  lemma CallbackLeft(s: State, ins: seq<Outcome>, i: nat)
    requires Enabled(s, ins, Callback(i))
    ensures Left(Step(s, ins, Callback(i))) < Left(s)
  {
    var pc := Step(s, ins, Callback(i)).pcs[i];
    CountUpdate(s.pcs, i, pc, NotDone);
    CountUpdate(s.pcs, i, pc, IsWaiting);
  }

  lemma ExtendRun(states: seq<State>, ins: seq<Outcome>, a: Action)
    requires IsRun(states, ins) && Enabled(states[|states| - 1], ins, a)
    ensures IsRun(states + [Step(states[|states| - 1], ins, a)], ins)
  {
    var n, more := |states| - 1, states + [Step(states[|states| - 1], ins, a)];
    assert Next(more[n], more[n + 1], ins);
    forall i | 0 <= i < |more| - 1 ensures Next(more[i], more[i + 1], ins) {
      if i < n { assert Next(states[i], states[i + 1], ins); }
    }
  }

  /** Every run goes on until all callbacks have returned, and the promise was set exactly once by then. */
  lemma {:induction false} Completes(states: seq<State>, ins: seq<Outcome>) returns (all: seq<State>)
    requires IsRun(states, ins)
    ensures IsRun(all, ins) && states <= all && AllDone(all[|all| - 1]) && |all[|all| - 1].resolved| == 1
    decreases Left(states[|states| - 1]), |ins| - states[|states| - 1].registered
  {
    var s := states[|states| - 1];
    RunInv(states, ins);
    if AllDone(s) {
      all := states;
      TakesTheFirst(states, ins);
    } else {
      var i :| 0 <= i < |s.pcs| && s.pcs[i] != Done;
      var a := if i < s.registered then Callback(i) else Register;
      if i < s.registered { CallbackLeft(s, ins, i); }
      ExtendRun(states, ins, a);
      all := Completes(states + [Step(s, ins, a)], ins);
    }
  }
}

/** `WhenAnyWithoutException`: the first value sets the promise, the last of nothing but exceptions does. */
module WhenAnyWithoutException {
  import opened Common
  import opened Outcomes
  import opened AnyResults
  import opened Counting

  datatype Pc =
    | Waiting
    | Won(v: Value)            // exchanged `done` first, before promise.SetValue
    | AllFailed(e: Exception)  // counted the last failure, before promise.SetException
    | DoneReady
    | DoneFailed

  datatype State = State(
    registered: nat,
    done: bool,
    counter: nat,
    pcs: seq<Pc>,
    first: Option<nat>,        // auxiliary: the first ready input to complete
    resolved: seq<AnyResult>)

  function Init(n: nat): State {
    State(0, false, 0, seq(n, _ => Waiting), None, if n == 0 then [NoInput] else [])
  }

  datatype Action = Register | Callback(i: nat)

  predicate Finished(pc: Pc) { pc == DoneReady || pc == DoneFailed }

  predicate Enabled(s: State, ins: seq<Outcome>, a: Action) {
    && |s.pcs| == |ins|
    && match a
       case Register => s.registered < |ins|
       case Callback(i) => i < |ins| && i < s.registered && !Finished(s.pcs[i])
  }

  function Step(s: State, ins: seq<Outcome>, a: Action): State
    requires Enabled(s, ins, a)
  {
    match a
    case Register => s.(registered := s.registered + 1)
    case Callback(i) =>
      match s.pcs[i]
      case Waiting =>
        if ins[i].Val? then
          (if s.done then s.(pcs := s.pcs[i := DoneReady])
           else s.(done := true, first := Some(i), pcs := s.pcs[i := Won(ins[i].v)]))
        else
          s.(counter := (s.counter + 1) % U32,
             pcs := s.pcs[i := if (s.counter + 1) % U32 == |ins| then AllFailed(ins[i].e) else DoneFailed])
      case Won(v) => s.(pcs := s.pcs[i := DoneReady], resolved := s.resolved + [Ready(i % U32, v)])
      case AllFailed(e) => s.(pcs := s.pcs[i := DoneFailed], resolved := s.resolved + [Failed(e)])
  }

  ghost predicate Next(s: State, s': State, ins: seq<Outcome>) {
    exists a :: Enabled(s, ins, a) && s' == Step(s, ins, a)
  }

  ghost predicate IsRun(states: seq<State>, ins: seq<Outcome>) {
    && 0 < |states|
    && states[0] == Init(|ins|)
    && forall i :: 0 <= i < |states| - 1 ==> Next(states[i], states[i + 1], ins)
  }

  predicate CountedFailure(pc: Pc) { pc.AllFailed? || pc == DoneFailed }

  predicate IsAllFailed(pc: Pc) { pc.AllFailed? }

  predicate SomeReady(ins: seq<Outcome>) {
    exists i :: 0 <= i < |ins| && ins[i].Val?
  }

  /** What each callback has done agrees with the outcome it was given. */
  predicate PcFacts(s: State, ins: seq<Outcome>) {
    && |s.pcs| == |ins| && s.registered <= |ins|
    && (forall i :: 0 <= i < |ins| && s.pcs[i] != Waiting ==> i < s.registered)
    && (forall i :: 0 <= i < |ins| && CountedFailure(s.pcs[i]) ==> ins[i].Err?)
    && (forall i :: 0 <= i < |ins| && (s.pcs[i].Won? || s.pcs[i] == DoneReady) ==> ins[i].Val?)
    && (forall i :: 0 <= i < |ins| && s.pcs[i].Won? ==> s.first == Some(i) && ins[i] == Val(s.pcs[i].v))
    && (forall i :: 0 <= i < |ins| && s.pcs[i].AllFailed? ==> ins[i] == Err(s.pcs[i].e))
    && (forall i :: 0 <= i < |ins| && s.pcs[i] == DoneReady ==> s.done)
    && (s.done <==> s.first.Some?)
    && (s.first.Some? ==> s.first.value < |ins| && ins[s.first.value].Val? && s.pcs[s.first.value] != Waiting)
  }

  /** The promise, as the callbacks have left it. */
  predicate PromiseFacts(s: State, ins: seq<Outcome>)
    requires |s.pcs| == |ins|
  {
    if ins == [] then s.resolved == [NoInput] && s.first == None
    else if s.first.Some? then
      && s.first.value < |ins| && ins[s.first.value].Val?
      && CountIf(s.pcs, IsAllFailed) == 0
      && s.resolved == if s.pcs[s.first.value].Won? then [] else [Ready(s.first.value % U32, ins[s.first.value].v)]
    else
      && |s.resolved| + CountIf(s.pcs, IsAllFailed) ==
         (if CountIf(s.pcs, CountedFailure) == |ins| && |ins| < U32 then 1 else 0)
      && (s.resolved != [] ==> s.resolved[0].Failed? && Err(s.resolved[0].e) in ins)
  }

  predicate Inv(s: State, ins: seq<Outcome>) {
    PcFacts(s, ins) && PromiseFacts(s, ins) && s.counter == CountIf(s.pcs, CountedFailure) % U32
  }

  lemma InitInv(ins: seq<Outcome>)
    ensures Inv(Init(|ins|), ins)
  {
    CountNone(Init(|ins|).pcs, CountedFailure);
    CountNone(Init(|ins|).pcs, IsAllFailed);
  }

  lemma ReadyInv(s: State, ins: seq<Outcome>, i: nat)
    requires Inv(s, ins) && Enabled(s, ins, Callback(i)) && (s.pcs[i].Won? || (s.pcs[i] == Waiting && ins[i].Val?))
    ensures Inv(Step(s, ins, Callback(i)), ins)
  {
    var pc := Step(s, ins, Callback(i)).pcs[i];
    CountUpdate(s.pcs, i, pc, CountedFailure);
    CountUpdate(s.pcs, i, pc, IsAllFailed);
    CountAll(s.pcs, CountedFailure);
  }

  /** The k-th failure, counted in 32 bits, meets the total only if it is the last and the total fits. */
  lemma CounterMeetsTotal(k: nat, n: nat)
    requires k < n
    ensures (k % U32 + 1) % U32 == n <==> k + 1 == n && n < U32
  {
    if n <= U32 { assert k % U32 == k; }
  }

  /** Where the callback of a failed input goes, having counted k failures before it. */
  function AfterFailure(k: nat, n: nat, e: Exception): Pc {
    if k + 1 == n && n < U32 then AllFailed(e) else DoneFailed
  }

  lemma FailureCounts(s: State, ins: seq<Outcome>, i: nat, pc: Pc)
    requires Inv(s, ins) && i < |ins| && s.pcs[i] == Waiting && (pc.AllFailed? || pc == DoneFailed)
    ensures CountIf(s.pcs[i := pc], CountedFailure) == CountIf(s.pcs, CountedFailure) + 1
    ensures CountIf(s.pcs[i := pc], IsAllFailed) == CountIf(s.pcs, IsAllFailed) + (if pc.AllFailed? then 1 else 0)
    ensures CountIf(s.pcs, CountedFailure) < |ins|
    ensures s.first.Some? ==> CountIf(s.pcs, CountedFailure) + 1 < |ins|
  {
    CountUpdate(s.pcs, i, pc, CountedFailure);
    CountUpdate(s.pcs, i, pc, IsAllFailed);
    CountAll(s.pcs, CountedFailure);
    CountAll(s.pcs[i := pc], CountedFailure);
    if s.first.Some? {
      assert !CountedFailure(s.pcs[i := pc][s.first.value]);
    }
  }

  lemma FailureStep(s: State, ins: seq<Outcome>, i: nat, k: nat)
    requires Enabled(s, ins, Callback(i)) && s.pcs[i] == Waiting && ins[i].Err? && s.counter == k % U32 && k < |ins|
    ensures Step(s, ins, Callback(i)) ==
              s.(counter := (k + 1) % U32, pcs := s.pcs[i := AfterFailure(k, |ins|, ins[i].e)])
  {
    CounterMeetsTotal(k, |ins|);
    assert (k % U32 + 1) % U32 == (k + 1) % U32;
  }

  lemma FailurePcs(s: State, ins: seq<Outcome>, i: nat, k: nat, counter: nat)
    requires PcFacts(s, ins) && i < |ins| && i < s.registered && s.pcs[i] == Waiting && ins[i].Err?
    ensures PcFacts(s.(counter := counter, pcs := s.pcs[i := AfterFailure(k, |ins|, ins[i].e)]), ins)
  {
  }

  lemma FailureInv(s: State, ins: seq<Outcome>, i: nat)
    requires Inv(s, ins) && Enabled(s, ins, Callback(i)) && s.pcs[i] == Waiting && ins[i].Err?
    ensures Inv(Step(s, ins, Callback(i)), ins)
  {
    var k := CountIf(s.pcs, CountedFailure);
    FailureCounts(s, ins, i, AfterFailure(k, |ins|, ins[i].e));
    FailureStep(s, ins, i, k);
    FailurePcs(s, ins, i, k, (k + 1) % U32);
  }

  lemma AllFailedInv(s: State, ins: seq<Outcome>, i: nat)
    requires Inv(s, ins) && Enabled(s, ins, Callback(i)) && s.pcs[i].AllFailed?
    ensures Inv(Step(s, ins, Callback(i)), ins)
  {
    CountUpdate(s.pcs, i, DoneFailed, CountedFailure);
    CountUpdate(s.pcs, i, DoneFailed, IsAllFailed);
    CountNone(s.pcs, IsAllFailed);
    assert ins[i] in ins;
  }

  lemma {:induction false} RunInv(states: seq<State>, ins: seq<Outcome>)
    requires IsRun(states, ins)
    ensures Inv(states[|states| - 1], ins)
  {
    var n := |states| - 1;
    if n == 0 {
      InitInv(ins);
    } else {
      RunInv(states[..n], ins);
      var s := states[n - 1];
      assert Next(states[n - 1], states[n - 1 + 1], ins);
      var a :| Enabled(s, ins, a) && states[n] == Step(s, ins, a);
      if a.Callback? {
        if s.pcs[a.i].AllFailed? {
          AllFailedInv(s, ins, a.i);
        } else if s.pcs[a.i] == Waiting && ins[a.i].Err? {
          FailureInv(s, ins, a.i);
        } else {
          ReadyInv(s, ins, a.i);
        }
      }
    }
  }

  predicate AllDone(s: State) {
    forall i :: 0 <= i < |s.pcs| ==> Finished(s.pcs[i])
  }

  /** A run after which all callbacks have returned. */
  ghost predicate CompleteRun(states: seq<State>, ins: seq<Outcome>) {
    IsRun(states, ins) && AllDone(states[|states| - 1])
  }

  /** The promise is set at most once; to a value only to that of the first ready input to complete, with its
      index; to an exception only if every input failed, and then to one of theirs. */
  lemma PrefersValues(states: seq<State>, ins: seq<Outcome>)
    requires IsRun(states, ins) && ins != []
    ensures var s := states[|states| - 1];
            && |s.resolved| <= 1
            && (s.resolved != [] && s.resolved[0].Ready? ==>
                  && s.first.Some? && s.first.value < |ins| && ins[s.first.value] == Val(s.resolved[0].v)
                  && s.resolved[0].index == s.first.value % U32)
            && (s.resolved != [] && !s.resolved[0].Ready? ==>
                  s.resolved[0].Failed? && !SomeReady(ins) && Err(s.resolved[0].e) in ins)
            && (forall i :: 0 <= i < |s.pcs| && s.pcs[i] != Waiting ==> i < s.registered <= |ins|)
  {
    RunInv(states, ins);
    var s := states[|states| - 1];
    CountAll(s.pcs, CountedFailure);
  }

  /** When all callbacks have returned, the promise is set, exactly once, if and only if an input was ready or
      there are fewer than 2^32 inputs: the failure counter is a uint32_t, the total is not. */
  lemma ResolvesIff(states: seq<State>, ins: seq<Outcome>)
    requires CompleteRun(states, ins)
    ensures |states[|states| - 1].resolved| == 1 <==> SomeReady(ins) || |ins| < U32
  {
    RunInv(states, ins);
    var s := states[|states| - 1];
    CountAll(s.pcs, CountedFailure);
    CountNone(s.pcs, IsAllFailed);
    if SomeReady(ins) {
      var i :| 0 <= i < |ins| && ins[i].Val?;
      assert s.pcs[i] == DoneReady;
    }
  }

  // ---------------------------------------------------------------------------------------------
  // Every run can be completed

  predicate Unfinished(pc: Pc) { !Finished(pc) }

  predicate IsWaiting(pc: Pc) { pc == Waiting }

  /** Steps of callbacks still to come. */
  function Left(s: State): nat {
    CountIf(s.pcs, Unfinished) + CountIf(s.pcs, IsWaiting)
  }

  lemma CallbackLeft(s: State, ins: seq<Outcome>, i: nat)
    requires Enabled(s, ins, Callback(i))
    ensures Left(Step(s, ins, Callback(i))) < Left(s)
  {
    var pc := Step(s, ins, Callback(i)).pcs[i];
    CountUpdate(s.pcs, i, pc, Unfinished);
    CountUpdate(s.pcs, i, pc, IsWaiting);
  }

  lemma ExtendRun(states: seq<State>, ins: seq<Outcome>, a: Action)
    requires IsRun(states, ins) && Enabled(states[|states| - 1], ins, a)
    ensures IsRun(states + [Step(states[|states| - 1], ins, a)], ins)
  {
    var n, more := |states| - 1, states + [Step(states[|states| - 1], ins, a)];
    assert Next(more[n], more[n + 1], ins);
    forall i | 0 <= i < |more| - 1 ensures Next(more[i], more[i + 1], ins) {
      if i < n { assert Next(states[i], states[i + 1], ins); }
    }
  }

  /** Every run goes on until all callbacks have returned. */
  lemma {:induction false} GoesOn(states: seq<State>, ins: seq<Outcome>) returns (all: seq<State>)
    requires IsRun(states, ins)
    ensures CompleteRun(all, ins) && states <= all
    decreases Left(states[|states| - 1]), |ins| - states[|states| - 1].registered
  {
    var s := states[|states| - 1];
    RunInv(states, ins);
    if AllDone(s) {
      all := states;
    } else {
      var i :| 0 <= i < |s.pcs| && !Finished(s.pcs[i]);
      var a := if i < s.registered then Callback(i) else Register;
      if i < s.registered { CallbackLeft(s, ins, i); }
      ExtendRun(states, ins, a);
      all := GoesOn(states + [Step(s, ins, a)], ins);
    }
  }

  /** With 2^32 failures or more every run goes on to one that completes and leaves the promise unset for ever. */
  lemma NeverResolves(states: seq<State>, ins: seq<Outcome>) returns (all: seq<State>)
    requires IsRun(states, ins) && !SomeReady(ins) && |ins| >= U32
    ensures CompleteRun(all, ins) && states <= all && all[|all| - 1].resolved == []
  {
    all := GoesOn(states, ins);
    ResolvesIff(all, ins);
    PrefersValues(all, ins);
  }

  /** All complete runs resolve the promise if and only if an input is ready or there are fewer than 2^32 inputs. */
  lemma AlwaysResolvesIff(ins: seq<Outcome>)
    ensures SomeReady(ins) || |ins| < U32 <==>
            forall states: seq<State> :: CompleteRun(states, ins) ==> |states[|states| - 1].resolved| == 1
  {
    if SomeReady(ins) || |ins| < U32 {
      forall states: seq<State> | CompleteRun(states, ins) ensures |states[|states| - 1].resolved| == 1 {
        ResolvesIff(states, ins);
      }
    } else {
      assert IsRun([Init(|ins|)], ins);
      var all := NeverResolves([Init(|ins|)], ins);
      assert CompleteRun(all, ins);
    }
  }
}
