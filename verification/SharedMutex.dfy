/**
 The reader/writer lock `FiberSharedMutex` as a transition system.

 Any number of threads (fewer than `K_MAX_READERS`) run `lock_shared`, `try_lock_shared`, `unlock_shared`,
 `lock`, `try_lock` and `unlock` concurrently. Every atomic operation on `reader_quota_` and
 `pending_readers_` is one step, and so is every region under `wakeup_lock_` that touches only data this
 lock protects. The region of `lock()` under `wakeup_lock_` also touches `pending_readers_`, which readers
 change without the lock, so it is split into its single operations and the lock's owner is explicit.

 Condition variables follow their usual contract: sleeping releases the lock in the same step, a notify
 reaches only threads already asleep, and a sleeper may wake for no reason at any time.
  */
module SharedMutex {
  import opened Common

  const K_MAX_READERS: int := 0x3fff_ffff

  /** What a thread is about to do next. */
  datatype Pc =
    | Idle
    // shared side
    | RWait(asleep: bool)  // WaitForRead: asleep on reader_cv_, or about to test its predicate
    | Reading              // holds the lock in shared mode
    | RLeaving             // unlock_shared gave its quota back to an announced writer
    | RWaking              // WakeupWriter, before the region under wakeup_lock_
    | RNotifying           // WakeupWriter, before writer_cv_.notify_one()
    | RTry(was: int)       // try_lock_shared, `was` loaded, before the compare-exchange
    // exclusive side
    | WBlocked             // lock(), before it owns writer_lock_
    | WOwner               // lock(), owns writer_lock_, before it announces itself
    | WCounted(n: int)     // announced, counted n readers in flight, before wakeup_lock_
    | WAdding(n: int)      // owns wakeup_lock_, before it adds n to pending_readers_
    | WTesting             // owns wakeup_lock_, before it loads pending_readers_
    | WSleepy              // owns wakeup_lock_, the load was not 0, before it falls asleep
    | WAsleep              // asleep on writer_cv_
    | WAwake               // woken, before it owns wakeup_lock_ again
    | Writing              // holds the lock in exclusive mode
    | WTry                 // try_lock(), owns writer_lock_, before the first load
    | WTryLoaded           // try_lock(), loaded K_MAX_READERS, before the compare-exchange
    | WFailed              // try_lock(), before it gives writer_lock_ back and returns false
    | WLeaving(k: int)     // unlock(), quota given back, k readers to grant
    | WGranted             // unlock(), grants published, before reader_cv_.notify_all()
    | WReleasing           // unlock(), before writer_lock_.unlock()

  datatype State = State(
    quota: int,            // reader_quota_
    pending: int,          // pending_readers_
    grants: int,           // newly_granted_readers_
    wakeup: Option<nat>,   // owner of wakeup_lock_
    writer: Option<nat>,   // owner of writer_lock_
    pcs: seq<Pc>)

  /** `Continue` runs the next step of an operation already begun; the six operations begin one. */
  datatype Action =
    | LockShared | TryLockShared | UnlockShared
    | Lock | TryLock | Unlock
    | Continue
    | CasFails     // compare_exchange_weak fails although the values agree
    | SpuriousWake

  function Init(threads: nat): State {
    State(K_MAX_READERS, 0, 0, None, None, seq(threads, _ => Idle))
  }

  // ---------------------------------------------------------------------------------------------
  // Steps

  predicate Enabled(s: State, t: nat, a: Action) {
    t < |s.pcs| &&
    match a
    case LockShared => s.pcs[t] == Idle
    case TryLockShared => s.pcs[t] == Idle
    case Lock => s.pcs[t] == Idle
    case TryLock => s.pcs[t] == Idle
    case UnlockShared => s.pcs[t] == Reading
    case Unlock => s.pcs[t] == Writing
    case CasFails => (s.pcs[t].RTry? && s.quota == s.pcs[t].was) || (s.pcs[t] == WTryLoaded && s.quota == K_MAX_READERS)
    case SpuriousWake => s.pcs[t] == RWait(true) || s.pcs[t] == WAsleep
    case Continue => CanContinue(s, t)
  }

  predicate CanContinue(s: State, t: nat)
    requires t < |s.pcs|
  {
    match s.pcs[t]
    case Idle => false
    case Reading => false
    case Writing => false
    case WAsleep => false
    case RWait(asleep) => !asleep && s.wakeup == None
    case RWaking => s.wakeup == None
    case WCounted(_) => s.wakeup == None
    case WAwake => s.wakeup == None
    case WLeaving(_) => s.wakeup == None
    case WBlocked => s.writer == None
    case _ => true
  }

  /** The state after thread `t` moves to `pc`. */
  function Goto(s: State, t: nat, pc: Pc): State
    requires t < |s.pcs|
  {
    s.(pcs := s.pcs[t := pc])
  }

  function WakeReaders(pcs: seq<Pc>): seq<Pc> {
    seq(|pcs|, i requires 0 <= i < |pcs| => if pcs[i] == RWait(true) then RWait(false) else pcs[i])
  }

  /** notify_one on writer_cv_: only the owner of writer_lock_ can be asleep there. */
  function WakeWriter(s: State): State {
    match s.writer
    case Some(w) => if w < |s.pcs| && s.pcs[w] == WAsleep then Goto(s, w, WAwake) else s
    case None => s
  }

  function Step(s: State, t: nat, a: Action): State
    requires Enabled(s, t, a)
  {
    match a
    case LockShared => Goto(s.(quota := s.quota - 1), t, if s.quota > 1 then Reading else RWait(false))
    case TryLockShared => Goto(s, t, if s.quota <= 0 then Idle else RTry(s.quota))
    case UnlockShared => Goto(s.(quota := s.quota + 1), t, if s.quota > 0 then Idle else RLeaving)
    case Lock => Goto(s, t, WBlocked)
    case TryLock => if s.writer == None then Goto(s.(writer := Some(t)), t, WTry) else s
    case Unlock =>
      Goto(s.(quota := s.quota + K_MAX_READERS), t, if s.quota != 0 then WLeaving(-s.quota) else WReleasing)
    case CasFails => s
    case SpuriousWake => Goto(s, t, if s.pcs[t] == WAsleep then WAwake else RWait(false))
    case Continue => Advance(s, t)
  }

  function Advance(s: State, t: nat): State
    requires t < |s.pcs| && CanContinue(s, t)
  {
    match s.pcs[t]
    case RWait(_) =>
      if s.grants != 0 then Goto(s.(grants := s.grants - 1), t, Reading) else Goto(s, t, RWait(true))
    case RLeaving => Goto(s.(pending := s.pending - 1), t, if s.pending == 1 then RWaking else Idle)
    case RWaking => Goto(s, t, RNotifying)
    case RNotifying => Goto(WakeWriter(s), t, Idle)
    case RTry(was) =>
      if s.quota == was then Goto(s.(quota := was - 1), t, Reading)
      else if s.quota <= 0 then Goto(s, t, Idle)
      else Goto(s, t, RTry(s.quota))
    case WBlocked => Goto(s.(writer := Some(t)), t, WOwner)
    case WOwner =>
      Goto(s.(quota := s.quota - K_MAX_READERS), t,
           if s.quota == K_MAX_READERS then Writing else WCounted(K_MAX_READERS - s.quota))
    case WCounted(n) => Goto(s.(wakeup := Some(t)), t, WAdding(n))
    case WAdding(n) =>
      var s1 := s.(pending := s.pending + n);
      if s.pending == -n then Goto(s1.(wakeup := None), t, Writing) else Goto(s1, t, WTesting)
    case WTesting => if s.pending == 0 then Goto(s.(wakeup := None), t, Writing) else Goto(s, t, WSleepy)
    case WSleepy => Goto(s.(wakeup := None), t, WAsleep)
    case WAwake => Goto(s.(wakeup := Some(t)), t, WTesting)
    case WTry => Goto(s, t, if s.quota != K_MAX_READERS then WFailed else WTryLoaded)
    case WTryLoaded => if s.quota == K_MAX_READERS then Goto(s.(quota := 0), t, Writing) else Goto(s, t, WFailed)
    case WFailed => Goto(s.(writer := None), t, Idle)
    case WLeaving(k) => Goto(s.(grants := k), t, WGranted)
    case WGranted => Goto(s.(pcs := WakeReaders(s.pcs)), t, WReleasing)
    case WReleasing => Goto(s.(writer := None), t, Idle)
  }

  /** The TRPC_CHECKs on the way of a step hold. */
  predicate ChecksPass(s: State, t: nat, a: Action)
    requires Enabled(s, t, a)
  {
    match a
    case LockShared => if s.quota > 1 then s.quota <= K_MAX_READERS else s.quota != 1
    case TryLockShared => s.quota <= K_MAX_READERS && s.quota != 1
    case UnlockShared => s.quota > 0 ==> s.quota < K_MAX_READERS
    case Unlock => s.quota + K_MAX_READERS > 0 && s.quota <= 0
    case CasFails => s.quota <= K_MAX_READERS && (s.pcs[t].RTry? ==> s.quota != 1)
    case Continue =>
      (match s.pcs[t]
       case RTry(was) => s.quota != was ==> s.quota <= K_MAX_READERS && s.quota != 1
       case WOwner => s.quota != K_MAX_READERS ==> 0 < s.quota < K_MAX_READERS
       case _ => true)
    case _ => true
  }

  ghost predicate Next(s: State, s': State) {
    exists t: nat, a: Action :: Enabled(s, t, a) && s' == Step(s, t, a)
  }

  /** A run of `threads` threads: the successive states, starting from a fresh lock nobody uses. */
  ghost predicate IsRun(states: seq<State>, threads: nat) {
    && 0 < |states|
    && states[0] == Init(threads)
    && forall i :: 0 <= i < |states| - 1 ==> Next(states[i], states[i + 1])
  }

  // ---------------------------------------------------------------------------------------------
  // Counting threads

  datatype Class = Waiting | Holding | Leaving | Waking | Notifying

  predicate In(pc: Pc, c: Class) {
    match c
    case Waiting => pc.RWait?
    case Holding => pc.Reading?
    case Leaving => pc.RLeaving?
    case Waking => pc.RWaking?
    case Notifying => pc.RNotifying?
  }

  function Bit(b: bool): int { if b then 1 else 0 }

  function Count(pcs: seq<Pc>, c: Class): (n: nat)
    ensures n <= |pcs|
  {
    if pcs == [] then 0 else Bit(In(pcs[0], c)) + Count(pcs[1..], c)
  }

  /** Moving one thread changes a count by what that thread contributes. */
  lemma {:induction false} CountMove(pcs: seq<Pc>, t: nat, pc: Pc, c: Class)
    requires t < |pcs|
    ensures Count(pcs[t := pc], c) == Count(pcs, c) - Bit(In(pcs[t], c)) + Bit(In(pc, c))
  {
    if t > 0 {
      assert pcs[t := pc][1..] == pcs[1..][t - 1 := pc];
      CountMove(pcs[1..], t - 1, pc, c);
    } else {
      assert pcs[t := pc][1..] == pcs[1..];
    }
  }

  lemma {:induction false} CountNone(pcs: seq<Pc>, c: Class)
    requires forall i :: 0 <= i < |pcs| ==> !In(pcs[i], c)
    ensures Count(pcs, c) == 0
  {
    if pcs != [] { CountNone(pcs[1..], c); }
  }

  lemma {:induction false} CountMember(pcs: seq<Pc>, t: nat, c: Class)
    requires t < |pcs| && In(pcs[t], c)
    ensures Count(pcs, c) > 0
  {
    if t > 0 { CountMember(pcs[1..], t - 1, c); }
  }

  /** The readers in flight are some of the threads, and not `t` when `t` neither waits nor reads. */
  lemma {:induction false} CountInFlight(pcs: seq<Pc>, t: nat)
    requires t < |pcs|
    ensures Count(pcs, Waiting) + Count(pcs, Holding) + Bit(!In(pcs[t], Waiting) && !In(pcs[t], Holding)) <= |pcs|
    ensures Count(pcs, Waiting) + Count(pcs, Holding) + Count(pcs, Leaving) <= |pcs|
  {
    if t > 0 {
      CountInFlight(pcs[1..], t - 1);
    } else if |pcs| > 1 {
      CountInFlight(pcs[1..], 0);
    }
  }

  lemma {:induction false} CountWakeReaders(pcs: seq<Pc>, c: Class)
    ensures Count(WakeReaders(pcs), c) == Count(pcs, c)
  {
    if pcs != [] {
      assert WakeReaders(pcs)[1..] == WakeReaders(pcs[1..]);
      CountWakeReaders(pcs[1..], c);
    }
  }

  /** How many threads wait to read, read, are leaving, are waking the writer, are about to notify it. */
  datatype Tally = Tally(waiting: int, holding: int, leaving: int, waking: int, notifying: int)

  function TallyOf(pcs: seq<Pc>): Tally {
    Tally(Count(pcs, Waiting), Count(pcs, Holding), Count(pcs, Leaving), Count(pcs, Waking), Count(pcs, Notifying))
  }

  /** The tally after a thread moves from `from` to `to`. */
  function Shift(k: Tally, from: Pc, to: Pc): Tally {
    Tally(k.waiting - Bit(from.RWait?) + Bit(to.RWait?),
          k.holding - Bit(from.Reading?) + Bit(to.Reading?),
          k.leaving - Bit(from.RLeaving?) + Bit(to.RLeaving?),
          k.waking - Bit(from.RWaking?) + Bit(to.RWaking?),
          k.notifying - Bit(from.RNotifying?) + Bit(to.RNotifying?))
  }

  /** What a tally says about thread `t`: a thread in a class makes that class nonempty, and a thread that
      neither waits nor reads leaves room below the number of threads. */
  predicate Fits(k: Tally, pcs: seq<Pc>, t: nat)
    requires t < |pcs|
  {
    && Bit(pcs[t].RWait?) <= k.waiting
    && Bit(pcs[t].Reading?) <= k.holding
    && Bit(pcs[t].RLeaving?) <= k.leaving
    && Bit(pcs[t].RWaking?) <= k.waking
    && Bit(pcs[t].RNotifying?) <= k.notifying
    && k.waiting + k.holding + Bit(!pcs[t].RWait? && !pcs[t].Reading?) <= |pcs|
  }

  lemma TallyFits(pcs: seq<Pc>, t: nat)
    requires t < |pcs|
    ensures Fits(TallyOf(pcs), pcs, t)
  {
    forall c | In(pcs[t], c) ensures Count(pcs, c) > 0 { CountMember(pcs, t, c); }
    CountInFlight(pcs, t);
    assert In(pcs[t], Waiting) == pcs[t].RWait? && In(pcs[t], Holding) == pcs[t].Reading?
             && In(pcs[t], Leaving) == pcs[t].RLeaving?;
    assert In(pcs[t], Waking) == pcs[t].RWaking? && In(pcs[t], Notifying) == pcs[t].RNotifying?;
  }

  lemma TallyMove(pcs: seq<Pc>, t: nat, pc: Pc)
    requires t < |pcs|
    ensures TallyOf(pcs[t := pc]) == Shift(TallyOf(pcs), pcs[t], pc)
  {
    var k, k' := TallyOf(pcs), TallyOf(pcs[t := pc]);
    assert k'.waiting == k.waiting - Bit(pcs[t].RWait?) + Bit(pc.RWait?) by { CountMove(pcs, t, pc, Waiting); }
    assert k'.holding == k.holding - Bit(pcs[t].Reading?) + Bit(pc.Reading?) by { CountMove(pcs, t, pc, Holding); }
    assert k'.leaving == k.leaving - Bit(pcs[t].RLeaving?) + Bit(pc.RLeaving?) by { CountMove(pcs, t, pc, Leaving); }
    assert k'.waking == k.waking - Bit(pcs[t].RWaking?) + Bit(pc.RWaking?) by { CountMove(pcs, t, pc, Waking); }
    assert k'.notifying == k.notifying - Bit(pcs[t].RNotifying?) + Bit(pc.RNotifying?) by {
      CountMove(pcs, t, pc, Notifying);
    }
  }

  // ---------------------------------------------------------------------------------------------
  // The invariant

  /** From the subtraction of K_MAX_READERS to its addition. */
  predicate AnnouncedPc(pc: Pc) {
    pc.WCounted? || pc.WAdding? || pc.WTesting? || pc.WSleepy? || pc.WAsleep? || pc.WAwake? || pc.Writing?
  }

  predicate OwnsWriterLock(pc: Pc) {
    || AnnouncedPc(pc)
    || pc.WOwner? || pc.WTry? || pc.WTryLoaded? || pc.WFailed? || pc.WLeaving? || pc.WGranted? || pc.WReleasing?
  }

  predicate OwnsWakeupLock(pc: Pc) {
    pc.WAdding? || pc.WTesting? || pc.WSleepy?
  }

  predicate LocksOwned(s: State) {
    && |s.pcs| < K_MAX_READERS
    && (forall t :: 0 <= t < |s.pcs| ==> (OwnsWriterLock(s.pcs[t]) <==> s.writer == Some(t)))
    && (forall t :: 0 <= t < |s.pcs| ==> (OwnsWakeupLock(s.pcs[t]) <==> s.wakeup == Some(t)))
    && (s.writer.Some? ==> s.writer.value < |s.pcs|)
    && (s.wakeup.Some? ==> s.wakeup.value < |s.pcs|)
  }

  /** The program counter of the thread that owns writer_lock_, `Idle` when nobody does. */
  function WriterPc(s: State): Pc {
    if s.writer.Some? && s.writer.value < |s.pcs| then s.pcs[s.writer.value] else Idle
  }

  predicate Announced(s: State) {
    AnnouncedPc(WriterPc(s))
  }

  /** What an announced writer has counted but not yet added to `pending`. */
  function NotYetAdded(s: State): int {
    match WriterPc(s)
    case WCounted(n) => n
    case WAdding(n) => n
    case _ => 0
  }

  /** What a leaving writer has not yet stored in `grants`. */
  function NotYetGranted(s: State): int {
    if WriterPc(s).WLeaving? then WriterPc(s).k else 0
  }

  /** The reader quota: K_MAX_READERS unless a writer is announced, less the readers in flight. */
  predicate QuotaBalance(s: State, k: Tally) {
    s.quota == (if Announced(s) then 0 else K_MAX_READERS) - k.waiting - k.holding
  }

  /** Whom an announced writer waits for, and whom the last writer let in. */
  predicate GrantBalance(s: State, k: Tally) {
    && 0 <= s.grants <= k.waiting
    && (Announced(s) ==> s.pending + NotYetAdded(s) == k.holding + s.grants + k.leaving)
    && (!Announced(s) ==> s.pending == 0 && k.leaving == 0 && k.waiting == s.grants + NotYetGranted(s))
  }

  /** While the writer sleeps, or is about to, either a counted reader is still in or someone is going to
      wake the writer. */
  predicate WriterFacts(s: State, k: Tally) {
    match WriterPc(s)
    case Writing => s.pending == 0
    case WCounted(n) => 0 < n < K_MAX_READERS
    case WAdding(n) => 0 < n < K_MAX_READERS
    case WSleepy => s.pending != 0 || k.waking > 0
    case WAsleep => s.pending != 0 || k.waking > 0 || k.notifying > 0
    case WLeaving(n) => n > 0 && s.grants == 0
    case _ => true
  }

  predicate ReaderFacts(s: State) {
    && (forall t :: 0 <= t < |s.pcs| && s.pcs[t].RTry? ==> 1 < s.pcs[t].was <= K_MAX_READERS)
    && (forall t :: 0 <= t < |s.pcs| && s.pcs[t] == RWait(true) && s.grants > 0 ==> WriterPc(s) == WGranted)
  }

  predicate InvFor(s: State, k: Tally) {
    LocksOwned(s) && QuotaBalance(s, k) && GrantBalance(s, k) && WriterFacts(s, k) && ReaderFacts(s)
  }

  predicate Inv(s: State) {
    InvFor(s, TallyOf(s.pcs))
  }

  lemma InitInv(threads: nat)
    requires threads < K_MAX_READERS
    ensures Inv(Init(threads))
  {
    forall c { CountNone(Init(threads).pcs, c); }
  }

  /** A thread that does not own writer_lock_, before and after, leaves the owner where it is. */
  lemma BystanderMove(s: State, s': State, t: nat, pc: Pc)
    requires LocksOwned(s) && t < |s.pcs| && s'.pcs == s.pcs[t := pc] && s'.writer == s.writer && s'.wakeup == s.wakeup
    requires !OwnsWriterLock(s.pcs[t]) && !OwnsWriterLock(pc)
    ensures LocksOwned(s') && WriterPc(s') == WriterPc(s)
  {
  }

  lemma SharedOpInv(s: State, t: nat, a: Action, k: Tally)
    requires Enabled(s, t, a) && (a.LockShared? || a.TryLockShared? || a.UnlockShared?)
    requires InvFor(s, k) && Fits(k, s.pcs, t)
    ensures InvFor(Step(s, t, a), Shift(k, s.pcs[t], Step(s, t, a).pcs[t]))
  {
    BystanderMove(s, Step(s, t, a), t, Step(s, t, a).pcs[t]);
  }

  lemma ReaderLeavesInv(s: State, t: nat, k: Tally)
    requires t < |s.pcs| && CanContinue(s, t) && (s.pcs[t].RLeaving? || s.pcs[t].RWaking?)
    requires InvFor(s, k) && Fits(k, s.pcs, t)
    ensures InvFor(Advance(s, t), Shift(k, s.pcs[t], Advance(s, t).pcs[t]))
  {
    BystanderMove(s, Advance(s, t), t, Advance(s, t).pcs[t]);
  }

  lemma ReaderTriesInv(s: State, t: nat, k: Tally)
    requires t < |s.pcs| && CanContinue(s, t) && s.pcs[t].RTry?
    requires InvFor(s, k) && Fits(k, s.pcs, t)
    ensures InvFor(Advance(s, t), Shift(k, s.pcs[t], Advance(s, t).pcs[t]))
  {
    BystanderMove(s, Advance(s, t), t, Advance(s, t).pcs[t]);
  }

  lemma SharedContinueInv(s: State, t: nat, k: Tally)
    requires t < |s.pcs| && CanContinue(s, t)
    requires s.pcs[t].RWait? || s.pcs[t].RLeaving? || s.pcs[t].RWaking? || s.pcs[t].RTry?
    requires InvFor(s, k) && Fits(k, s.pcs, t)
    ensures InvFor(Advance(s, t), Shift(k, s.pcs[t], Advance(s, t).pcs[t]))
  {
    if s.pcs[t].RLeaving? || s.pcs[t].RWaking? {
      ReaderLeavesInv(s, t, k);
    } else if s.pcs[t].RTry? {
      ReaderTriesInv(s, t, k);
    } else {
      BystanderMove(s, Advance(s, t), t, Advance(s, t).pcs[t]);
    }
  }

  lemma NotifyWriterInv(s: State, t: nat, k: Tally)
    requires t < |s.pcs| && s.pcs[t].RNotifying?
    requires InvFor(s, k) && Fits(k, s.pcs, t)
    ensures InvFor(Advance(s, t), Shift(k, RNotifying, Idle))
  {
    var s1 := WakeWriter(s);
    BystanderMove(s1, Advance(s, t), t, Idle);
  }

  lemma LockInv(s: State, t: nat, a: Action, k: Tally)
    requires Enabled(s, t, a) && (a.Lock? || a.TryLock?)
    requires InvFor(s, k) && Fits(k, s.pcs, t)
    ensures InvFor(Step(s, t, a), k)
  {
  }

  lemma AnnounceInv(s: State, t: nat, k: Tally)
    requires t < |s.pcs| && CanContinue(s, t) && (s.pcs[t].WBlocked? || s.pcs[t].WOwner?)
    requires InvFor(s, k) && Fits(k, s.pcs, t)
    ensures InvFor(Advance(s, t), k)
  {
  }

  lemma TryLockInv(s: State, t: nat, k: Tally)
    requires t < |s.pcs| && (s.pcs[t].WTry? || s.pcs[t].WTryLoaded? || s.pcs[t].WFailed?)
    requires InvFor(s, k) && Fits(k, s.pcs, t)
    ensures InvFor(Advance(s, t), k)
  {
  }

  lemma WaitForReadersInv(s: State, t: nat, k: Tally)
    requires t < |s.pcs| && CanContinue(s, t) && AnnouncedPc(s.pcs[t])
    requires InvFor(s, k)
    ensures InvFor(Advance(s, t), k)
  {
  }

  lemma UnlockInv(s: State, t: nat, a: Action, k: Tally)
    requires Enabled(s, t, a)
    requires a.Unlock? || (a.Continue? && (s.pcs[t].WLeaving? || s.pcs[t].WReleasing?))
    requires InvFor(s, k) && Fits(k, s.pcs, t)
    ensures InvFor(Step(s, t, a), k)
  {
  }

  lemma NotifyReadersInv(s: State, t: nat, k: Tally)
    requires t < |s.pcs| && s.pcs[t].WGranted?
    requires InvFor(s, k)
    ensures InvFor(Advance(s, t), k)
  {
  }

  lemma SpuriousInv(s: State, t: nat, k: Tally)
    requires Enabled(s, t, SpuriousWake)
    requires InvFor(s, k)
    ensures InvFor(Step(s, t, SpuriousWake), k)
  {
  }

  lemma SharedStepInv(s: State, t: nat, a: Action)
    requires Inv(s) && Enabled(s, t, a) && (a.LockShared? || a.TryLockShared? || a.UnlockShared?)
    ensures Inv(Step(s, t, a))
  {
    TallyFits(s.pcs, t);
    TallyMove(s.pcs, t, Step(s, t, a).pcs[t]);
    SharedOpInv(s, t, a, TallyOf(s.pcs));
  }

  lemma WriterStepInv(s: State, t: nat, a: Action)
    requires Inv(s) && Enabled(s, t, a) && (a.Lock? || a.TryLock? || a.Unlock? || a.SpuriousWake?)
    ensures Inv(Step(s, t, a))
  {
    var k := TallyOf(s.pcs);
    TallyFits(s.pcs, t);
    TallyMove(s.pcs, t, Step(s, t, a).pcs[t]);
    if a.Unlock? {
      UnlockInv(s, t, a, k);
    } else if a.SpuriousWake? {
      SpuriousInv(s, t, k);
    } else {
      LockInv(s, t, a, k);
    }
  }

  lemma StepInv(s: State, t: nat, a: Action)
    requires Inv(s) && Enabled(s, t, a)
    ensures Inv(Step(s, t, a)) && |Step(s, t, a).pcs| == |s.pcs|
  {
    match a {
      case LockShared => SharedStepInv(s, t, a);
      case TryLockShared => SharedStepInv(s, t, a);
      case UnlockShared => SharedStepInv(s, t, a);
      case CasFails => TallyMove(s.pcs, t, Step(s, t, a).pcs[t]);
      case Continue => ContinueInv(s, t);
      case _ => WriterStepInv(s, t, a);
    }
  }

  lemma LastReaderNotifiesInv(s: State, t: nat)
    requires Inv(s) && t < |s.pcs| && s.pcs[t].RNotifying?
    ensures Inv(Advance(s, t))
  {
    TallyFits(s.pcs, t);
    NotifyWriterInv(s, t, TallyOf(s.pcs));
    var s1 := WakeWriter(s);
    if s1 != s { TallyMove(s.pcs, s.writer.value, WAwake); }
    TallyMove(s1.pcs, t, Idle);
  }

  lemma NotifyInv(s: State, t: nat)
    requires Inv(s) && t < |s.pcs| && (s.pcs[t].RNotifying? || s.pcs[t].WGranted?)
    ensures Inv(Advance(s, t))
  {
    if s.pcs[t].RNotifying? {
      LastReaderNotifiesInv(s, t);
    } else {
      NotifyReadersInv(s, t, TallyOf(s.pcs));
      forall c { CountWakeReaders(s.pcs, c); }
      TallyMove(WakeReaders(s.pcs), t, WReleasing);
    }
  }

  predicate Exclusive(pc: Pc) {
    pc.WBlocked? || OwnsWriterLock(pc)
  }

  lemma ExclusiveShift(s: State, t: nat, k: Tally)
    requires t < |s.pcs| && CanContinue(s, t) && Exclusive(s.pcs[t]) && !s.pcs[t].WGranted?
    ensures Shift(k, s.pcs[t], Advance(s, t).pcs[t]) == k
  {
  }

  lemma ExclusiveInv(s: State, t: nat, k: Tally)
    requires t < |s.pcs| && CanContinue(s, t) && Exclusive(s.pcs[t]) && !s.pcs[t].WGranted?
    requires InvFor(s, k) && Fits(k, s.pcs, t)
    ensures InvFor(Advance(s, t), k)
  {
    var pc := s.pcs[t];
    if pc.WBlocked? || pc.WOwner? {
      AnnounceInv(s, t, k);
    } else if pc.WTry? || pc.WTryLoaded? || pc.WFailed? {
      TryLockInv(s, t, k);
    } else if AnnouncedPc(pc) {
      WaitForReadersInv(s, t, k);
    } else {
      UnlockInv(s, t, Continue, k);
    }
  }

  lemma ContinueTally(s: State, t: nat, k: Tally)
    requires t < |s.pcs| && CanContinue(s, t) && !s.pcs[t].RNotifying? && !s.pcs[t].WGranted?
    requires InvFor(s, k) && Fits(k, s.pcs, t)
    ensures InvFor(Advance(s, t), Shift(k, s.pcs[t], Advance(s, t).pcs[t]))
  {
    if Exclusive(s.pcs[t]) {
      ExclusiveShift(s, t, k);
      ExclusiveInv(s, t, k);
    } else {
      SharedContinueInv(s, t, k);
    }
  }

  /** All steps but the two notifies move one thread. */
  lemma ContinueMovesOne(s: State, t: nat)
    requires t < |s.pcs| && CanContinue(s, t) && !s.pcs[t].RNotifying? && !s.pcs[t].WGranted?
    ensures Advance(s, t).pcs == s.pcs[t := Advance(s, t).pcs[t]]
  {
  }

  lemma ContinueInv(s: State, t: nat)
    requires Inv(s) && t < |s.pcs| && CanContinue(s, t)
    ensures Inv(Advance(s, t)) && |Advance(s, t).pcs| == |s.pcs|
  {
    if s.pcs[t].RNotifying? || s.pcs[t].WGranted? {
      NotifyInv(s, t);
    } else {
      TallyFits(s.pcs, t);
      ContinueTally(s, t, TallyOf(s.pcs));
      ContinueMovesOne(s, t);
      TallyMove(s.pcs, t, Advance(s, t).pcs[t]);
    }
  }

  // ---------------------------------------------------------------------------------------------
  // Safety of every run

  ghost predicate Reachable(s: State, threads: nat) {
    exists states :: IsRun(states, threads) && states[|states| - 1] == s
  }

  lemma {:induction false} RunInv(states: seq<State>, threads: nat)
    requires IsRun(states, threads) && threads < K_MAX_READERS
    ensures Inv(states[|states| - 1]) && |states[|states| - 1].pcs| == threads
  {
    var n := |states| - 1;
    if n == 0 {
      InitInv(threads);
    } else {
      assert states[..n][|states[..n]| - 1] == states[n - 1];
      RunInv(states[..n], threads);
      assert Next(states[n - 1], states[n - 1 + 1]);
      var t: nat, a: Action :| Enabled(states[n - 1], t, a) && states[n] == Step(states[n - 1], t, a);
      StepInv(states[n - 1], t, a);
    }
  }

  lemma ReachableInv(s: State, threads: nat)
    requires Reachable(s, threads) && threads < K_MAX_READERS
    ensures Inv(s) && |s.pcs| == threads
  {
    var states :| IsRun(states, threads) && states[|states| - 1] == s;
    RunInv(states, threads);
  }

  /** While a thread holds the lock exclusively, no other thread holds it in either mode. */
  lemma MutualExclusion(s: State, threads: nat, t: nat, u: nat)
    requires Reachable(s, threads) && threads < K_MAX_READERS
    requires t < |s.pcs| && u < |s.pcs| && t != u && s.pcs[t] == Writing
    ensures s.pcs[u] != Writing && s.pcs[u] != Reading
  {
    ReachableInv(s, threads);
    assert OwnsWriterLock(s.pcs[t]);
    if s.pcs[u] == Reading { CountMember(s.pcs, u, Holding); }
  }

  /** The counting law of the two atomics and the grant counter, and that none leaves the 32-bit range. */
  lemma CountingLaw(s: State, threads: nat)
    requires Reachable(s, threads) && threads < K_MAX_READERS
    ensures s.quota == (if Announced(s) then 0 else K_MAX_READERS) - Count(s.pcs, Waiting) - Count(s.pcs, Holding)
    ensures Announced(s) ==> s.pending + NotYetAdded(s) == Count(s.pcs, Holding) + s.grants + Count(s.pcs, Leaving)
    ensures !Announced(s) ==> s.pending == 0 && Count(s.pcs, Leaving) == 0
    ensures !Announced(s) ==> Count(s.pcs, Waiting) == s.grants + NotYetGranted(s)
    ensures 0 <= s.grants <= Count(s.pcs, Waiting)
    ensures WriterPc(s).WLeaving? ==> s.grants == 0 && WriterPc(s).k == Count(s.pcs, Waiting)
    ensures -0x8000_0000 <= s.quota < 0x8000_0000 && -0x8000_0000 <= s.pending < 0x8000_0000 && s.grants < 0x8000_0000
  {
    ReachableInv(s, threads);
    if |s.pcs| > 0 { CountInFlight(s.pcs, 0); }
  }

  /** No TRPC_CHECK of the lock ever fires. */
  lemma NoCheckFires(s: State, threads: nat, t: nat, a: Action)
    requires Reachable(s, threads) && threads < K_MAX_READERS && Enabled(s, t, a)
    ensures ChecksPass(s, t, a)
  {
    ReachableInv(s, threads);
    TallyFits(s.pcs, t);
    assert s.writer == Some(t) <==> OwnsWriterLock(s.pcs[t]);
  }

  /** newly_granted_readers_ changes only while nobody else owns wakeup_lock_. */
  lemma GrantsUnderLock(s: State, t: nat, a: Action)
    requires Enabled(s, t, a)
    ensures Step(s, t, a).grants != s.grants ==> s.wakeup.None?
  {
  }

  /** The fresh lock after threads 0 .. m-1 have each taken it in shared mode. */
  function Readers(threads: nat, m: nat): State
    requires m <= threads
  {
    State(K_MAX_READERS - m, 0, 0, None, None, seq(threads, i => if i < m then Reading else Idle))
  }

  lemma {:induction false} ReadersReachable(threads: nat, m: nat)
    requires m <= threads && m < K_MAX_READERS
    ensures Reachable(Readers(threads, m), threads)
  {
    if m == 0 {
      assert Readers(threads, 0) == Init(threads);
      assert IsRun([Init(threads)], threads);
    } else {
      ReadersReachable(threads, m - 1);
      var s, s' := Readers(threads, m - 1), Readers(threads, m);
      var states :| IsRun(states, threads) && states[|states| - 1] == s;
      assert s' == Step(s, m - 1, LockShared);
      assert Next(s, s');
      assert IsRun(states + [s'], threads);
      assert (states + [s'])[|states|] == s';
    }
  }

  /** The checks hold in every run of n threads exactly when n < K_MAX_READERS. */
  lemma ChecksHoldIff(threads: nat)
    ensures threads < K_MAX_READERS <==>
              forall s, t, a :: Reachable(s, threads) && Enabled(s, t, a) ==> ChecksPass(s, t, a)
  {
    if threads < K_MAX_READERS {
      forall s, t, a | Reachable(s, threads) && Enabled(s, t, a) ensures ChecksPass(s, t, a) {
        NoCheckFires(s, threads, t, a);
      }
    } else {
      ReadersReachable(threads, K_MAX_READERS - 1);
      var s := Readers(threads, K_MAX_READERS - 1);
      assert Enabled(s, K_MAX_READERS - 1, LockShared) && !ChecksPass(s, K_MAX_READERS - 1, LockShared);
    }
  }

  // ---------------------------------------------------------------------------------------------
  // Progress of every run

  /** Nobody holds the lock in either mode. */
  predicate NobodyHolds(s: State) {
    forall t :: 0 <= t < |s.pcs| ==> s.pcs[t] != Reading && s.pcs[t] != Writing
  }

  predicate AllIdle(s: State) {
    forall t :: 0 <= t < |s.pcs| ==> s.pcs[t] == Idle
  }

  /** No operation already begun can take its next step. */
  predicate Halted(s: State) {
    forall t :: 0 <= t < |s.pcs| ==> !CanContinue(s, t)
  }

  /** No wakeup is lost: a sleeper whose predicate has become true is about to be notified. */
  lemma NoLostWakeup(s: State, threads: nat, t: nat)
    requires Reachable(s, threads) && threads < K_MAX_READERS && t < |s.pcs|
    ensures s.pcs[t] == RWait(true) && s.grants > 0 ==>
              exists w :: 0 <= w < |s.pcs| && s.pcs[w] == WGranted
    ensures s.pcs[t] == WAsleep && s.pending == 0 ==>
              exists w :: 0 <= w < |s.pcs| && (s.pcs[w] == RWaking || s.pcs[w] == RNotifying)
  {
    ReachableInv(s, threads);
    if s.pcs[t] == RWait(true) && s.grants > 0 {
      assert s.pcs[s.writer.value] == WGranted;
    }
    if s.pcs[t] == WAsleep && s.pending == 0 {
      assert OwnsWriterLock(s.pcs[t]);
      if forall w :: 0 <= w < |s.pcs| ==> s.pcs[w] != RWaking && s.pcs[w] != RNotifying {
        CountNone(s.pcs, Waking);
        CountNone(s.pcs, Notifying);
      }
    }
  }

  /** Thread `t` waits for a thread that holds the lock, or for a writer that does. */
  ghost predicate WaitsForHolder(s: State, t: nat)
    requires t < |s.pcs|
  {
    match s.pcs[t]
    case RWait(asleep) => asleep && WriterIn(s)
    case WBlocked => WriterIn(s)
    case WAsleep => ReaderIn(s)
    case _ => false
  }

  /** A writer holds the lock, or sleeps until the readers that hold it are gone. */
  ghost predicate WriterIn(s: State) {
    exists w :: 0 <= w < |s.pcs| && (s.pcs[w] == Writing || s.pcs[w] == WAsleep)
  }

  ghost predicate ReaderIn(s: State) {
    exists r :: 0 <= r < |s.pcs| && s.pcs[r] == Reading
  }

  lemma HaltedPcs(s: State, t: nat)
    requires Inv(s) && Halted(s) && t < |s.pcs|
    ensures s.pcs[t] in {Idle, Reading, Writing, RWait(true), WAsleep, WBlocked}
    ensures s.writer.Some? ==> WriterIn(s) && (WriterPc(s) == Writing || WriterPc(s) == WAsleep)
  {
    if s.wakeup.Some? {
      assert CanContinue(s, s.wakeup.value);
    }
    assert !CanContinue(s, t);
    if s.writer.Some? { assert OwnsWriterLock(s.pcs[s.writer.value]) && !CanContinue(s, s.writer.value); }
  }

  lemma HaltedCounts(s: State)
    requires Inv(s) && Halted(s)
    ensures Count(s.pcs, Leaving) == Count(s.pcs, Waking) == Count(s.pcs, Notifying) == 0 && s.grants == 0
  {
    forall t | 0 <= t < |s.pcs| ensures !In(s.pcs[t], Leaving) && !In(s.pcs[t], Waking) && !In(s.pcs[t], Notifying) {
      HaltedPcs(s, t);
    }
    CountNone(s.pcs, Leaving);
    CountNone(s.pcs, Waking);
    CountNone(s.pcs, Notifying);
    if s.grants > 0 {
      if forall t :: 0 <= t < |s.pcs| ==> !In(s.pcs[t], Waiting) { CountNone(s.pcs, Waiting); }
      var t :| 0 <= t < |s.pcs| && In(s.pcs[t], Waiting);
      HaltedPcs(s, t);
    }
  }

  /** When no operation begun can go on, those left are lock() and lock_shared(), each waiting for a holder: a reader
      for a writer that holds the lock or is before it, a writer for such a writer, or for a reader that holds it. */
  lemma HaltedMeansWaiting(s: State, t: nat)
    requires Inv(s) && Halted(s) && t < |s.pcs|
    ensures s.pcs[t] in {Idle, Reading, Writing} || WaitsForHolder(s, t)
  {
    HaltedPcs(s, t);
    HaltedCounts(s);
    assert !CanContinue(s, t);
    if s.pcs[t] == RWait(true) { CountMember(s.pcs, t, Waiting); }
    if s.pcs[t] == WAsleep {
      assert s.writer == Some(t) by { assert OwnsWriterLock(s.pcs[t]); }
      if !ReaderIn(s) { CountNone(s.pcs, Holding); }
    }
  }

  /** When every operation begun is blocked and nobody holds the lock, no operation is left. */
  lemma HaltedMeansIdle(s: State)
    requires Inv(s) && NobodyHolds(s) && Halted(s)
    ensures AllIdle(s)
  {
    forall t | 0 <= t < |s.pcs| ensures s.pcs[t] == Idle {
      HaltedMeansWaiting(s, t);
      if WriterIn(s) {
        var w :| 0 <= w < |s.pcs| && (s.pcs[w] == Writing || s.pcs[w] == WAsleep);
        HaltedMeansWaiting(s, w);
      }
    }
  }

  /** An upper bound on the steps thread `t` can still take, and cause others to take, on its own. */
  function Weight(pc: Pc, quota: int, n: nat): nat {
    match pc
    case Idle => 0
    case Reading => 0
    case Writing => 0
    case RWait(asleep) => if asleep then 0 else 1
    case WAsleep => 0
    case RLeaving => 6
    case RWaking => 5
    case RNotifying => 4
    case RTry(was) => if was == quota then n + 2 else n + 3
    case WBlocked => n + 6
    case WOwner => n + 5
    case WCounted(_) => 4
    case WAdding(_) => 3
    case WAwake => 3
    case WTesting => 2
    case WSleepy => 1
    case WTry => n + 3
    case WTryLoaded => n + 2
    case WFailed => 1
    case WLeaving(_) => n + 3
    case WGranted => n + 2
    case WReleasing => 1
  }

  function Work(pcs: seq<Pc>, quota: int, n: nat): nat {
    if pcs == [] then 0 else Weight(pcs[0], quota, n) + Work(pcs[1..], quota, n)
  }

  lemma {:induction false} WorkMove(pcs: seq<Pc>, t: nat, pc: Pc, quota: int, n: nat)
    requires t < |pcs|
    ensures Work(pcs[t := pc], quota, n) == Work(pcs, quota, n) - Weight(pcs[t], quota, n) + Weight(pc, quota, n)
  {
    if t > 0 {
      assert pcs[t := pc][1..] == pcs[1..][t - 1 := pc];
      WorkMove(pcs[1..], t - 1, pc, quota, n);
    } else {
      assert pcs[t := pc][1..] == pcs[1..];
    }
  }

  /** A change of the quota costs each try_lock_shared in progress at most one more round. */
  lemma {:induction false} WorkQuota(pcs: seq<Pc>, quota: int, quota': int, n: nat)
    ensures Work(pcs, quota', n) <= Work(pcs, quota, n) + |pcs|
  {
    if pcs != [] { WorkQuota(pcs[1..], quota, quota', n); }
  }

  lemma {:induction false} WorkWakeReaders(pcs: seq<Pc>, quota: int, n: nat)
    ensures Work(WakeReaders(pcs), quota, n) <= Work(pcs, quota, n) + |pcs|
  {
    if pcs != [] {
      assert WakeReaders(pcs)[1..] == WakeReaders(pcs[1..]);
      WorkWakeReaders(pcs[1..], quota, n);
    }
  }

  lemma {:induction false} WorkBound(pcs: seq<Pc>, quota: int, n: nat)
    ensures Work(pcs, quota, n) <= |pcs| * (n + 6)
  {
    if pcs != [] {
      WorkBound(pcs[1..], quota, n);
      assert |pcs| * (n + 6) == (n + 6) + (|pcs| - 1) * (n + 6);
    }
  }

  /** What a step that moves one thread must spend: one unit, and one per thread if it changes the quota. */
  lemma MoveUsesWork(pcs: seq<Pc>, t: nat, pc: Pc, quota: int, quota': int)
    requires t < |pcs|
    requires Weight(pc, quota, |pcs|) + (if quota' == quota then 0 else |pcs|) < Weight(pcs[t], quota, |pcs|)
    ensures Work(pcs[t := pc], quota', |pcs|) < Work(pcs, quota, |pcs|)
  {
    WorkMove(pcs, t, pc, quota, |pcs|);
    if quota' != quota { WorkQuota(pcs[t := pc], quota, quota', |pcs|); }
  }

  lemma NotifyWriterUsesWork(s: State, t: nat)
    requires t < |s.pcs| && s.pcs[t].RNotifying?
    ensures Work(Advance(s, t).pcs, s.quota, |s.pcs|) < Work(s.pcs, s.quota, |s.pcs|)
  {
    var s1 := WakeWriter(s);
    if s1 != s { WorkMove(s.pcs, s.writer.value, WAwake, s.quota, |s.pcs|); }
    WorkMove(s1.pcs, t, Idle, s.quota, |s.pcs|);
  }

  lemma NotifyReadersUsesWork(s: State, t: nat)
    requires t < |s.pcs| && s.pcs[t].WGranted?
    ensures Work(Advance(s, t).pcs, s.quota, |s.pcs|) < Work(s.pcs, s.quota, |s.pcs|)
  {
    WorkWakeReaders(s.pcs, s.quota, |s.pcs|);
    WorkMove(WakeReaders(s.pcs), t, WReleasing, s.quota, |s.pcs|);
  }

  lemma ContinueUsesWeight(s: State, t: nat)
    requires t < |s.pcs| && CanContinue(s, t) && !s.pcs[t].RNotifying? && !s.pcs[t].WGranted?
    ensures Weight(Advance(s, t).pcs[t], s.quota, |s.pcs|) + (if Advance(s, t).quota == s.quota then 0 else |s.pcs|)
              < Weight(s.pcs[t], s.quota, |s.pcs|)
  {
  }

  /** Each step of an operation already begun uses up work. */
  lemma ContinueUsesWork(s: State, t: nat)
    requires t < |s.pcs| && CanContinue(s, t)
    ensures Work(Advance(s, t).pcs, Advance(s, t).quota, |s.pcs|) < Work(s.pcs, s.quota, |s.pcs|)
  {
    if s.pcs[t].RNotifying? {
      NotifyWriterUsesWork(s, t);
    } else if s.pcs[t].WGranted? {
      NotifyReadersUsesWork(s, t);
    } else {
      ContinueMovesOne(s, t);
      ContinueUsesWeight(s, t);
      MoveUsesWork(s.pcs, t, Advance(s, t).pcs[t], s.quota, Advance(s, t).quota);
    }
  }

  /** A spurious step, which nothing asks for, adds at most three units. */
  lemma SpuriousAddsWork(s: State, t: nat, a: Action)
    requires Enabled(s, t, a) && (a.CasFails? || a.SpuriousWake?)
    ensures var s' := Step(s, t, a); Work(s'.pcs, s'.quota, |s.pcs|) <= Work(s.pcs, s.quota, |s.pcs|) + 3
  {
    if a.SpuriousWake? { WorkMove(s.pcs, t, Step(s, t, a).pcs[t], s.quota, |s.pcs|); }
  }

  /** Some operation already begun takes its next step, or spuriously wakes up or fails a compare-exchange. */
  ghost predicate Goes(s: State, s': State, spurious: bool) {
    exists t: nat, a: Action ::
      Enabled(s, t, a) && s' == Step(s, t, a) && (if spurious then a.CasFails? || a.SpuriousWake? else a.Continue?)
  }

  /** A run of operations already begun; `spurious[i]` says of which kind step i is. */
  ghost predicate IsInternalRun(states: seq<State>, spurious: seq<bool>) {
    && |states| == |spurious| + 1
    && forall i :: 0 <= i < |spurious| ==> Goes(states[i], states[i + 1], spurious[i])
  }

  function HowMany(spurious: seq<bool>): nat {
    if spurious == [] then 0 else (if spurious[0] then 1 else 0) + HowMany(spurious[1..])
  }

  lemma GoesInv(s: State, s': State, spurious: bool)
    requires Goes(s, s', spurious) && Inv(s)
    ensures Inv(s') && |s'.pcs| == |s.pcs|
    ensures Work(s'.pcs, s'.quota, |s.pcs|) + 1 <= Work(s.pcs, s.quota, |s.pcs|) + (if spurious then 4 else 0)
  {
    var t: nat, a: Action :|
      Enabled(s, t, a) && s' == Step(s, t, a) && (if spurious then a.CasFails? || a.SpuriousWake? else a.Continue?);
    StepInv(s, t, a);
    if spurious { SpuriousAddsWork(s, t, a); } else { ContinueUsesWork(s, t); }
  }

  lemma {:induction false} InternalRunEnds(states: seq<State>, spurious: seq<bool>)
    requires IsInternalRun(states, spurious) && Inv(states[0])
    ensures Inv(states[|states| - 1])
    ensures |spurious| <= Work(states[0].pcs, states[0].quota, |states[0].pcs|) + 4 * HowMany(spurious)
    decreases |spurious|
  {
    if spurious != [] {
      assert Goes(states[0], states[0 + 1], spurious[0]);
      GoesInv(states[0], states[1], spurious[0]);
      forall i | 0 <= i < |spurious[1..]| ensures Goes(states[1..][i], states[1..][i + 1], spurious[1..][i]) {
        assert Goes(states[i + 1], states[i + 1 + 1], spurious[i + 1]);
      }
      InternalRunEnds(states[1..], spurious[1..]);
    }
  }

  /**
    * No deadlock, no livelock, no lost wakeup: from every reachable state the operations already begun take at most
    * n * (n + 6) further steps in any order, and four more for each spurious wakeup or compare-exchange failure among
    * them; and when they can take none, even without any of those, some thread holds the lock or all have returned.
    */
  lemma Progress(states: seq<State>, spurious: seq<bool>, threads: nat)
    requires IsInternalRun(states, spurious) && Reachable(states[0], threads) && threads < K_MAX_READERS
    ensures |spurious| <= threads * (threads + 6) + 4 * HowMany(spurious)
    ensures var s := states[|states| - 1];
            Halted(s) ==> forall t :: 0 <= t < |s.pcs| ==> s.pcs[t] in {Idle, Reading, Writing} || WaitsForHolder(s, t)
    ensures Halted(states[|states| - 1]) && NobodyHolds(states[|states| - 1]) ==> AllIdle(states[|states| - 1])
  {
    ReachableInv(states[0], threads);
    InternalRunEnds(states, spurious);
    WorkBound(states[0].pcs, states[0].quota, threads);
    var s := states[|states| - 1];
    if Halted(s) {
      forall t | 0 <= t < |s.pcs| ensures s.pcs[t] in {Idle, Reading, Writing} || WaitsForHolder(s, t) {
        HaltedMeansWaiting(s, t);
      }
      if NobodyHolds(s) { HaltedMeansIdle(s); }
    }
  }

  // ---------------------------------------------------------------------------------------------
  // What an operation has got when it returns

  datatype Move = Move(thread: nat, action: Action)

  predicate MovesAt(states: seq<State>, moves: seq<Move>, i: nat)
    requires i < |moves| && |states| == |moves| + 1
  {
    && Enabled(states[i], moves[i].thread, moves[i].action)
    && states[i + 1] == Step(states[i], moves[i].thread, moves[i].action)
  }

  /** Successive states, from any, with the moves between them. */
  predicate IsHistory(states: seq<State>, moves: seq<Move>) {
    |states| == |moves| + 1 && forall i :: 0 <= i < |moves| ==> MovesAt(states, moves, i)
  }

  /** The threads do not vanish, and what others do to a thread is to wake it. */
  lemma OthersOnlyWake(s: State, t: nat, a: Action, u: nat)
    requires Enabled(s, t, a) && u < |s.pcs|
    ensures |Step(s, t, a).pcs| == |s.pcs|
    ensures u != t ==>
              || Step(s, t, a).pcs[u] == s.pcs[u]
              || (s.pcs[u] == RWait(true) && Step(s, t, a).pcs[u] == RWait(false))
              || (s.pcs[u] == WAsleep && Step(s, t, a).pcs[u] == WAwake)
  {
  }

  /** In lock(), or holding the lock exclusively. */
  predicate LockPc(pc: Pc) {
    pc.WBlocked? || pc.WOwner? || AnnouncedPc(pc)
  }

  /** In lock_shared(), or holding the lock in shared mode. */
  predicate SharedPc(pc: Pc) {
    pc.RWait? || pc.Reading?
  }

  lemma {:induction false} LockedUntilUnlock(states: seq<State>, moves: seq<Move>, t: nat, i: nat, j: nat)
    requires IsHistory(states, moves) && i < j <= |moves| && moves[i] == Move(t, Lock)
    requires forall k :: i < k < j ==> moves[k] != Move(t, Unlock)
    ensures t < |states[j].pcs| && LockPc(states[j].pcs[t])
  {
    assert MovesAt(states, moves, j - 1);
    if i < j - 1 {
      LockedUntilUnlock(states, moves, t, i, j - 1);
      OthersOnlyWake(states[j - 1], moves[j - 1].thread, moves[j - 1].action, t);
    }
  }

  lemma {:induction false} SharedUntilUnlock(states: seq<State>, moves: seq<Move>, t: nat, i: nat, j: nat)
    requires IsHistory(states, moves) && i < j <= |moves| && moves[i] == Move(t, LockShared)
    requires forall k :: i < k < j ==> moves[k] != Move(t, UnlockShared)
    ensures t < |states[j].pcs| && SharedPc(states[j].pcs[t])
  {
    assert MovesAt(states, moves, j - 1);
    if i < j - 1 {
      SharedUntilUnlock(states, moves, t, i, j - 1);
      OthersOnlyWake(states[j - 1], moves[j - 1].thread, moves[j - 1].action, t);
    }
  }

  /** A thread that called lock() is in no operation again only after it held the lock exclusively and called
      unlock(). */
  lemma LockReturnsHolding(states: seq<State>, moves: seq<Move>, t: nat, i: nat, j: nat) returns (k: nat)
    requires IsHistory(states, moves) && i < j <= |moves| && moves[i] == Move(t, Lock)
    requires t < |states[j].pcs| && states[j].pcs[t] == Idle
    ensures i < k < j && moves[k] == Move(t, Unlock) && t < |states[k].pcs| && states[k].pcs[t] == Writing
  {
    if forall m :: i < m < j ==> moves[m] != Move(t, Unlock) { LockedUntilUnlock(states, moves, t, i, j); }
    k :| i < k < j && moves[k] == Move(t, Unlock);
    assert MovesAt(states, moves, k);
  }

  /** And one that called lock_shared() only after it held the lock in shared mode and called unlock_shared(). */
  lemma LockSharedReturnsHolding(states: seq<State>, moves: seq<Move>, t: nat, i: nat, j: nat) returns (k: nat)
    requires IsHistory(states, moves) && i < j <= |moves| && moves[i] == Move(t, LockShared)
    requires t < |states[j].pcs| && states[j].pcs[t] == Idle
    ensures i < k < j && moves[k] == Move(t, UnlockShared) && t < |states[k].pcs| && states[k].pcs[t] == Reading
  {
    if forall m :: i < m < j ==> moves[m] != Move(t, UnlockShared) { SharedUntilUnlock(states, moves, t, i, j); }
    k :| i < k < j && moves[k] == Move(t, UnlockShared);
    assert MovesAt(states, moves, k);
  }

  /** Thread `t` begins no operation after i and before j. */
  predicate BeginsNothing(moves: seq<Move>, t: nat, i: nat, j: nat) {
    forall k :: i < k < j && k < |moves| && moves[k].thread == t ==>
      moves[k].action !in {LockShared, TryLockShared, Lock, TryLock}
  }

  /** After unlock_shared() a thread is on its way out of it, or out, until it begins another operation. */
  lemma {:induction false} UnlockSharedLetsGo(states: seq<State>, moves: seq<Move>, t: nat, i: nat, j: nat)
    requires IsHistory(states, moves) && i < j <= |moves| && moves[i] == Move(t, UnlockShared)
    requires BeginsNothing(moves, t, i, j)
    ensures t < |states[j].pcs| && states[j].pcs[t] in {RLeaving, RWaking, RNotifying, Idle}
  {
    assert MovesAt(states, moves, j - 1);
    if i < j - 1 {
      UnlockSharedLetsGo(states, moves, t, i, j - 1);
      OthersOnlyWake(states[j - 1], moves[j - 1].thread, moves[j - 1].action, t);
    }
  }

  /** And so after unlock(). */
  lemma {:induction false} UnlockLetsGo(states: seq<State>, moves: seq<Move>, t: nat, i: nat, j: nat)
    requires IsHistory(states, moves) && i < j <= |moves| && moves[i] == Move(t, Unlock)
    requires BeginsNothing(moves, t, i, j)
    ensures t < |states[j].pcs| && (states[j].pcs[t].WLeaving? || states[j].pcs[t] in {WGranted, WReleasing, Idle})
  {
    assert MovesAt(states, moves, j - 1);
    if i < j - 1 {
      UnlockLetsGo(states, moves, t, i, j - 1);
      OthersOnlyWake(states[j - 1], moves[j - 1].thread, moves[j - 1].action, t);
    }
  }

  /** Thread `t` is in some operation, or holds the lock, in all states after i and before j. */
  predicate Busy(states: seq<State>, t: nat, i: nat, j: nat) {
    forall k :: i < k < j && k < |states| ==> t < |states[k].pcs| && states[k].pcs[t] != Idle
  }

  /** Meanwhile the quota was not K_MAX_READERS. */
  predicate QuotaTaken(states: seq<State>, i: nat, j: nat) {
    exists k :: i < k < j && k < |states| && states[k].quota != K_MAX_READERS
  }

  /** Meanwhile the quota was used up. */
  predicate QuotaUsedUp(states: seq<State>, i: nat, j: nat) {
    exists k :: i <= k < j && k < |states| && states[k].quota <= 0
  }

  lemma {:induction false} TryingUntilUnlock(states: seq<State>, moves: seq<Move>, t: nat, i: nat, j: nat)
    requires IsHistory(states, moves) && i < j <= |moves| && moves[i] == Move(t, TryLock) && states[i].writer.None?
    requires Busy(states, t, i, j) && forall k :: i < k < j ==> moves[k] != Move(t, Unlock)
    ensures t < |states[j].pcs|
    ensures states[j].pcs[t] in {WTry, WTryLoaded, Writing} ||
            (states[j].pcs[t] in {WFailed, Idle} && QuotaTaken(states, i, j))
  {
    assert MovesAt(states, moves, j - 1);
    if i < j - 1 {
      TryingUntilUnlock(states, moves, t, i, j - 1);
      OthersOnlyWake(states[j - 1], moves[j - 1].thread, moves[j - 1].action, t);
      if states[j - 1].quota != K_MAX_READERS { assert QuotaTaken(states, i, j); }
      if QuotaTaken(states, i, j - 1) { assert QuotaTaken(states, i, j); }
    }
  }

  /** try_lock() returns with the lock held exclusively, unless writer_lock_ was owned when it was called, or the quota
      was not K_MAX_READERS meanwhile: `j` is the first state in which the thread is in no operation, without having
      called unlock(), so that it got false. */
  lemma TryLockFails(states: seq<State>, moves: seq<Move>, t: nat, i: nat, j: nat)
    requires IsHistory(states, moves) && i < j <= |moves| && moves[i] == Move(t, TryLock)
    requires Busy(states, t, i, j) && forall k :: i < k < j ==> moves[k] != Move(t, Unlock)
    requires t < |states[j].pcs| && states[j].pcs[t] == Idle
    ensures states[i].writer.Some? || QuotaTaken(states, i, j)
  {
    if states[i].writer.None? { TryingUntilUnlock(states, moves, t, i, j); }
  }

  lemma {:induction false} TryingShared(states: seq<State>, moves: seq<Move>, t: nat, i: nat, j: nat)
    requires IsHistory(states, moves) && i < j <= |moves| && moves[i] == Move(t, TryLockShared)
    requires Busy(states, t, i, j) && forall k :: i < k < j ==> moves[k] != Move(t, UnlockShared)
    ensures t < |states[j].pcs|
    ensures states[j].pcs[t].RTry? || states[j].pcs[t] == Reading ||
            (states[j].pcs[t] == Idle && QuotaUsedUp(states, i, j))
  {
    assert MovesAt(states, moves, j - 1);
    if i < j - 1 {
      TryingShared(states, moves, t, i, j - 1);
      OthersOnlyWake(states[j - 1], moves[j - 1].thread, moves[j - 1].action, t);
    }
    if states[j - 1].quota <= 0 { assert QuotaUsedUp(states, i, j); }
  }

  /** try_lock_shared() returns with the lock held in shared mode, unless the quota was used up meanwhile. */
  lemma TryLockSharedFails(states: seq<State>, moves: seq<Move>, t: nat, i: nat, j: nat)
    requires IsHistory(states, moves) && i < j <= |moves| && moves[i] == Move(t, TryLockShared)
    requires Busy(states, t, i, j) && forall k :: i < k < j ==> moves[k] != Move(t, UnlockShared)
    requires t < |states[j].pcs| && states[j].pcs[t] == Idle
    ensures QuotaUsedUp(states, i, j)
  {
    TryingShared(states, moves, t, i, j);
  }

  /** Thread `t` goes on alone, n steps, if nothing stops it. */
  function Alone(s: State, t: nat, n: nat): State
    requires t < |s.pcs|
    ensures |Alone(s, t, n).pcs| == |s.pcs|
  {
    if n == 0 then s
    else
      var s' := Alone(s, t, n - 1);
      if CanContinue(s', t) then Advance(s', t) else s'
  }

  /** On a lock that nobody has, try_lock() and lock() get it when run alone, and lock_shared() and try_lock_shared()
      get it in shared mode, also next to readers. */
  lemma AloneSucceeds(s: State, t: nat)
    requires t < |s.pcs| && s.pcs[t] == Idle && s.writer.None?
    ensures s.quota == K_MAX_READERS ==> Alone(Step(s, t, TryLock), t, 2).pcs == s.pcs[t := Writing]
    ensures s.quota == K_MAX_READERS ==> Alone(Step(s, t, Lock), t, 2).pcs == s.pcs[t := Writing]
    ensures s.quota > 1 ==> Step(s, t, LockShared).pcs == s.pcs[t := Reading]
    ensures s.quota > 1 ==> Alone(Step(s, t, TryLockShared), t, 1).pcs == s.pcs[t := Reading]
  {
    if s.quota == K_MAX_READERS {
      var s1 := Step(s, t, TryLock);
      assert Alone(s1, t, 1) == Advance(Alone(s1, t, 0), t);
      var s2 := Step(s, t, Lock);
      assert Alone(s2, t, 1) == Advance(Alone(s2, t, 0), t);
    }
    if s.quota > 1 {
      var s3 := Step(s, t, TryLockShared);
      assert Alone(s3, t, 0) == s3;
    }
  }
}
