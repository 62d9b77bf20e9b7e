/** A sequence lock: writers under a mutex, readers that check a counter before and after. */
module SeqLock {
  import opened Common

  /** A word of the protected data that was read: which, and what it held. */
  datatype Word = Word(index: nat, value: int)

  /** Where a thread is, as a writer or as a reader. `from` and `to` are values of the unbounded counter. */
  datatype Pc =
    | Idle
    | Locked
    | Writing
    | Ended
    | Reading(from: nat, retryNum: nat, got: seq<Word>)
    | Checked(from: nat, to: nat, retry: bool, got: seq<Word>)

  /**
    * `base` is what the counter held at the start and `count` how often it was incremented since; the code sees their
    * sum in 32 bits. `committed[j]` is the data after j write sections.
    */
  datatype State = State(base: nat, count: nat, data: seq<int>, committed: seq<seq<int>>, holder: Option<nat>,
                         pcs: seq<Pc>)

  function Sequence(s: State): nat {
    (s.base + s.count) % 0x1_0000_0000
  }

  predicate Initial(s: State) {
    && s.base < 0x1_0000_0000 && s.count == 0 && s.committed == [s.data] && s.holder == None
    && forall t :: 0 <= t < |s.pcs| ==> s.pcs[t] == Idle
  }

  datatype Op = Lock | Begin | Write(word: nat, value: int) | End | Unlock | ReadBegin | Read(word: nat) | Retry | Leave

  datatype Action = Action(thread: nat, op: Op)

  predicate Enabled(s: State, a: Action) {
    a.thread < |s.pcs| &&
    var pc := s.pcs[a.thread];
    match a.op
    case Lock => pc.Idle? && s.holder.None?
    case Begin => pc.Locked?
    case Write(word, _) => pc.Writing? && word < |s.data|
    case End => pc.Writing?
    case Unlock => pc.Ended?
    case ReadBegin => pc.Idle?
    case Read(word) => pc.Reading? && word < |s.data|
    case Retry => pc.Reading?
    case Leave => pc.Checked?
  }

  function At(s: State, t: nat, pc: Pc): State
    requires t < |s.pcs|
  {
    s.(pcs := s.pcs[t := pc])
  }

  /** One step of one thread; a reader that finds the counter odd spins. */
  function Step(s: State, a: Action): State
    requires Enabled(s, a)
  {
    var t, pc := a.thread, s.pcs[a.thread];
    match a.op
    case Lock => At(s, t, Locked).(holder := Some(t))
    case Begin => At(s, t, Writing).(count := s.count + 1)
    case Write(word, value) => s.(data := s.data[word := value])
    case End => At(s, t, Ended).(count := s.count + 1, committed := s.committed + [s.data])
    case Unlock => At(s, t, Idle).(holder := None)
    case ReadBegin => if Sequence(s) % 2 == 1 then s else At(s, t, Pc.Reading(s.count, Sequence(s), []))
    case Read(word) => At(s, t, Pc.Reading(pc.from, pc.retryNum, pc.got + [Word(word, s.data[word])]))
    case Retry => At(s, t, Checked(pc.from, s.count, Sequence(s) != pc.retryNum, pc.got))
    case Leave => At(s, t, Idle)
  }

  /** The run of `acts` from `s` exists and ends in `s'`. */
  predicate Follows(s: State, acts: seq<Action>, s': State)
    decreases |acts|
  {
    if acts == [] then s == s' else Enabled(s, acts[0]) && Follows(Step(s, acts[0]), acts[1..], s')
  }

  // ---------------------------------------------------------------------------------------------
  // What every step keeps

  /** All words read are those of this one state of the data. */
  predicate Agrees(got: seq<Word>, data: seq<int>) {
    forall k :: 0 <= k < |got| ==> got[k].index < |data| && data[got[k].index] == got[k].value
  }

  predicate InWrite(pc: Pc) {
    pc.Locked? || pc.Writing? || pc.Ended?
  }

  predicate ThreadOk(s: State, t: nat)
    requires t < |s.pcs|
  {
    && (InWrite(s.pcs[t]) <==> s.holder == Some(t))
    && (s.pcs[t].Writing? ==> s.count % 2 == 1)
    && match s.pcs[t]
       case Reading(from, retryNum, got) =>
         && from % 2 == 0 && from <= s.count && retryNum == (s.base + from) % 0x1_0000_0000
         && (from == s.count ==> Agrees(got, s.data))
       case Checked(from, to, retry, got) =>
         && from % 2 == 0 && from <= to <= s.count && from / 2 < |s.committed|
         && (retry <==> (s.base + to) % 0x1_0000_0000 != (s.base + from) % 0x1_0000_0000)
         && (from == to ==> Agrees(got, s.committed[from / 2]))
       case _ => true
  }

  predicate Shared(s: State) {
    && s.base % 2 == 0 && |s.committed| == s.count / 2 + 1
    && (s.count % 2 == 0 ==> s.data == s.committed[s.count / 2])
    && (s.count % 2 == 1 ==> s.holder.Some? && s.holder.value < |s.pcs| && s.pcs[s.holder.value].Writing?)
  }

  predicate Inv(s: State) {
    Shared(s) && forall t :: 0 <= t < |s.pcs| ==> ThreadOk(s, t)
  }

  lemma ParityIsCount(s: State)
    requires s.base % 2 == 0
    ensures Sequence(s) % 2 == s.count % 2
  {
    var n := s.base + s.count;
    var q, r := n / 0x1_0000_0000, Sequence(s);
    assert n == 2 * (q * 0x8000_0000) + r;
    LowBit(q * 0x8000_0000, r);
    assert n == 2 * (s.base / 2) + s.count;
    LowBit(s.base / 2, s.count);
  }

  lemma StepShared(s: State, a: Action)
    requires Inv(s) && Enabled(s, a)
    ensures Shared(Step(s, a))
  {
    assert ThreadOk(s, a.thread);
    if s.holder.Some? && s.holder.value < |s.pcs| {
      assert ThreadOk(s, s.holder.value);
    }
  }

  /** The thread that moves. */
  lemma StepSelf(s: State, a: Action)
    requires Inv(s) && Enabled(s, a)
    ensures ThreadOk(Step(s, a), a.thread)
  {
    assert ThreadOk(s, a.thread);
    ParityIsCount(s);
  }

  /** A thread that does not move. */
  lemma StepOther(s: State, a: Action, t: nat)
    requires Inv(s) && Enabled(s, a) && t < |s.pcs| && t != a.thread
    ensures ThreadOk(Step(s, a), t)
  {
    assert ThreadOk(s, a.thread) && ThreadOk(s, t);
  }

  lemma StepInv(s: State, a: Action)
    requires Inv(s) && Enabled(s, a)
    ensures Inv(Step(s, a))
  {
    StepShared(s, a);
    forall t | 0 <= t < |s.pcs| ensures ThreadOk(Step(s, a), t) {
      if t == a.thread { StepSelf(s, a); } else { StepOther(s, a, t); }
    }
  }

  lemma {:induction false} RunInv(s: State, acts: seq<Action>, s': State)
    requires Inv(s) && Follows(s, acts, s')
    ensures Inv(s')
    decreases |acts|
  {
    if acts != [] {
      StepInv(s, acts[0]);
      RunInv(Step(s, acts[0]), acts[1..], s');
    }
  }

  // ---------------------------------------------------------------------------------------------
  // No torn reads

  /** How many write sections completed between two values of the counter. */
  function Sections(from: nat, to: nat): int {
    to / 2 - from / 2
  }

  lemma EqualIn32Bits(base: nat, from: nat, to: nat)
    requires from <= to && from % 2 == 0 && Sections(from, to) < 0x8000_0000
    requires (base + to) % 0x1_0000_0000 == (base + from) % 0x1_0000_0000
    ensures from == to
  {
    var a, b := base + from, base + to;
    assert a == (a / 0x1_0000_0000) * 0x1_0000_0000 + a % 0x1_0000_0000;
    assert b == (b / 0x1_0000_0000) * 0x1_0000_0000 + b % 0x1_0000_0000;
    assert b - a == (b / 0x1_0000_0000 - a / 0x1_0000_0000) * 0x1_0000_0000;
  }

  /**
    * Whatever the readers and writers did: a read section that ReadSeqRetry lets pass, during which fewer than 2^31
    * write sections completed, read one state of the data, the one after `from / 2` write sections, and that state
    * was there from the beginning to the end of the section.
    */
  lemma NoTornReads(s0: State, acts: seq<Action>, s: State, t: nat)
    requires Initial(s0) && s0.base % 2 == 0 && Follows(s0, acts, s)
    requires t < |s.pcs| && s.pcs[t].Checked? && !s.pcs[t].retry
    requires Sections(s.pcs[t].from, s.pcs[t].to) < 0x8000_0000
    ensures s.pcs[t].from == s.pcs[t].to && s.pcs[t].from / 2 < |s.committed|
    ensures Agrees(s.pcs[t].got, s.committed[s.pcs[t].from / 2])
  {
    assert Inv(s0);
    RunInv(s0, acts, s);
    assert ThreadOk(s, t);
    EqualIn32Bits(s.base, s.pcs[t].from, s.pcs[t].to);
  }

  /** A read section is told to retry if and only if a write section began or completed meanwhile, fewer than 2^31
      having completed. */
  lemma RetryIff(s0: State, acts: seq<Action>, s: State, t: nat)
    requires Initial(s0) && s0.base % 2 == 0 && Follows(s0, acts, s) && t < |s.pcs| && s.pcs[t].Checked?
    requires Sections(s.pcs[t].from, s.pcs[t].to) < 0x8000_0000
    ensures s.pcs[t].retry <==> s.pcs[t].from != s.pcs[t].to
  {
    assert Inv(s0);
    RunInv(s0, acts, s);
    assert ThreadOk(s, t);
    if !s.pcs[t].retry { EqualIn32Bits(s.base, s.pcs[t].from, s.pcs[t].to); }
  }

  /** A reader gets in exactly while nobody writes. */
  lemma ReadBeginIff(s0: State, acts: seq<Action>, s: State, t: nat)
    requires Initial(s0) && s0.base % 2 == 0 && Follows(s0, acts, s) && Enabled(s, Action(t, ReadBegin))
    ensures Step(s, Action(t, ReadBegin)).pcs[t].Reading? <==> forall w :: 0 <= w < |s.pcs| ==> !s.pcs[w].Writing?
  {
    assert Inv(s0);
    RunInv(s0, acts, s);
    ParityIsCount(s);
    forall w | 0 <= w < |s.pcs| && s.pcs[w].Writing? ensures s.count % 2 == 1 { assert ThreadOk(s, w); }
  }

  // ---------------------------------------------------------------------------------------------
  // Both conditions are needed

  /** A read section that passed its check although no state of the data ever held all the words it read. */
  predicate Torn(s: State, t: nat) {
    && t < |s.pcs| && s.pcs[t].Checked? && !s.pcs[t].retry
    && forall j :: 0 <= j < |s.committed| ==> !Agrees(s.pcs[t].got, s.committed[j])
  }

  lemma {:induction false} FollowsConcat(s: State, a: seq<Action>, m: State, b: seq<Action>, s': State)
    requires Follows(s, a, m) && Follows(m, b, s')
    ensures Follows(s, a + b, s')
    decreases |a|
  {
    if a == [] {
      assert a + b == b;
    } else {
      assert (a + b)[0] == a[0] && (a + b)[1..] == a[1..] + b;
      FollowsConcat(Step(s, a[0]), a[1..], m, b, s');
    }
  }

  lemma FollowsNext(s: State, acts: seq<Action>, m: State, a: Action)
    requires Follows(s, acts, m) && Enabled(m, a)
    ensures Follows(s, acts + [a], Step(m, a))
  {
    assert Follows(Step(m, a), [a][1..], Step(m, a));
    FollowsConcat(s, acts, m, [a], Step(m, a));
  }

  /** k write sections of thread w that write nothing. */
  function After(s: State, k: nat): State {
    s.(count := s.count + 2 * k, committed := s.committed + seq(k, _ => s.data))
  }

  lemma {:induction false} EmptySections(s: State, w: nat, k: nat) returns (acts: seq<Action>)
    requires w < |s.pcs| && s.pcs[w].Idle? && s.holder.None?
    ensures Follows(s, acts, After(s, k))
  {
    if k == 0 {
      acts := [];
      assert After(s, 0) == s by { assert s.committed + seq(0, _ => s.data) == s.committed; }
    } else {
      acts := EmptySections(s, w, k - 1);
      var m := After(s, k - 1);
      var s1 := Step(m, Action(w, Lock));
      FollowsNext(s, acts, m, Action(w, Lock));
      var s2 := Step(s1, Action(w, Begin));
      FollowsNext(s, acts + [Action(w, Lock)], s1, Action(w, Begin));
      acts := acts + [Action(w, Lock)] + [Action(w, Begin)];
      var s3 := Step(s2, Action(w, End));
      FollowsNext(s, acts, s2, Action(w, End));
      acts := acts + [Action(w, End)];
      var s4 := Step(s3, Action(w, Unlock));
      FollowsNext(s, acts, s3, Action(w, Unlock));
      acts := acts + [Action(w, Unlock)];
      assert s4.pcs == s.pcs;
      assert seq(k, _ => s.data) == seq(k - 1, _ => s.data) + [s.data];
      assert s4.committed == s.committed + seq(k, _ => s.data);
      assert s4 == After(s, k);
    }
  }

  function Start(base: nat): State {
    State(base, 0, [0, 0], [[0, 0]], None, [Idle, Idle])
  }

  /** Thread 1 sets word 0 to 1 and is in the middle of its write section. */
  lemma WriteFirst(s: State) returns (acts: seq<Action>, s': State)
    requires |s.pcs| == 2 && s.pcs[1].Idle? && s.holder.None? && s.data == [0, 0]
    ensures Follows(s, acts, s')
    ensures s' == s.(count := s.count + 1, data := [1, 0], holder := Some(1), pcs := s.pcs[1 := Writing])
  {
    var s1 := Step(s, Action(1, Lock));
    FollowsNext(s, [], s, Action(1, Lock));
    acts := [] + [Action(1, Lock)];
    var s2 := Step(s1, Action(1, Begin));
    FollowsNext(s, acts, s1, Action(1, Begin));
    acts := acts + [Action(1, Begin)];
    FollowsNext(s, acts, s2, Action(1, Write(0, 1)));
    acts, s' := acts + [Action(1, Write(0, 1))], Step(s2, Action(1, Write(0, 1)));
    assert s'.data == [1, 0] && s'.pcs == s.pcs[1 := Writing];
  }

  /** And then word 1, and leaves. */
  lemma WriteSecond(s: State) returns (acts: seq<Action>, s': State)
    requires |s.pcs| == 2 && s.pcs[1].Writing? && s.data == [1, 0]
    ensures Follows(s, acts, s')
    ensures s' == s.(count := s.count + 1, data := [1, 1], committed := s.committed + [[1, 1]], holder := None,
                     pcs := s.pcs[1 := Idle])
  {
    var s1 := Step(s, Action(1, Write(1, 1)));
    FollowsNext(s, [], s, Action(1, Write(1, 1)));
    acts := [] + [Action(1, Write(1, 1))];
    var s2 := Step(s1, Action(1, End));
    FollowsNext(s, acts, s1, Action(1, End));
    acts := acts + [Action(1, End)];
    FollowsNext(s, acts, s2, Action(1, Unlock));
    acts, s' := acts + [Action(1, Unlock)], Step(s2, Action(1, Unlock));
    assert s1.data == [1, 1] && s'.pcs == s.pcs[1 := Idle];
  }

  /** Thread 0 begins a read section and reads word 0. */
  lemma ReadFirst(s: State) returns (acts: seq<Action>, s': State)
    requires |s.pcs| == 2 && s.pcs[0].Idle? && Sequence(s) % 2 == 0 && |s.data| == 2
    ensures Follows(s, acts, s') && s' == At(s, 0, Pc.Reading(s.count, Sequence(s), [Word(0, s.data[0])]))
  {
    var s1 := Step(s, Action(0, ReadBegin));
    FollowsNext(s, [], s, Action(0, ReadBegin));
    acts := [] + [Action(0, ReadBegin)];
    FollowsNext(s, acts, s1, Action(0, Read(0)));
    acts, s' := acts + [Action(0, Read(0))], Step(s1, Action(0, Read(0)));
    assert s'.pcs[0].got == [Word(0, s.data[0])];
    assert s'.pcs == s.pcs[0 := Pc.Reading(s.count, Sequence(s), [Word(0, s.data[0])])];
  }

  /** And then word 1, and checks the counter. */
  lemma ReadSecond(s: State) returns (acts: seq<Action>, s': State)
    requires |s.pcs| == 2 && s.pcs[0].Reading? && |s.data| == 2
    ensures Follows(s, acts, s')
    ensures var pc := s.pcs[0];
            s' == At(s, 0, Checked(pc.from, s.count, Sequence(s) != pc.retryNum, pc.got + [Word(1, s.data[1])]))
  {
    var s1 := Step(s, Action(0, Read(1)));
    FollowsNext(s, [], s, Action(0, Read(1)));
    acts := [] + [Action(0, Read(1))];
    FollowsNext(s, acts, s1, Action(0, Retry));
    acts, s' := acts + [Action(0, Retry)], Step(s1, Action(0, Retry));
    var pc := s.pcs[0];
    assert s'.pcs == s.pcs[0 := Checked(pc.from, s.count, Sequence(s) != pc.retryNum, pc.got + [Word(1, s.data[1])])];
  }

  lemma MixedIsTorn(s: State, x: int, y: int)
    requires |s.pcs| == 2 && s.pcs[0].Checked? && !s.pcs[0].retry && s.pcs[0].got == [Word(0, x)] + [Word(1, y)]
    requires forall j :: 0 <= j < |s.committed| ==> s.committed[j] == [0, 0] || s.committed[j] == [1, 1]
    requires x != y
    ensures Torn(s, 0)
  {
    assert s.pcs[0].got[0] == Word(0, x) && s.pcs[0].got[1] == Word(1, y);
    forall j | 0 <= j < |s.committed| ensures !Agrees(s.pcs[0].got, s.committed[j]) {
      assert s.committed[j][0] == s.committed[j][1];
    }
  }

  /** A write section of both words between the two reads of a read section. */
  lemma WriteInBetween(base: nat) returns (acts: seq<Action>, s: State)
    requires base < 0x1_0000_0000 && base % 2 == 0
    ensures Initial(Start(base)) && Follows(Start(base), acts, s)
    ensures s == State(base, 2, [1, 1], [[0, 0], [1, 1]], None, [Pc.Reading(0, base, [Word(0, 0)]), Idle])
  {
    var s0 := Start(base);
    var a1, s1 := ReadFirst(s0);
    var a2, s2 := WriteFirst(s1);
    FollowsConcat(s0, a1, s1, a2, s2);
    var a3;
    a3, s := WriteSecond(s2);
    FollowsConcat(s0, a1 + a2, s2, a3, s);
    acts := a1 + a2 + a3;
    assert s.committed == [[0, 0], [1, 1]] && s.pcs == [Pc.Reading(0, base, [Word(0, 0)]), Idle];
  }

  /** With exactly 2^31 write sections the counter is back where it was, and ReadSeqRetry lets a torn read pass. */
  lemma WrapAroundTears(base: nat) returns (acts: seq<Action>, s: State)
    requires base < 0x1_0000_0000 && base % 2 == 0
    ensures Initial(Start(base)) && Follows(Start(base), acts, s) && Torn(s, 0)
    ensures Sections(s.pcs[0].from, s.pcs[0].to) == 0x8000_0000
  {
    var a1, s1 := WriteInBetween(base);
    var a2 := EmptySections(s1, 1, 0x7fff_ffff);
    var s2 := After(s1, 0x7fff_ffff);
    FollowsConcat(Start(base), a1, s1, a2, s2);
    var a3;
    a3, s := ReadSecond(s2);
    FollowsConcat(Start(base), a1 + a2, s2, a3, s);
    acts := a1 + a2 + a3;
    MixedIsTorn(s, 0, 1);
  }

  /** Thread 0 reads both words with nobody moving in between. */
  lemma ReadBoth(s: State) returns (acts: seq<Action>, s': State)
    requires |s.pcs| == 2 && s.pcs[0].Idle? && Sequence(s) % 2 == 0 && |s.data| == 2
    ensures Follows(s, acts, s')
    ensures s' == At(s, 0, Checked(s.count, s.count, false, [Word(0, s.data[0])] + [Word(1, s.data[1])]))
  {
    var a1, s1 := ReadFirst(s);
    var a2;
    a2, s' := ReadSecond(s1);
    FollowsConcat(s, a1, s1, a2, s');
    acts := a1 + a2;
    assert s'.pcs == s.pcs[0 := s'.pcs[0]];
  }

  /** From an odd counter, which nothing in the code rules out, readers get in while a writer writes: one section
      tears. */
  lemma OddStartTears(base: nat) returns (acts: seq<Action>, s: State)
    requires base < 0x1_0000_0000 && base % 2 == 1
    ensures Initial(Start(base)) && Follows(Start(base), acts, s) && Torn(s, 0)
    ensures Sections(s.pcs[0].from, s.pcs[0].to) == 0
  {
    var a1, s1 := WriteFirst(Start(base));
    var a2;
    a2, s := ReadBoth(s1);
    FollowsConcat(Start(base), a1, s1, a2, s);
    acts := a1 + a2;
    MixedIsTorn(s, 1, 0);
  }

  /** In every run from a counter that starts at `base`, a read section that passes is untorn if no more than
      `limit` write sections completed meanwhile. */
  ghost predicate NeverTorn(base: nat, limit: nat) {
    forall s0, acts, s, t: nat :: Initial(s0) && s0.base == base && Follows(s0, acts, s) && Torn(s, t) ==>
      limit < Sections(s.pcs[t].from, s.pcs[t].to)
  }

  /** Reads are never torn if and only if the counter starts even and fewer than 2^31 write sections complete
      meanwhile. */
  lemma NoTornIff(base: nat, limit: nat)
    requires base < 0x1_0000_0000
    ensures NeverTorn(base, limit) <==> base % 2 == 0 && limit < 0x8000_0000
  {
    if base % 2 == 0 && limit < 0x8000_0000 {
      forall s0, acts, s, t: nat | Initial(s0) && s0.base == base && Follows(s0, acts, s) && Torn(s, t)
        ensures limit < Sections(s.pcs[t].from, s.pcs[t].to)
      {
        if Sections(s.pcs[t].from, s.pcs[t].to) <= limit { NoTornReads(s0, acts, s, t); }
      }
    } else if base % 2 == 0 {
      var acts, s := WrapAroundTears(base);
    } else {
      var acts, s := OddStartTears(base);
    }
  }
}
