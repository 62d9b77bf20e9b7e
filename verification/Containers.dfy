/** Arithmetic of sizes in 64 bits. */
module Sizes {
  type Size = x: int | 0 <= x < 0x1_0000_0000_0000_0000

  function Plus(a: Size, b: Size): Size {
    if a + b < 0x1_0000_0000_0000_0000 then a + b else a + b - 0x1_0000_0000_0000_0000
  }

  function Minus(a: Size, b: Size): Size {
    if b <= a then a - b else a - b + 0x1_0000_0000_0000_0000
  }

  /** A number as 64 bits show it. */
  function Wrapped(n: nat): Size {
    if n < 0x1_0000_0000_0000_0000 then n else Wrapped(n - 0x1_0000_0000_0000_0000)
  }

  /** Wrapping around as one goes or at the end is the same. */
  lemma {:induction false} WrappedPlus(n: nat, a: Size)
    ensures Plus(Wrapped(n), a) == Wrapped(n + a)
  {
    if n >= 0x1_0000_0000_0000_0000 { WrappedPlus(n - 0x1_0000_0000_0000_0000, a); }
  }

  lemma {:induction false} WrappedIsModulo(n: nat)
    ensures Wrapped(n) == n % 0x1_0000_0000_0000_0000
  {
    if n >= 0x1_0000_0000_0000_0000 { WrappedIsModulo(n - 0x1_0000_0000_0000_0000); }
  }

  lemma WrappedMinus(n: nat, a: Size)
    ensures Minus(Wrapped(n + a), a) == Wrapped(n)
  {
    WrappedPlus(n, a);
  }
}

/** A blocking queue bounded by the sum of its items' sizes. Each method is what one caller does while it holds the
    mutex. */
module BoundedQueue {
  import opened Common
  import opened Sizes

  class FiberBlockingBoundedQueue<T> {
    var content: seq<T>
    var size: Size
    var capacity: Size
    const sizeOf: T -> Size
    var stopped: bool
    ghost var accepted: seq<T>
    ghost var popped: seq<T>

    /** The sum of the sizes of `items`, without bound. */
    ghost function Total(items: seq<T>): nat {
      if items == [] then 0 else Total(items[..|items| - 1]) + sizeOf(items[|items| - 1])
    }

    /** Nothing is lost, made up or reordered, and the size is that of the content. */
    ghost predicate Valid()
      reads this
    {
      accepted == popped + content && size == Wrapped(Total(content))
    }

    /** The content is within the capacity. */
    ghost predicate Bounded()
      reads this
    {
      Total(content) <= capacity
    }

    lemma {:induction false} TotalFirst(items: seq<T>)
      requires items != []
      ensures Total(items) == sizeOf(items[0]) + Total(items[1..])
    {
      if |items| == 1 {
        assert Total(items[..0]) == 0 && Total(items[1..]) == 0;
      } else {
        TotalFirst(items[..|items| - 1]);
        assert items[1..][..|items| - 2] == items[..|items| - 1][1..];
      }
    }

    constructor (capacity: Size, sizeOf: T -> Size)
      ensures Valid() && content == [] && !stopped && this.capacity == capacity && this.sizeOf == sizeOf
      ensures accepted == [] && popped == []
    {
      content, size, stopped, this.capacity, this.sizeOf := [], 0, false, capacity, sizeOf;
      accepted, popped := [], [];
    }

    /** The sum of all sizes, in 64 bits, is within the capacity, or the queue is stopped. */
    ghost predicate HasRoomFor(itemSize: Size)
      reads this
    {
      (Total(content) + itemSize) % 0x1_0000_0000_0000_0000 <= capacity || stopped
    }

    lemma CanPushIff(itemSize: Size)
      requires Valid()
      ensures CanPush(itemSize) <==> HasRoomFor(itemSize)
    {
      WrappedPlus(Total(content), itemSize);
      WrappedIsModulo(Total(content) + itemSize);
    }

    predicate CanPush(itemSize: Size)
      reads this`size, this`capacity, this`stopped
    {
      Plus(itemSize, size) <= capacity || stopped
    }

    predicate CanPop()
      reads this`content, this`stopped
    {
      content != [] || stopped
    }

    /**
      * Push once the wait is over. `stopNow` says that Stop, which does not take the mutex, ran in between. A stopped
      * queue drops the item.
      */
    method Push(item: T, stopNow: bool)
      requires Valid() && HasRoomFor(sizeOf(item))
      modifies this
      ensures Valid() && capacity == old(capacity) && popped == old(popped) && stopped == (old(stopped) || stopNow)
      ensures content == if stopped then old(content) else old(content) + [item]
      ensures accepted == if stopped then old(accepted) else old(accepted) + [item]
      ensures old(Bounded()) && !stopped ==> (Bounded() <==> sizeOf(item) + old(size) < 0x1_0000_0000_0000_0000)
    {
      if stopNow {
        stopped := true;
      }
      if !stopped {
        WrappedPlus(Total(content), sizeOf(item));
        assert (content + [item])[..|content|] == content;
        content := content + [item];
        size := Plus(size, sizeOf(item));
        accepted := accepted + [item];
      }
    }

    /** TryPush; a Push with a deadline does the same, at the moment its wait ends. */
    method TryPush(item: T, stopNow: bool) returns (ok: bool)
      requires Valid()
      modifies this
      ensures Valid() && capacity == old(capacity) && popped == old(popped)
      ensures ok <==> old(stopped) || (old(Total(content)) + sizeOf(item)) % 0x1_0000_0000_0000_0000 <= old(capacity)
      ensures stopped == (old(stopped) || (ok && stopNow))
      ensures content == if ok && !stopped then old(content) + [item] else old(content)
      ensures accepted == if ok && !stopped then old(accepted) + [item] else old(accepted)
      ensures old(Bounded()) && !stopped ==>
                (Bounded() <==> (ok ==> sizeOf(item) + old(size) < 0x1_0000_0000_0000_0000))
    {
      CanPushIff(sizeOf(item));
      if !CanPush(sizeOf(item)) {
        return false;
      }
      Push(item, stopNow);
      return true;
    }

    /** Pop once the wait is over; a stopped queue gives nothing. */
    method Pop(stopNow: bool) returns (item: Option<T>)
      requires Valid() && (content != [] || stopped)
      modifies this
      ensures Valid() && capacity == old(capacity) && accepted == old(accepted) && stopped == (old(stopped) || stopNow)
      ensures if stopped then item == None && content == old(content) && popped == old(popped)
              else item.Some? && old(content) == [item.value] + content && popped == old(popped) + [item.value]
      ensures old(Bounded()) ==> Bounded()
    {
      if stopNow {
        stopped := true;
      }
      item := None;
      if !stopped {
        TotalFirst(content);
        WrappedMinus(Total(content[1..]), sizeOf(content[0]));
        item := Some(content[0]);
        content := content[1..];
        size := Minus(size, sizeOf(item.value));
        popped := popped + [item.value];
      }
    }

    method TryPop(stopNow: bool) returns (ok: bool, item: Option<T>)
      requires Valid()
      modifies this
      ensures Valid() && capacity == old(capacity) && accepted == old(accepted)
      ensures ok <==> old(content) != [] || old(stopped)
      ensures stopped == (old(stopped) || (ok && stopNow))
      ensures if !ok || stopped then item == None && content == old(content) && popped == old(popped)
              else item.Some? && old(content) == [item.value] + content && popped == old(popped) + [item.value]
      ensures old(Bounded()) ==> Bounded()
    {
      if !CanPop() {
        return false, None;
      }
      item := Pop(stopNow);
      return true, item;
    }

    method SetCapacity(capacity: Size)
      requires Valid()
      modifies this`capacity
      ensures Valid() && this.capacity == capacity
      ensures old(Bounded()) && old(this.capacity) <= capacity ==> Bounded()
    {
      this.capacity := capacity;
    }

    method Stop()
      requires Valid()
      modifies this`stopped
      ensures Valid() && stopped
    {
      stopped := true;
    }
  }
}

/** A blocking buffer of bytes, bounded by their number. Each method is what one caller does while it holds the
    mutex. */
module ByteBuffer {
  import opened Common
  import opened Sizes

  type Byte = x: int | 0 <= x < 256

  /** A piece that one caller appended. */
  datatype Chunk = Chunk(owner: nat, bytes: seq<Byte>)

  /** All bytes of a log of chunks; those of one owner. */
  function Bytes(log: seq<Chunk>): seq<Byte> {
    if log == [] then [] else Bytes(log[..|log| - 1]) + log[|log| - 1].bytes
  }

  function Of(log: seq<Chunk>, owner: nat): seq<Byte> {
    if log == [] then []
    else Of(log[..|log| - 1], owner) + (if log[|log| - 1].owner == owner then log[|log| - 1].bytes else [])
  }

  lemma LogNext(log: seq<Chunk>, chunk: Chunk, owner: nat)
    ensures Bytes(log + [chunk]) == Bytes(log) + chunk.bytes
    ensures Of(log + [chunk], owner) == Of(log, owner) + (if chunk.owner == owner then chunk.bytes else [])
  {
    assert (log + [chunk])[..|log|] == log;
  }

  /** A buffer as a value, with what was appended to it and what was cut from it. */
  datatype State = State(content: seq<Byte>, capacity: Size, stopped: bool, log: seq<Chunk>, out: seq<Byte>)

  /** The bytes cut, followed by the content, are the bytes appended. */
  predicate Conserved(s: State) {
    Bytes(s.log) == s.out + s.content
  }

  /** What another caller does while one waits for room. */
  datatype Other = TryAppend(owner: nat, bytes: seq<Byte>) | TryCut(size: Size) | SetCapacity(capacity: Size) | Stop

  function Appended(s: State, owner: nat, bytes: seq<Byte>): State {
    s.(content := s.content + bytes, log := s.log + [Chunk(owner, bytes)])
  }

  function DoOther(s: State, other: Other): State {
    match other
    case TryAppend(owner, bytes) =>
      if Wrapped(|bytes| + |s.content|) <= s.capacity || s.stopped then Appended(s, owner, bytes) else s
    case TryCut(n) =>
      if n <= |s.content| then s.(content := s.content[n..], out := s.out + s.content[..n])
      else if s.stopped then s.(content := [], out := s.out + s.content)
      else s
    case SetCapacity(capacity) => s.(capacity := capacity)
    case Stop => s.(stopped := true)
  }

  function DoOthers(s: State, others: seq<Other>): State {
    if others == [] then s else DoOther(DoOthers(s, others[..|others| - 1]), others[|others| - 1])
  }

  predicate HasRoom(s: State) {
    |s.content| < s.capacity
  }

  /** One turn of the others: what they do before the test for room, and a SetCapacity, which takes no mutex, right
      after it. */
  datatype Others = Others(before: seq<Other>, late: Option<Size>)

  function AtTest(s: State, others: Others): State {
    DoOthers(s, others.before)
  }

  function AfterTest(s: State, others: Others): State {
    if others.late.Some? then s.(capacity := others.late.value) else s
  }

  /** How much of `item` goes in: what the room, capacity less content in 64 bits, allows. */
  function Fitting(s: State, item: seq<Byte>): nat
    requires |s.content| < 0x1_0000_0000_0000_0000
  {
    var room := Minus(s.capacity, |s.content|);
    if |item| <= room then |item| else room
  }

  /** One turn of AppendAlways: the others act, and if there is room then as much of the item goes in as it allows. */
  function Turn(s: State, owner: nat, item: seq<Byte>, others: Others): (State, seq<Byte>) {
    var s' := AtTest(s, others);
    if HasRoom(s') then
      var s'' := AfterTest(s', others);
      (Appended(s'', owner, item[..Fitting(s'', item)]), item[Fitting(s'', item)..])
    else (s', item)
  }

  /** There was room, and the capacity did not shrink to exactly the content right after the test. */
  predicate TakesIn(s: State, others: Others) {
    var s' := AtTest(s, others);
    HasRoom(s') && (others.late.Some? ==> others.late.value != |s'.content|)
  }

  /** AppendAlways against a schedule of the others. */
  function Always(s: State, owner: nat, item: seq<Byte>, turns: seq<Others>): (State, seq<Byte>)
    decreases |turns|
  {
    if turns == [] || item == [] then (s, item)
    else var (s', rest) := Turn(s, owner, item, turns[0]); Always(s', owner, rest, turns[1..])
  }

  /** In how many turns something went in. */
  function Rooms(s: State, owner: nat, item: seq<Byte>, turns: seq<Others>): nat
    decreases |turns|
  {
    if turns == [] || item == [] then 0
    else
      var (s', rest) := Turn(s, owner, item, turns[0]);
      (if TakesIn(s, turns[0]) then 1 else 0) + Rooms(s', owner, rest, turns[1..])
  }

  predicate NotMine(others: seq<Other>, owner: nat) {
    forall i :: 0 <= i < |others| ==> others[i].TryAppend? ==> others[i].owner != owner
  }

  lemma AppendedKeeps(s: State, owner: nat, bytes: seq<Byte>, me: nat)
    requires Conserved(s)
    ensures Conserved(Appended(s, owner, bytes))
    ensures Of(Appended(s, owner, bytes).log, me) == Of(s.log, me) + (if owner == me then bytes else [])
  {
    LogNext(s.log, Chunk(owner, bytes), me);
    assert s.out + s.content + bytes == s.out + (s.content + bytes);
  }

  /** Every operation of anyone keeps all bytes, in order. */
  lemma OtherKeeps(s: State, other: Other, me: nat)
    requires Conserved(s) && (other.TryAppend? ==> other.owner != me)
    ensures Conserved(DoOther(s, other)) && Of(DoOther(s, other).log, me) == Of(s.log, me)
  {
    match other
    case TryAppend(owner, bytes) => AppendedKeeps(s, owner, bytes, me);
    case TryCut(n) =>
      if n <= |s.content| {
        assert s.out + s.content == (s.out + s.content[..n]) + s.content[n..];
      }
    case _ =>
  }

  lemma {:induction false} OthersKeep(s: State, others: seq<Other>, me: nat)
    requires Conserved(s) && NotMine(others, me)
    ensures Conserved(DoOthers(s, others)) && Of(DoOthers(s, others).log, me) == Of(s.log, me)
  {
    if others != [] {
      OthersKeep(s, others[..|others| - 1], me);
      OtherKeeps(DoOthers(s, others[..|others| - 1]), others[|others| - 1], me);
    }
  }

  /** No Stop, no smaller capacity, and no size that overflows 64 bits. */
  predicate Calm(s: State, other: Other) {
    match other
    case TryAppend(_, bytes) => |bytes| + |s.content| < 0x1_0000_0000_0000_0000
    case TryCut(_) => true
    case SetCapacity(capacity) => s.capacity <= capacity
    case Stop => false
  }

  predicate AllCalm(s: State, others: seq<Other>) {
    others == [] ||
    (AllCalm(s, others[..|others| - 1]) && Calm(DoOthers(s, others[..|others| - 1]), others[|others| - 1]))
  }

  /** In every run until Stop or a smaller capacity the content stays within the capacity. */
  lemma {:induction false} StaysWithinCapacity(s: State, others: seq<Other>)
    requires !s.stopped && |s.content| <= s.capacity && AllCalm(s, others)
    ensures !DoOthers(s, others).stopped && |DoOthers(s, others).content| <= DoOthers(s, others).capacity
  {
    if others != [] {
      StaysWithinCapacity(s, others[..|others| - 1]);
    }
  }

  lemma SplitItem(before: seq<Byte>, item: seq<Byte>, n: nat)
    requires n <= |item|
    ensures before + item[..n] + item[n..] == before + item
  {
  }

  lemma TurnDelivers(s: State, owner: nat, item: seq<Byte>, others: Others)
    requires Conserved(s) && NotMine(others.before, owner)
    ensures var (s', rest) := Turn(s, owner, item, others);
            Conserved(s') && Of(s'.log, owner) + rest == Of(s.log, owner) + item
  {
    var s' := AtTest(s, others);
    OthersKeep(s, others.before, owner);
    if HasRoom(s') {
      var s'' := AfterTest(s', others);
      var n := Fitting(s'', item);
      AppendedKeeps(s'', owner, item[..n], owner);
      SplitItem(Of(s'.log, owner), item, n);
    }
  }

  /** AppendAlways delivers the item, or a prefix of it so far, unchanged and in order, whatever the others do in
      between. */
  lemma {:induction false} AlwaysDelivers(s: State, owner: nat, item: seq<Byte>, turns: seq<Others>)
    requires Conserved(s) && forall i :: 0 <= i < |turns| ==> NotMine(turns[i].before, owner)
    ensures var (s', rest) := Always(s, owner, item, turns);
            Conserved(s') && Of(s'.log, owner) + rest == Of(s.log, owner) + item
    decreases |turns|
  {
    if turns != [] && item != [] {
      TurnDelivers(s, owner, item, turns[0]);
      var (s', rest) := Turn(s, owner, item, turns[0]);
      AlwaysDelivers(s', owner, rest, turns[1..]);
    }
  }

  /** Something goes in exactly in the turns that TakesIn says. */
  lemma TurnTakesIn(s: State, owner: nat, item: seq<Byte>, others: Others)
    requires item != []
    ensures |Turn(s, owner, item, others).1| < |item| <==> TakesIn(s, others)
    ensures |Turn(s, owner, item, others).1| <= |item|
  {
  }

  /** With something going in as often as the item has bytes, all of it is delivered. */
  lemma {:induction false} AlwaysEnds(s: State, owner: nat, item: seq<Byte>, turns: seq<Others>)
    ensures Rooms(s, owner, item, turns) + |Always(s, owner, item, turns).1| <= |item|
    ensures Rooms(s, owner, item, turns) == |item| ==> Always(s, owner, item, turns).1 == []
    decreases |turns|
  {
    if turns != [] && item != [] {
      TurnTakesIn(s, owner, item, turns[0]);
      var (s', rest) := Turn(s, owner, item, turns[0]);
      AlwaysEnds(s', owner, rest, turns[1..]);
    }
  }

  /** Before the test for room there is no Stop, no smaller capacity and no size that overflows. */
  predicate CalmBefore(s: State, others: Others) {
    AllCalm(s, others.before)
  }

  /** A SetCapacity right after the test for room does not go below the content. */
  predicate LateFits(s: State, others: Others) {
    var s' := AtTest(s, others);
    HasRoom(s') && others.late.Some? ==> |s'.content| <= others.late.value
  }

  /** The room, a difference in 64 bits, is capacity less content. */
  predicate RoomIsRight(s: State, others: Others) {
    var s', s'' := AtTest(s, others), AfterTest(AtTest(s, others), others);
    HasRoom(s') ==> Minus(s''.capacity, |s'.content|) == s''.capacity - |s'.content|
  }

  lemma TurnRoomIff(s: State, others: Others)
    ensures RoomIsRight(s, others) <==> LateFits(s, others)
  {
  }

  /** In one turn of calm others the content stays within the capacity exactly if LateFits. */
  lemma TurnFitsIff(s: State, owner: nat, item: seq<Byte>, others: Others)
    requires item != [] && !s.stopped && |s.content| <= s.capacity && CalmBefore(s, others)
    ensures var s' := Turn(s, owner, item, others).0;
            !s'.stopped && (|s'.content| <= s'.capacity <==> LateFits(s, others))
  {
    StaysWithinCapacity(s, others.before);
  }

  /** `good` holds of every turn of the loop, up to the end of the item or of the schedule, and the state it meets. */
  predicate EveryTurn(s: State, owner: nat, item: seq<Byte>, turns: seq<Others>, good: (State, Others) -> bool)
    decreases |turns|
  {
    turns == [] || item == [] ||
    (&& good(s, turns[0])
     && var (s', rest) := Turn(s, owner, item, turns[0]); EveryTurn(s', owner, rest, turns[1..], good))
  }

  /** Before and after every turn of the loop the content is within the capacity. */
  predicate WithinThroughout(s: State, owner: nat, item: seq<Byte>, turns: seq<Others>)
    decreases |turns|
  {
    |s.content| <= s.capacity &&
    (turns == [] || item == [] ||
     var (s', rest) := Turn(s, owner, item, turns[0]); WithinThroughout(s', owner, rest, turns[1..]))
  }

  lemma {:induction false} WithinAtTheEnd(s: State, owner: nat, item: seq<Byte>, turns: seq<Others>)
    requires WithinThroughout(s, owner, item, turns)
    ensures |Always(s, owner, item, turns).0.content| <= Always(s, owner, item, turns).0.capacity
    decreases |turns|
  {
    if turns != [] && item != [] {
      var (s', rest) := Turn(s, owner, item, turns[0]);
      WithinAtTheEnd(s', owner, rest, turns[1..]);
    }
  }

  /** In every run of AppendAlways, whatever the others do, the room never underflows if and only if no SetCapacity
      right after a test for room goes below the content. */
  lemma {:induction false} RoomRightIff(s: State, owner: nat, item: seq<Byte>, turns: seq<Others>)
    ensures EveryTurn(s, owner, item, turns, RoomIsRight) <==> EveryTurn(s, owner, item, turns, LateFits)
    decreases |turns|
  {
    if turns != [] && item != [] {
      TurnRoomIff(s, turns[0]);
      var (s', rest) := Turn(s, owner, item, turns[0]);
      RoomRightIff(s', owner, rest, turns[1..]);
    }
  }

  /** While the others neither stop the buffer nor shrink it before a test for room, the content is also within the
      capacity throughout under exactly that condition. */
  lemma {:induction false} AlwaysFitsIff(s: State, owner: nat, item: seq<Byte>, turns: seq<Others>)
    requires !s.stopped && |s.content| <= s.capacity && EveryTurn(s, owner, item, turns, CalmBefore)
    ensures WithinThroughout(s, owner, item, turns) <==> EveryTurn(s, owner, item, turns, LateFits)
    decreases |turns|
  {
    if turns != [] && item != [] {
      TurnFitsIff(s, owner, item, turns[0]);
      var (s', rest) := Turn(s, owner, item, turns[0]);
      if LateFits(s, turns[0]) { AlwaysFitsIff(s', owner, rest, turns[1..]); }
    }
  }

  class FiberBlockingNoncontiguousBuffer {
    var content: seq<Byte>
    var capacity: Size
    var stopped: bool
    ghost var log: seq<Chunk>
    ghost var out: seq<Byte>

    ghost function Value(): State
      reads this
    {
      State(content, capacity, stopped, log, out)
    }

    ghost predicate Valid()
      reads this
    {
      Conserved(Value())
    }

    constructor (capacity: Size)
      ensures Valid() && content == [] && !stopped && this.capacity == capacity && log == [] && out == []
    {
      content, stopped, this.capacity, log, out := [], false, capacity, [], [];
    }

    predicate CanAppend(n: nat)
      reads this`content, this`capacity, this`stopped
    {
      Wrapped(n + |content|) <= capacity || stopped
    }

    predicate CanCut(n: nat)
      reads this`content, this`stopped
    {
      n <= |content| || stopped
    }

    /** Append once the wait is over. */
    method Append(owner: nat, item: seq<Byte>)
      requires Valid() && CanAppend(|item|)
      modifies this`content, this`log
      ensures Valid() && content == old(content) + item && log == old(log) + [Chunk(owner, item)]
      ensures !stopped ==> (|content| <= capacity <==> |item| + |old(content)| < 0x1_0000_0000_0000_0000)
    {
      AppendedKeeps(Value(), owner, item, owner);
      content := content + item;
      log := log + [Chunk(owner, item)];
    }

    /** TryAppend; an Append with a deadline does the same, at the moment its wait ends. */
    method TryAppend(owner: nat, item: seq<Byte>) returns (ok: bool)
      requires Valid()
      modifies this`content, this`log
      ensures Valid() && ok == old(CanAppend(|item|))
      ensures content == if ok then old(content) + item else old(content)
      ensures log == if ok then old(log) + [Chunk(owner, item)] else old(log)
      ensures ok && !stopped ==> (|content| <= capacity <==> |item| + |old(content)| < 0x1_0000_0000_0000_0000)
    {
      ok := CanAppend(|item|);
      if ok {
        Append(owner, item);
      }
    }

    /** Cut once the wait is over; a stopped buffer gives nothing. */
    method Cut(n: nat) returns (item: Option<seq<Byte>>)
      requires Valid() && CanCut(n)
      modifies this`content, this`out
      ensures Valid()
      ensures if stopped then item == None && content == old(content) && out == old(out)
              else
                && item.Some? && |item.value| == n
                && old(content) == item.value + content && out == old(out) + item.value
    {
      item := None;
      if !stopped {
        var bytes := Take(n);
        item := Some(bytes);
      }
    }

    /** TryCut, and a Cut with a deadline: after Stop they give what there is. */
    method TryCut(n: nat) returns (ok: bool, item: Option<seq<Byte>>)
      requires Valid()
      modifies this`content, this`out
      ensures Valid() && ok == old(CanCut(n)) && (ok <==> item.Some?)
      ensures if ok then
                && |item.value| == (if n <= |old(content)| then n else |old(content)|)
                && old(content) == item.value + content && out == old(out) + item.value
              else content == old(content) && out == old(out)
    {
      if !CanCut(n) {
        return false, None;
      }
      var bytes := Take(if n <= |content| then n else |content|);
      return true, Some(bytes);
    }

    method Take(n: nat) returns (bytes: seq<Byte>)
      requires Valid() && n <= |content|
      modifies this`content, this`out
      ensures Valid() && |bytes| == n && old(content) == bytes + content && out == old(out) + bytes
    {
      bytes := content[..n];
      assert out + content == (out + bytes) + content[n..];
      content := content[n..];
      out := out + bytes;
    }

    method SetCapacity(capacity: Size)
      requires Valid()
      modifies this`capacity
      ensures Valid() && this.capacity == capacity
    {
      this.capacity := capacity;
    }

    method Stop()
      requires Valid()
      modifies this`stopped
      ensures Valid() && stopped
    {
      stopped := true;
    }

    /** TryCut as a step of the others. */
    method RunTryCut(n: Size)
      requires Valid()
      modifies this
      ensures Valid() && Value() == DoOther(old(Value()), Other.TryCut(n))
    {
      ghost var before := content;
      var ok, item := TryCut(n);
      assert ok ==> item.value == before[..|item.value|] && content == before[|item.value|..];
    }

    method RunOther(other: Other)
      requires Valid()
      modifies this
      ensures Valid() && Value() == DoOther(old(Value()), other)
    {
      match other
      case TryAppend(owner, bytes) =>
        var ok := TryAppend(owner, bytes);
      case TryCut(n) => RunTryCut(n);
      case SetCapacity(c) => SetCapacity(c);
      case Stop => Stop();
    }

    method RunOthers(others: seq<Other>)
      requires Valid()
      modifies this
      ensures Valid() && Value() == DoOthers(old(Value()), others)
    {
      for i := 0 to |others|
        invariant Valid() && Value() == DoOthers(old(Value()), others[..i])
      {
        assert others[..i + 1][..i] == others[..i];
        RunOther(others[i]);
      }
      assert others[..|others|] == others;
    }

    /** Append as much of the item as the room allows. */
    method AppendSome(owner: nat, item: seq<Byte>) returns (rest: seq<Byte>)
      requires Valid() && |content| < 0x1_0000_0000_0000_0000
      modifies this`content, this`log
      ensures Valid() && rest == item[Fitting(old(Value()), item)..]
      ensures Value() == Appended(old(Value()), owner, item[..Fitting(old(Value()), item)])
    {
      var room := Minus(capacity, |content|);
      var n := if |item| <= room then |item| else room;
      AppendedKeeps(Value(), owner, item[..n], owner);
      content := content + item[..n];
      log := log + [Chunk(owner, item[..n])];
      rest := item[n..];
    }

    /** One turn of the loop of AppendAlways. */
    method RunTurn(owner: nat, item: seq<Byte>, others: Others) returns (rest: seq<Byte>)
      requires Valid()
      modifies this
      ensures Valid() && (Value(), rest) == Turn(old(Value()), owner, item, others)
    {
      rest := item;
      RunOthers(others.before);
      if |content| < capacity {
        if others.late.Some? {
          SetCapacity(others.late.value);
        }
        rest := AppendSome(owner, item);
      }
    }

    /** The loop of AppendAlways, with a turn of the others before each test for room; without room it goes on
        waiting. */
    method AppendAlways(owner: nat, item: seq<Byte>, turns: seq<Others>) returns (rest: seq<Byte>)
      requires Valid()
      modifies this
      ensures Valid() && (Value(), rest) == Always(old(Value()), owner, item, turns)
    {
      rest := item;
      var i := 0;
      while i < |turns| && rest != []
        invariant i <= |turns| && Valid()
        invariant Always(Value(), owner, rest, turns[i..]) == Always(old(Value()), owner, item, turns)
        decreases |turns| - i
      {
        assert turns[i..][0] == turns[i] && turns[i..][1..] == turns[i + 1..];
        rest := RunTurn(owner, rest, turns[i]);
        i := i + 1;
      }
    }
  }
}
