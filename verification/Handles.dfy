/**
 `Promise` and `Future` objects as handles on shared, reference-counted `FutureImpl`s.

 The class holds every handle of a program and every impl on the heap; its methods are the constructors,
 assignments and destructors of the two handle classes. A handle is named by a number.
  */
module Handles {
  import opened Common

  datatype Result = Ready | Failed(what: string)

  const BROKEN_PROMISE := Failed("Broken promise")

  /** `future_` is `None` in a handle that was moved from. */
  datatype Handle =
    | Promise(impl: Option<nat>, retrieved: bool)
    | Future(impl: Option<nat>)

  datatype Impl = Impl(refCount: int, result: Option<Result>)

  /** The handles that point to impl `i`. */
  function Owners(handles: map<nat, Handle>, i: nat): set<nat> {
    set h | h in handles && handles[h].impl == Some(i)
  }

  /** `ref_count` is the number of handles on an impl, and an impl with none is not on the heap. */
  ghost predicate Accounted(impls: map<nat, Impl>, handles: map<nat, Handle>) {
    && (forall h :: h in handles && handles[h].impl.Some? ==> handles[h].impl.value in impls)
    && (forall i :: i in impls ==> impls[i].refCount == |Owners(handles, i)| && impls[i].refCount > 0)
  }

  /** Every impl ever made is on the heap or was freed, once. */
  ghost predicate FreedOnce(impls: map<nat, Impl>, freed: seq<nat>, made: nat) {
    && (forall i, j :: 0 <= i < j < |freed| ==> freed[i] != freed[j])
    && (forall i: nat :: i < made <==> i in impls || i in freed)
    && (forall i :: i in freed ==> i !in impls)
  }

  /** The owners of `i` after handle `h` becomes `x`. */
  lemma OwnersSet(handles: map<nat, Handle>, h: nat, x: Handle, i: nat)
    ensures Owners(handles[h := x], i) ==
            if x.impl == Some(i) then Owners(handles, i) + {h} else Owners(handles, i) - {h}
  {
  }

  lemma OwnersCount(handles: map<nat, Handle>, h: nat, x: Handle, i: nat)
    ensures |Owners(handles[h := x], i)| ==
            |Owners(handles, i)| - (if h in Owners(handles, i) then 1 else 0) + (if x.impl == Some(i) then 1 else 0)
  {
    OwnersSet(handles, h, x, i);
    var s := Owners(handles, i);
    if x.impl == Some(i) {
      if h in s { assert s + {h} == s; }
    } else {
      if h !in s { assert s - {h} == s; }
    }
  }

  lemma AccountedNew(impls: map<nat, Impl>, handles: map<nat, Handle>, h: nat, x: Handle, i: nat,
                     result: Option<Result>)
    requires Accounted(impls, handles) && h !in handles && i !in impls && x.impl == Some(i)
    ensures Accounted(impls[i := Impl(1, result)], handles[h := x])
  {
    assert Owners(handles, i) == {};
    forall k { OwnersCount(handles, h, x, k); }
  }

  lemma AccountedAttach(impls: map<nat, Impl>, handles: map<nat, Handle>, h: nat, i: nat)
    requires Accounted(impls, handles) && h !in handles && i in impls
    ensures Accounted(impls[i := impls[i].(refCount := impls[i].refCount + 1)], handles[h := Future(Some(i))])
  {
    forall k { OwnersCount(handles, h, Future(Some(i)), k); }
  }

  /** A handle that changes, but not what it points to. */
  lemma AccountedSame(impls: map<nat, Impl>, handles: map<nat, Handle>, h: nat, x: Handle)
    requires Accounted(impls, handles) && (if h in handles then x.impl == handles[h].impl else x.impl.None?)
    ensures Accounted(impls, handles[h := x])
  {
    forall k { OwnersCount(handles, h, x, k); }
  }

  /** Handle `h`, which points nowhere or does not exist yet, takes over what `from` points to. */
  lemma AccountedTake(impls: map<nat, Impl>, handles: map<nat, Handle>, h: nat, from: nat)
    requires Accounted(impls, handles) && from in handles && (h in handles ==> handles[h].impl.None?)
    ensures Accounted(impls, handles[h := handles[from]][from := Emptied(handles[from])])
  {
    var taken := handles[h := handles[from]];
    forall k ensures |Owners(taken[from := Emptied(handles[from])], k)| == |Owners(handles, k)| {
      OwnersCount(handles, h, handles[from], k);
      OwnersCount(taken, from, Emptied(handles[from]), k);
    }
  }

  lemma AccountedDetach(impls: map<nat, Impl>, handles: map<nat, Handle>, h: nat)
    requires Accounted(impls, handles) && h in handles && handles[h].impl.Some?
    ensures var i := handles[h].impl.value;
            var handles' := handles[h := Emptied(handles[h])];
            && (impls[i].refCount == 1 <==> Owners(handles, i) == {h})
            && (impls[i].refCount == 1 ==> Accounted(impls - {i}, handles'))
            && (impls[i].refCount != 1 ==>
                Accounted(impls[i := impls[i].(refCount := impls[i].refCount - 1)], handles'))
  {
    var i, handles' := handles[h].impl.value, handles[h := Emptied(handles[h])];
    forall k { OwnersCount(handles, h, Emptied(handles[h]), k); }
    assert h in Owners(handles, i);
    if impls[i].refCount == 1 {
      OnlyOwner(Owners(handles, i), h);
      OwnersSet(handles, h, Emptied(handles[h]), i);
      assert forall g :: g in handles' && handles'[g].impl == Some(i) ==> g in Owners(handles', i);
    }
  }

  /** A handle that points nowhere may go. */
  lemma AccountedDrop(impls: map<nat, Impl>, handles: map<nat, Handle>, h: nat)
    requires Accounted(impls, handles) && h in handles && handles[h].impl.None?
    ensures Accounted(impls, handles - {h})
  {
    forall i ensures Owners(handles - {h}, i) == Owners(handles, i) {
    }
  }

  lemma OnlyOwner(s: set<nat>, h: nat)
    requires h in s && |s| == 1
    ensures s == {h}
  {
    assert |s - {h}| == 0;
  }

  /** A handle after its pointer was exchanged for null. */
  function Emptied(h: Handle): Handle {
    match h
    case Promise(_, _) => Promise(None, false)
    case Future(_) => Future(None)
  }

  /** The impls once handle `x`, if it is a retrieved promise that is still unresolved, has failed its impl. */
  function Broken(impls: map<nat, Impl>, x: Handle): map<nat, Impl> {
    if x.Promise? && x.retrieved && x.impl.Some? && x.impl.value in impls && impls[x.impl.value].result.None?
    then impls[x.impl.value := impls[x.impl.value].(result := Some(BROKEN_PROMISE))]
    else impls
  }

  /** Heap and freed impls once handle `h` has let go: its impl is freed exactly when no other handle owns it. */
  function Released(impls: map<nat, Impl>, handles: map<nat, Handle>, freed: seq<nat>, h: nat)
    : (map<nat, Impl>, seq<nat>)
    requires h in handles
  {
    if handles[h].impl.None? || handles[h].impl.value !in impls then (impls, freed) else
    var i := handles[h].impl.value;
    if Owners(handles, i) == {h} then (impls - {i}, freed + [i])
    else (impls[i := impls[i].(refCount := impls[i].refCount - 1)], freed)
  }

  /** Dropping a promise: the impl outlives it exactly when another handle does, and that handle then finds a
      result, "Broken promise" if the future had been retrieved and nothing was set. */
  lemma DroppedPromise(impls: map<nat, Impl>, handles: map<nat, Handle>, freed: seq<nat>, h: nat)
    requires Accounted(impls, handles) && h in handles && handles[h].Promise? && handles[h].impl.Some?
    ensures var i := handles[h].impl.value;
            var (impls', freed') := Released(Broken(impls, handles[h]), handles, freed, h);
            && (i in impls' <==> exists g :: g in handles && g != h && handles[g].impl == Some(i))
            && (i in impls' ==> freed' == freed)
            && (i !in impls' ==> freed' == freed + [i])
            && (i in impls' && handles[h].retrieved ==>
                  impls'[i].result == if impls[i].result.None? then Some(BROKEN_PROMISE) else impls[i].result)
            && (i in impls' && !handles[h].retrieved ==> impls'[i].result == impls[i].result)
            && (forall k :: k != i ==> (k in impls' <==> k in impls) && (k in impls ==> impls'[k] == impls[k]))
  {
    var i := handles[h].impl.value;
    assert h in Owners(handles, i);
    if Owners(handles, i) != {h} {
      var g :| g in Owners(handles, i) && g != h;
    } else {
      assert forall g :: g in handles && handles[g].impl == Some(i) ==> g in Owners(handles, i);
    }
  }

  /** Dropping or overwriting a future: the impl outlives it exactly when another handle does, with its result as it
      was, and no other impl changes. */
  lemma DroppedFuture(impls: map<nat, Impl>, handles: map<nat, Handle>, freed: seq<nat>, h: nat)
    requires Accounted(impls, handles) && h in handles && handles[h].Future? && handles[h].impl.Some?
    ensures var i := handles[h].impl.value;
            var (impls', freed') := Released(impls, handles, freed, h);
            && Broken(impls, handles[h]) == impls
            && (i in impls' <==> exists g :: g in handles && g != h && handles[g].impl == Some(i))
            && (i in impls' ==> freed' == freed && impls'[i].result == impls[i].result)
            && (i !in impls' ==> freed' == freed + [i])
            && (forall k :: k != i ==> (k in impls' <==> k in impls) && (k in impls ==> impls'[k] == impls[k]))
  {
    var i := handles[h].impl.value;
    assert h in Owners(handles, i);
    if Owners(handles, i) != {h} {
      var g :| g in Owners(handles, i) && g != h;
    } else {
      assert forall g :: g in handles && handles[g].impl == Some(i) ==> g in Owners(handles, i);
    }
  }

  /** A handle that points nowhere changes nothing when it goes. */
  lemma DroppedEmpty(impls: map<nat, Impl>, handles: map<nat, Handle>, freed: seq<nat>, h: nat)
    requires h in handles && handles[h].impl.None?
    ensures Released(Broken(impls, handles[h]), handles, freed, h) == (impls, freed)
  {
  }

  class Program {
    var impls: map<nat, Impl>
    var handles: map<nat, Handle>
    var freed: seq<nat>   // deleted impls, in order
    var made: nat         // impls constructed so far

    ghost predicate Valid()
      reads this
    {
      Accounted(impls, handles) && FreedOnce(impls, freed, made)
    }

    constructor ()
      ensures Valid() && impls == map[] && handles == map[] && freed == [] && made == 0
    {
      impls, handles, freed, made := map[], map[], [], 0;
    }

    /** A new impl whose only owner is the new handle `x`, named `h`. */
    method New(h: nat, x: Handle, result: Option<Result>)
      requires Valid() && h !in handles && x.impl == Some(made)
      modifies this
      ensures Valid()
      ensures impls == old(impls)[old(made) := Impl(1, result)] && handles == old(handles)[h := x]
      ensures freed == old(freed) && made == old(made) + 1
    {
      AccountedNew(impls, handles, h, x, made, result);
      impls := impls[made := Impl(1, result)];
      handles := handles[h := x];
      made := made + 1;
    }

    method NewPromise(h: nat)
      requires Valid() && h !in handles
      modifies this
      ensures Valid() && freed == old(freed)
      ensures handles == old(handles)[h := Promise(Some(old(made)), false)]
      ensures impls == old(impls)[old(made) := Impl(1, None)]
    {
      New(h, Promise(Some(made), false), None);
    }

    /** MakeReadyFuture and MakeExceptionFuture: an impl without a promise. */
    method NewResolvedFuture(h: nat, result: Result)
      requires Valid() && h !in handles
      modifies this
      ensures Valid() && freed == old(freed)
      ensures handles == old(handles)[h := Future(Some(old(made)))]
      ensures impls == old(impls)[old(made) := Impl(1, Some(result))]
    {
      New(h, Future(Some(made)), Some(result));
    }

    /** Promise::GetFuture: a second handle on the promise's impl, if it has one. */
    method GetFuture(p: nat, h: nat)
      requires Valid() && p in handles && handles[p].Promise? && h !in handles
      modifies this
      ensures Valid() && freed == old(freed) && made == old(made)
      ensures handles == old(handles)[p := old(handles)[p].(retrieved := true)][h := Future(old(handles)[p].impl)]
      ensures old(handles)[p].impl.None? ==> impls == old(impls)
      ensures old(handles)[p].impl.Some? ==>
                var i := old(handles)[p].impl.value;
                i in old(impls) && impls == old(impls)[i := Impl(old(impls)[i].refCount + 1, old(impls)[i].result)]
    {
      var impl := handles[p].impl;
      AccountedSame(impls, handles, p, handles[p].(retrieved := true));
      handles := handles[p := handles[p].(retrieved := true)];
      if impl.Some? {
        var i := impl.value;
        AccountedAttach(impls, handles, h, i);
        impls := impls[i := impls[i].(refCount := impls[i].refCount + 1)];
      } else {
        AccountedSame(impls, handles, h, Future(None));
      }
      handles := handles[h := Future(impl)];
    }

    /** Move construction: `h` takes over what `from` points to. */
    method MoveConstruct(h: nat, from: nat)
      requires Valid() && from in handles && h !in handles
      modifies this
      ensures Valid() && impls == old(impls) && freed == old(freed) && made == old(made)
      ensures handles == old(handles)[h := old(handles)[from]][from := Emptied(old(handles)[from])]
    {
      AccountedTake(impls, handles, h, from);
      handles := handles[h := handles[from]][from := Emptied(handles[from])];
    }

    /** FutureImpl::Detach through handle `h`: the last owner deletes the impl. */
    method Detach(h: nat)
      requires Valid() && h in handles
      modifies this
      ensures Valid() && made == old(made)
      ensures handles == old(handles)[h := Emptied(old(handles)[h])]
      ensures (impls, freed) == Released(old(impls), old(handles), old(freed), h)
    {
      var impl := handles[h].impl;
      if impl.Some? {
        var i := impl.value;
        AccountedDetach(impls, handles, h);
        if impls[i].refCount == 1 {
          impls, freed := impls - {i}, freed + [i];
        } else {
          impls := impls[i := impls[i].(refCount := impls[i].refCount - 1)];
        }
      } else {
        AccountedSame(impls, handles, h, Emptied(handles[h]));
      }
      handles := handles[h := Emptied(handles[h])];
    }

    /** Promise::Detach: an unresolved promise whose future was retrieved first fails it as broken. */
    method DetachPromise(h: nat)
      requires Valid() && h in handles && handles[h].Promise?
      modifies this
      ensures Valid() && made == old(made)
      ensures handles == old(handles)[h := Emptied(old(handles)[h])]
      ensures (impls, freed) == Released(Broken(old(impls), old(handles)[h]), old(handles), old(freed), h)
    {
      if handles[h].impl.Some? && handles[h].retrieved && impls[handles[h].impl.value].result.None? {
        var i := handles[h].impl.value;
        impls := impls[i := Impl(impls[i].refCount, Some(BROKEN_PROMISE))];
      }
      Detach(h);
    }

    /** Future::operator=(Future&&): without a test for self-assignment. */
    method AssignFuture(h: nat, from: nat)
      requires Valid() && h in handles && from in handles && handles[h].Future? && handles[from].Future?
      modifies this
      ensures Valid() && made == old(made)
      ensures handles == old(handles)[h := if h == from then Future(None) else old(handles)[from]][from := Future(None)]
      ensures (impls, freed) == Released(old(impls), old(handles), old(freed), h)
    {
      Detach(h);
      Take(h, from);
    }

    /** Promise::operator=(Promise&&). */
    method AssignPromise(h: nat, from: nat)
      requires Valid() && h in handles && from in handles && handles[h].Promise? && handles[from].Promise?
      modifies this
      ensures Valid() && made == old(made)
      ensures h == from ==> handles == old(handles) && impls == old(impls) && freed == old(freed)
      ensures h != from ==> handles == old(handles)[h := old(handles)[from]][from := Promise(None, false)]
      ensures h != from ==> (impls, freed) == Released(Broken(old(impls), old(handles)[h]), old(handles), old(freed), h)
    {
      if h == from {
        return;
      }
      DetachPromise(h);
      Take(h, from);
    }

    /** std::exchange(from.future_, nullptr) into a handle that points nowhere. */
    method Take(h: nat, from: nat)
      requires Valid() && h in handles && from in handles && handles[h].impl.None?
      modifies this`handles
      ensures Valid()
      ensures handles == old(handles)[h := old(handles)[from]][from := Emptied(old(handles)[from])]
    {
      AccountedTake(impls, handles, h, from);
      handles := handles[h := handles[from]][from := Emptied(handles[from])];
    }

    /** ~Future and ~Promise: the handle is gone. */
    method Destroy(h: nat)
      requires Valid() && h in handles
      modifies this
      ensures Valid() && made == old(made)
      ensures handles == old(handles) - {h}
      ensures (impls, freed) == Released(Broken(old(impls), old(handles)[h]), old(handles), old(freed), h)
    {
      if handles[h].Promise? {
        DetachPromise(h);
      } else {
        Detach(h);
      }
      AccountedDrop(impls, handles, h);
      handles := handles - {h};
    }

    /** Promise::SetValue and SetException. */
    method SetResult(p: nat, result: Result)
      requires Valid() && p in handles && handles[p].Promise? && handles[p].impl.Some?
      modifies this`impls
      ensures Valid() && handles[p].impl.value in old(impls)
      ensures impls == old(impls)[handles[p].impl.value := old(impls)[handles[p].impl.value].(result := Some(result))]
    {
      var i := handles[p].impl.value;
      impls := impls[i := impls[i].(result := Some(result))];
    }
  }
}
