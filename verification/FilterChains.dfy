/** Registering filters with the global manager and a service's controller, and running them at a point of a call. */
module FilterChains {
  import opened FilterQueues

  datatype Status = Continue | Reject

  /** What a call does that can be told from outside: a filter's hook with the status it left, or the transport. */
  datatype Event = Hook(point: nat, filter: Filter, status: Status) | Transport

  /**
    * What the code around the filters answers, each time as any function of all that happened before: the codec, the
    * timeout, the transport, and the hooks, which also see whether the context's status is OK and may change it (a hook
    * that does not touch the filter status leaves the one that history determines).
    */
  datatype Environment = Environment(
    hook: (seq<Event>, bool, nat, Filter) -> Status,
    contextOk: (seq<Event>, bool) -> bool,
    typed: bool,
    fillRequest: seq<Event> -> bool,
    timeLeft: seq<Event> -> bool,
    encode: seq<Event> -> bool,
    transport: seq<Event> -> bool,
    fillResponse: seq<Event> -> bool)

  predicate AnsweredAt(env: Environment, t: seq<Event>, i: nat)
    requires i < |t|
  {
    t[i].Hook? ==> exists ok :: t[i].status == env.hook(t[..i], ok, t[i].point, t[i].filter)
  }

  /** Every hook in the trace left a status the environment says, for the context's status that it saw. */
  predicate Answered(env: Environment, t: seq<Event>) {
    forall i :: 0 <= i < |t| ==> AnsweredAt(env, t, i)
  }

  lemma AnsweredNext(env: Environment, t: seq<Event>, ok: bool, ev: Event)
    requires Answered(env, t) && (ev.Hook? ==> ev.status == env.hook(t, ok, ev.point, ev.filter))
    ensures Answered(env, t + [ev])
  {
    var u := t + [ev];
    forall i | 0 <= i < |u| ensures AnsweredAt(env, u, i) {
      if i < |t| {
        assert AnsweredAt(env, t, i);
        assert u[..i] == t[..i];
      } else {
        assert u[..i] == t;
      }
    }
  }

  /** How many of `fs` accept, one after the other, before one rejects. */
  function Accepted(env: Environment, before: seq<Event>, ok: bool, point: nat, fs: seq<Filter>): (e: nat)
    ensures e <= |fs|
    decreases |fs|
  {
    if fs == [] || env.hook(before, ok, point, fs[0]) == Reject then 0
    else
      var t := before + [Hook(point, fs[0], Continue)];
      1 + Accepted(env, t, env.contextOk(t, ok), point, fs[1..])
  }

  /** Whether the context's status is OK once the hooks of a pre phase ran. */
  function OkAfter(env: Environment, before: seq<Event>, ok: bool, point: nat, fs: seq<Filter>): bool
    decreases |fs|
  {
    if fs == [] then ok
    else
      var status := env.hook(before, ok, point, fs[0]);
      var t := before + [Hook(point, fs[0], status)];
      if status == Reject then env.contextOk(t, ok) else OkAfter(env, t, env.contextOk(t, ok), point, fs[1..])
  }

  lemma PresCons(before: seq<Event>, point: nat, fs: seq<Filter>, e: nat)
    requires fs != [] && e <= |fs| - 1
    ensures before + [Hook(point, fs[0], Continue)] + Pres(point, fs[1..], e) == before + Pres(point, fs, 1 + e)
  {
    PresFirst(point, fs, e);
  }

  lemma PresFirst(point: nat, fs: seq<Filter>, e: nat)
    requires fs != [] && e <= |fs| - 1
    ensures [Hook(point, fs[0], Continue)] + Pres(point, fs[1..], e) == Pres(point, fs, 1 + e)
  {
  }

  /** The phase over two queues is that over the first and, if all of it accepts, that over the second. */
  lemma {:induction false} AcceptedConcat(env: Environment, before: seq<Event>, ok: bool, point: nat, a: seq<Filter>,
                                          b: seq<Filter>)
    ensures var e := Accepted(env, before, ok, point, a);
            var t, ok' := PreTrace(env, before, ok, point, a), OkAfter(env, before, ok, point, a);
            && Accepted(env, before, ok, point, a + b) == (if e < |a| then e else e + Accepted(env, t, ok', point, b))
            && OkAfter(env, before, ok, point, a + b) == if e < |a| then ok' else OkAfter(env, t, ok', point, b)
    decreases |a|
  {
    if a == [] {
      assert a + b == b && before + Pres(point, a, 0) == before;
    } else {
      assert (a + b)[0] == a[0] && (a + b)[1..] == a[1..] + b;
      if env.hook(before, ok, point, a[0]) == Continue {
        var t := before + [Hook(point, a[0], Continue)];
        AcceptedConcat(env, t, env.contextOk(t, ok), point, a[1..], b);
        PresCons(before, point, a, Accepted(env, t, env.contextOk(t, ok), point, a[1..]));
      }
    }
  }

  /** The pre phase of `fs` at `point` in which exactly the first `e` filters accept. */
  function Pres(point: nat, fs: seq<Filter>, e: nat): seq<Event>
    requires e <= |fs|
  {
    seq(e, i requires 0 <= i < e => Hook(point, fs[i], Continue)) +
    (if e < |fs| then [Hook(point, fs[e], Reject)] else [])
  }

  /** The call so far, after a pre phase. */
  function PreTrace(env: Environment, before: seq<Event>, ok: bool, point: nat, fs: seq<Filter>): seq<Event> {
    before + Pres(point, fs, Accepted(env, before, ok, point, fs))
  }

  lemma PresConcat(point: nat, a: seq<Filter>, b: seq<Filter>, e: nat)
    requires e <= |a| + |b|
    ensures e < |a| ==> Pres(point, a + b, e) == Pres(point, a, e)
    ensures e >= |a| ==> Pres(point, a + b, e) == Pres(point, a, |a|) + Pres(point, b, e - |a|)
  {
  }

  lemma PresAfterAll(before: seq<Event>, point: nat, a: seq<Filter>, b: seq<Filter>, e: nat)
    requires e <= |b|
    ensures before + Pres(point, a + b, |a| + e) == before + Pres(point, a, |a|) + Pres(point, b, e)
  {
    PresConcat(point, a, b, |a| + e);
    ConcatAssociative(before, Pres(point, a, |a|), Pres(point, b, e));
  }

  /** A pre phase over two queues, of which the first accepts all. */
  lemma SecondQueue(env: Environment, before: seq<Event>, ok: bool, point: nat, a: seq<Filter>, b: seq<Filter>)
    requires Accepted(env, before, ok, point, a) == |a|
    ensures var t, ok' := PreTrace(env, before, ok, point, a), OkAfter(env, before, ok, point, a);
            && Accepted(env, before, ok, point, a + b) == |a| + Accepted(env, t, ok', point, b)
            && PreTrace(env, before, ok, point, a + b) == PreTrace(env, t, ok', point, b)
            && OkAfter(env, before, ok, point, a + b) == OkAfter(env, t, ok', point, b)
  {
    AcceptedConcat(env, before, ok, point, a, b);
    var t, ok' := PreTrace(env, before, ok, point, a), OkAfter(env, before, ok, point, a);
    PresAfterAll(before, point, a, b, Accepted(env, t, ok', point, b));
  }

  lemma FirstQueueOnly(env: Environment, before: seq<Event>, ok: bool, point: nat, a: seq<Filter>, b: seq<Filter>)
    requires Accepted(env, before, ok, point, a) < |a|
    ensures Accepted(env, before, ok, point, a + b) == Accepted(env, before, ok, point, a)
    ensures PreTrace(env, before, ok, point, a + b) == PreTrace(env, before, ok, point, a)
    ensures OkAfter(env, before, ok, point, a + b) == OkAfter(env, before, ok, point, a)
  {
    AcceptedConcat(env, before, ok, point, a, b);
    PresConcat(point, a, b, Accepted(env, before, ok, point, a));
  }

  lemma PostsConcat(t: seq<Event>, u: seq<Event>, point: nat, a: seq<Filter>, b: seq<Filter>)
    requires IsPosts(t, point, a) && IsPosts(u, point, b)
    ensures IsPosts(t + u, point, a + b)
  {
  }

  /** The hooks of `fs` at `point`, in this order, whatever status they leave. */
  predicate IsPosts(t: seq<Event>, point: nat, fs: seq<Filter>) {
    |t| == |fs| && forall i :: 0 <= i < |t| ==> t[i].Hook? && t[i].point == point && t[i].filter == fs[i]
  }

  /** Whether the context's status is OK once the hooks in `ran` ran, each of which may change it. */
  function OkThrough(env: Environment, before: seq<Event>, ok: bool, ran: seq<Event>): bool {
    if ran == [] then ok else env.contextOk(before + ran, OkThrough(env, before, ok, ran[..|ran| - 1]))
  }

  lemma OkThroughNext(env: Environment, before: seq<Event>, ok: bool, ran: seq<Event>, ev: Event)
    ensures OkThrough(env, before, ok, ran + [ev]) ==
            env.contextOk(before + (ran + [ev]), OkThrough(env, before, ok, ran))
  {
    assert (ran + [ev])[..|ran|] == ran;
  }

  lemma {:induction false} OkThroughConcat(env: Environment, before: seq<Event>, ok: bool, a: seq<Event>, b: seq<Event>)
    ensures OkThrough(env, before, ok, a + b) == OkThrough(env, before + a, OkThrough(env, before, ok, a), b)
    decreases |b|
  {
    if b == [] {
      assert a + b == a;
    } else {
      var n := |b| - 1;
      assert (a + b)[..|a + b| - 1] == a + b[..n] && before + (a + b) == before + a + b;
      OkThroughConcat(env, before, ok, a, b[..n]);
    }
  }

  lemma OkThroughFirst(env: Environment, before: seq<Event>, ok: bool, point: nat, fs: seq<Filter>, e: nat)
    requires fs != [] && e <= |fs| - 1
    ensures var t := before + [Hook(point, fs[0], Continue)];
            OkThrough(env, before, ok, Pres(point, fs, 1 + e)) ==
            OkThrough(env, t, env.contextOk(t, ok), Pres(point, fs[1..], e))
  {
    var ev := Hook(point, fs[0], Continue);
    OkThroughNext(env, before, ok, [], ev);
    assert [] + [ev] == [ev];
    OkThroughConcat(env, before, ok, [ev], Pres(point, fs[1..], e));
    PresFirst(point, fs, e);
  }

  /** A pre phase is no exception. */
  lemma {:induction false} OkAfterPres(env: Environment, before: seq<Event>, ok: bool, point: nat, fs: seq<Filter>)
    ensures OkAfter(env, before, ok, point, fs) ==
            OkThrough(env, before, ok, Pres(point, fs, Accepted(env, before, ok, point, fs)))
    decreases |fs|
  {
    if fs == [] {
      assert Pres(point, fs, 0) == [];
    } else if env.hook(before, ok, point, fs[0]) == Continue {
      var t := before + [Hook(point, fs[0], Continue)];
      OkAfterPres(env, t, env.contextOk(t, ok), point, fs[1..]);
      OkThroughFirst(env, before, ok, point, fs, Accepted(env, t, env.contextOk(t, ok), point, fs[1..]));
    } else {
      OkThroughNext(env, before, ok, [], Hook(point, fs[0], Reject));
      assert Pres(point, fs, 0) == [] + [Hook(point, fs[0], Reject)] == [Hook(point, fs[0], Reject)];
    }
  }

  /** The status once the hooks in `t` ran one after the other, starting from `status`. */
  function StatusAfter(status: Status, t: seq<Event>): Status {
    if t != [] && t[|t| - 1].Hook? then t[|t| - 1].status else status
  }

  // ---------------------------------------------------------------------------------------------

  class FilterManager {
    var filters: map<string, Filter>
    var queues: Queues

    constructor ()
      ensures filters == map[] && queues == NoFilters()
    {
      filters, queues := map[], NoFilters();
    }

    static method CheckMatchPoints(points: seq<nat>) returns (ok: bool)
      ensures ok <==> Matching(points)
    {
      for n := 0 to |points|
        invariant forall i :: 0 <= i < n ==> HasMatch(points, i)
      {
        var wanted, j := MatchPoint(points[n]), 0;
        while j < |points| && points[j] != wanted
          invariant j <= |points| && forall i :: 0 <= i < j ==> points[i] != wanted
        {
          j := j + 1;
        }
        if j == |points| {
          assert !HasMatch(points, n);
          return false;
        }
      }
      return true;
    }

    method AddMessageFilter(f: Filter) returns (ok: bool)
      modifies this`filters
      ensures ok <==> Matching(f.points)
      ensures filters == if ok then old(filters)[f.name := f] else old(filters)
    {
      ok := CheckMatchPoints(f.points);
      if ok {
        filters := filters[f.name := f];
      }
    }

    method AddMessageGlobalFilter(f: Filter) returns (ok: bool)
      requires WellFormed(queues) && PointsExist(f)
      modifies this`queues
      ensures ok <==> !Refused(old(queues), f)
      ensures queues == Added(old(queues), f)
    {
      if |f.points| > 0 {
        var taken := FindName(queues[Masked(f.points[0])], f.name);
        if taken {
          return false;
        }
      }
      queues := PushAll(queues, f);
      return true;
    }
  }

  method FindName(q: seq<Filter>, name: string) returns (found: bool)
    ensures found <==> HasName(q, name)
  {
    for n := 0 to |q|
      invariant forall i :: 0 <= i < n ==> q[i].name != name
    {
      if q[n].name == name {
        return true;
      }
    }
    return false;
  }

  /** The push loop both kinds of queues share. */
  method PushAll(queues: Queues, f: Filter) returns (r: Queues)
    requires WellFormed(queues) && PointsExist(f)
    ensures r == Pushed(queues, f, |f.points|)
  {
    r := queues;
    for n := 0 to |f.points|
      invariant r == Pushed(queues, f, n)
    {
      var p := Masked(f.points[n]);
      if PostOrder(p) {
        r := r[p := [f] + r[p]];
      } else {
        r := r[p := r[p] + [f]];
      }
    }
  }

  /** The part of a call's context the filters use: a saved index per pair of points, and the call so far. */
  class Context {
    var execIndex: seq<int>
    var ok: bool
    var trace: seq<Event>

    ghost predicate Valid()
      reads this
    {
      |execIndex| == K_FILTER_TYPE_NUM / 2 && forall k :: 0 <= k < |execIndex| ==> -1 <= execIndex[k] <= 127
    }

    /** A fresh context: nothing saved, nothing run. */
    ghost predicate Fresh()
      reads this
    {
      Valid() && trace == [] && forall k :: 0 <= k < |execIndex| ==> execIndex[k] == -1
    }

    constructor ()
      ensures Fresh() && ok
    {
      execIndex, ok, trace := seq(K_FILTER_TYPE_NUM / 2, _ => -1), true, [];
    }
  }

  method RunHook(f: Filter, point: nat, context: Context, env: Environment) returns (status: Status)
    requires context.Valid() && Answered(env, context.trace)
    modifies context`ok, context`trace
    ensures status == env.hook(old(context.trace), old(context.ok), point, f)
    ensures context.trace == old(context.trace) + [Hook(point, f, status)] && Answered(env, context.trace)
    ensures context.ok == env.contextOk(context.trace, old(context.ok))
  {
    status := env.hook(context.trace, context.ok, point, f);
    AnsweredNext(env, context.trace, context.ok, Hook(point, f, status));
    context.trace := context.trace + [Hook(point, f, status)];
    context.ok := env.contextOk(context.trace, context.ok);
  }

  /** One more hook of a post phase. */
  lemma PostsNext(env: Environment, before: seq<Event>, ok: bool, ran: seq<Event>, point: nat, fs: seq<Filter>,
                  f: Filter, status: Status)
    requires IsPosts(ran, point, fs)
    ensures var ev := Hook(point, f, status);
            && before + ran + [ev] == before + (ran + [ev])
            && IsPosts(ran + [ev], point, fs + [f])
            && OkThrough(env, before, ok, ran + [ev]) ==
               env.contextOk(before + ran + [ev], OkThrough(env, before, ok, ran))
  {
    ConcatAssociative(before, ran, [Hook(point, f, status)]);
    OkThroughNext(env, before, ok, ran, Hook(point, f, status));
  }

  lemma SliceNext<T>(s: seq<T>, from: nat, i: nat)
    requires from <= i < |s|
    ensures s[from..i] + [s[i]] == s[from..i + 1]
  {
  }

  /** Run a queue's hooks from index `from` on, whatever status they leave. */
  method RunFrom(q: seq<Filter>, from: nat, point: nat, context: Context, env: Environment, status0: Status)
    returns (status: Status, ghost ran: seq<Event>)
    requires context.Valid() && Answered(env, context.trace)
    modifies context`ok, context`trace
    ensures Answered(env, context.trace) && context.trace == old(context.trace) + ran
    ensures IsPosts(ran, point, if from <= |q| then q[from..] else [])
    ensures status == StatusAfter(status0, ran)
    ensures context.ok == OkThrough(env, old(context.trace), old(context.ok), ran)
  {
    status, ran := status0, [];
    ghost var before, ok, fs := context.trace, context.ok, [];
    var i := from;
    while i < |q|
      invariant from <= i && (from <= |q| ==> i <= |q|) && fs == if i <= |q| then q[from..i] else []
      invariant Answered(env, context.trace) && context.trace == before + ran && IsPosts(ran, point, fs)
      invariant status == StatusAfter(status0, ran) && context.ok == OkThrough(env, before, ok, ran)
    {
      status := RunHook(q[i], point, context, env);
      PostsNext(env, before, ok, ran, point, fs, q[i], status);
      SliceNext(q, from, i);
      fs, ran := fs + [q[i]], ran + [Hook(point, q[i], status)];
      i := i + 1;
    }
  }

  lemma ConcatAssociative<T>(a: seq<T>, b: seq<T>, c: seq<T>)
    ensures (a + b) + c == a + (b + c)
  {
  }

  /** A point and its match share a slot for the saved index. */
  lemma SamePair(point: nat)
    ensures Masked(MatchPoint(point)) / 2 == Masked(point) / 2
  {
    MaskedMatch(point);
    assert Masked(point) % 2 == 0 || Masked(point) % 2 == 1;
  }

  /** The unsigned 32-bit offset of the first service filter to run. */
  function Offset(globals: nat, services: nat, execIndex: nat): nat {
    (services - (execIndex - globals)) % 0x1_0000_0000
  }

  /** The filters from the two offsets on are those of PostPart. */
  lemma OffsetsArePostPart(globals: seq<Filter>, services: seq<Filter>, saved: int)
    requires -1 <= saved <= 127 && |globals| + |services| <= 0x7fff_ffff
    ensures var execIndex := if saved == -1 then |globals| + |services| else saved;
            var offset := Offset(|globals|, |services|, execIndex);
            if execIndex <= |globals| then globals[|globals| - execIndex..] == PostPart(globals, services, saved)
            else (if offset <= |services| then services[offset..] else []) + globals ==
                 PostPart(globals, services, saved)
  {
    var n := |globals| + |services|;
    var execIndex := if saved == -1 then n else saved;
    if execIndex <= n {
      assert (services + globals)[n - execIndex..] ==
             if execIndex <= |globals| then globals[|globals| - execIndex..] else services[n - execIndex..] + globals;
    } else {
      assert Offset(|globals|, |services|, execIndex) == 0x1_0000_0000 + n - execIndex;
    }
  }

  /** Two queues of a post phase, one after the other. */
  lemma PostsBoth(env: Environment, before: seq<Event>, ok: bool, t: seq<Event>, u: seq<Event>, point: nat,
                  a: seq<Filter>, b: seq<Filter>)
    requires IsPosts(t, point, a) && IsPosts(u, point, b)
    ensures IsPosts(t + u, point, a + b) && before + t + u == before + (t + u)
    ensures OkThrough(env, before, ok, t + u) == OkThrough(env, before + t, OkThrough(env, before, ok, t), u)
    ensures StatusAfter(StatusAfter(Continue, t), u) == StatusAfter(Continue, t + u)
  {
    PostsConcat(t, u, point, a, b);
    ConcatAssociative(before, t, u);
    OkThroughConcat(env, before, ok, t, u);
  }

  method RunPostQueues(globals: seq<Filter>, services: seq<Filter>, saved: int, point: nat, context: Context,
                       env: Environment)
    returns (status: Status, ghost ran: seq<Event>)
    requires context.Valid() && Answered(env, context.trace) && -1 <= saved <= 127
               && |globals| + |services| <= 0x7fff_ffff
    modifies context`ok, context`trace
    ensures Answered(env, context.trace) && context.trace == old(context.trace) + ran
    ensures IsPosts(ran, point, PostPart(globals, services, saved))
    ensures status == StatusAfter(Continue, ran)
    ensures context.ok == OkThrough(env, old(context.trace), old(context.ok), ran)
  {
    OffsetsArePostPart(globals, services, saved);
    var execIndex := if saved == -1 then |globals| + |services| else saved;
    if execIndex > |globals| {
      var index := Offset(|globals|, |services|, execIndex);
      status, ran := RunFrom(services, index, point, context, env, Continue);
      ghost var last;
      status, last := RunFrom(globals, 0, point, context, env, status);
      PostsBoth(env, old(context.trace), old(context.ok), ran, last, point,
                if index <= |services| then services[index..] else [], globals);
      ran := ran + last;
    } else {
      status, ran := RunFrom(globals, |globals| - execIndex, point, context, env, Continue);
    }
  }

  /** The filters of one service. */
  class FilterController {
    const manager: FilterManager
    var queues: Queues

    ghost predicate Valid()
      reads this, manager
    {
      WellFormed(queues) && WellFormed(manager.queues)
    }

    constructor (manager: FilterManager)
      ensures this.manager == manager && queues == NoFilters()
    {
      this.manager, queues := manager, NoFilters();
    }

    method AddMessageFilter(f: Filter) returns (ok: bool)
      requires Valid() && PointsExist(f)
      modifies this`queues
      ensures Valid() && (ok <==> !Refused(manager.queues, f) && !Refused(old(queues), f))
      ensures queues == if ok then Pushed(old(queues), f, |f.points|) else old(queues)
    {
      if |f.points| > 0 {
        var taken := FindName(manager.queues[Masked(f.points[0])], f.name);
        if taken {
          return false;
        }
        taken := FindName(queues[Masked(f.points[0])], f.name);
        if taken {
          return false;
        }
      }
      queues := PushAll(queues, f);
      return true;
    }

    /** All filters at a point, the global ones first. */
    ghost function Chain(point: nat): seq<Filter>
      requires Valid() && Masked(point) < K_FILTER_TYPE_NUM
      reads this, manager
    {
      manager.queues[Masked(point)] + queues[Masked(point)]
    }

    /**
      * One queue of the pre phase: stop at the first rejection and save its index. SetFilterExecIndex aborts the
      * program when the index is above 127, the largest of its type.
      */
    method RunPreQueue(q: seq<Filter>, offset: nat, point: nat, context: Context, env: Environment)
      returns (status: Status, aborted: bool, ghost e: nat)
      requires Valid() && context.Valid() && Answered(env, context.trace) && Masked(point) < K_FILTER_TYPE_NUM
      modifies context
      ensures context.Valid() && Answered(env, context.trace)
      ensures e == Accepted(env, old(context.trace), old(context.ok), point, q)
      ensures context.trace == PreTrace(env, old(context.trace), old(context.ok), point, q)
      ensures context.ok == OkAfter(env, old(context.trace), old(context.ok), point, q)
      ensures status == if e < |q| then Reject else Continue
      ensures aborted <==> e < |q| && offset + e > 127
      ensures context.execIndex == if e < |q| && !aborted then old(context.execIndex)[Masked(point) / 2 := offset + e]
                                   else old(context.execIndex)
    {
      status, aborted, e := Continue, false, 0;
      for i := 0 to |q|
        invariant context.Valid() && Answered(env, context.trace)
        invariant e == i && status == Continue && !aborted && context.execIndex == old(context.execIndex)
        invariant context.trace == old(context.trace) + seq(i, k requires 0 <= k < i => Hook(point, q[k], Continue))
        invariant i + Accepted(env, context.trace, context.ok, point, q[i..]) ==
                  Accepted(env, old(context.trace), old(context.ok), point, q)
        invariant OkAfter(env, context.trace, context.ok, point, q[i..]) ==
                  OkAfter(env, old(context.trace), old(context.ok), point, q)
      {
        ghost var t := seq(i, k requires 0 <= k < i => Hook(point, q[k], Continue));
        assert q[i..][0] == q[i] && q[i..][1..] == q[i + 1..];
        status := RunHook(q[i], point, context, env);
        if status == Reject {
          assert context.trace == old(context.trace) + (t + [Hook(point, q[i], Reject)]);
          if offset + i > 127 {
            aborted := true;
          } else {
            context.execIndex := context.execIndex[Masked(point) / 2 := offset + i];
          }
          return;
        }
        e := i + 1;
        assert seq(i + 1, k requires 0 <= k < i + 1 => Hook(point, q[k], Continue)) ==
                 t + [Hook(point, q[i], Continue)];
      }
      assert Pres(point, q, |q|) == seq(|q|, k requires 0 <= k < |q| => Hook(point, q[k], Continue));
    }

    /** The global queue and, unless one of its filters rejects, that of the service. */
    method RunPreQueues(globals: seq<Filter>, services: seq<Filter>, point: nat, context: Context, env: Environment)
      returns (status: Status, aborted: bool, ghost e: nat)
      requires Valid() && context.Valid() && Answered(env, context.trace) && Masked(point) < K_FILTER_TYPE_NUM
      modifies context
      ensures context.Valid() && Answered(env, context.trace)
      ensures e == Accepted(env, old(context.trace), old(context.ok), point, globals + services)
      ensures context.trace == PreTrace(env, old(context.trace), old(context.ok), point, globals + services)
      ensures context.ok == OkAfter(env, old(context.trace), old(context.ok), point, globals + services)
      ensures status == if e < |globals| + |services| then Reject else Continue
      ensures aborted <==> 127 < e < |globals| + |services|
      ensures context.execIndex == if e < |globals| + |services| && !aborted
                                   then old(context.execIndex)[Masked(point) / 2 := e] else old(context.execIndex)
    {
      ghost var t, ok := context.trace, context.ok;
      status, aborted, e := RunPreQueue(globals, 0, point, context, env);
      if status == Reject {
        FirstQueueOnly(env, t, ok, point, globals, services);
      } else {
        ghost var e';
        status, aborted, e' := RunPreQueue(services, |globals|, point, context, env);
        e := |globals| + e';
        SecondQueue(env, t, ok, point, globals, services);
      }
    }

    method RunPre(point: nat, context: Context, env: Environment)
      returns (status: Status, aborted: bool, ghost e: nat)
      requires Valid() && context.Valid() && Answered(env, context.trace) && Masked(point) < K_FILTER_TYPE_NUM
      modifies context
      ensures Valid() && context.Valid() && Answered(env, context.trace)
      ensures e == Accepted(env, old(context.trace), old(context.ok), point, Chain(point))
      ensures context.trace == old(context.trace) + Pres(point, Chain(point), e)
      ensures context.ok == OkAfter(env, old(context.trace), old(context.ok), point, Chain(point))
      ensures status == if e < |Chain(point)| then Reject else Continue
      ensures aborted <==> 127 < e < |Chain(point)|
      ensures context.execIndex == if e < |Chain(point)| && !aborted then old(context.execIndex)[Masked(point) / 2 := e]
                                   else old(context.execIndex)
    {
      status, aborted, e := RunPreQueues(manager.queues[Masked(point)], queues[Masked(point)], point, context, env);
    }

    method RunPost(point: nat, context: Context, env: Environment) returns (status: Status, ghost ran: seq<Event>)
      requires Valid() && context.Valid() && Answered(env, context.trace)
      requires Masked(point) < K_FILTER_TYPE_NUM && |Chain(point)| <= 0x7fff_ffff
      modifies context`ok, context`trace
      ensures Valid() && context.Valid() && Answered(env, context.trace) && context.trace == old(context.trace) + ran
      ensures var p := Masked(point);
              IsPosts(ran, point, PostPart(manager.queues[p], queues[p], context.execIndex[p / 2]))
      ensures status == StatusAfter(Continue, ran)
      ensures context.ok == OkThrough(env, old(context.trace), old(context.ok), ran)
    {
      SamePair(point);
      var saved := context.execIndex[Masked(MatchPoint(point)) / 2];
      status, ran := RunPostQueues(manager.queues[Masked(point)], queues[Masked(point)], saved, point, context, env);
    }
  }
}
