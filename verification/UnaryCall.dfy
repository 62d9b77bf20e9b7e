/** One unary call of a proxy, blocking or through futures, with its two levels of filters. */
module UnaryCall {
  import opened Common
  import opened FilterQueues
  import opened FilterChains

  const PRE_RPC_INVOKE := 0
  const POST_RPC_INVOKE := 1
  const PRE_SEND_MSG := 2
  const POST_RECV_MSG := 3

  // ---------------------------------------------------------------------------------------------
  // Balanced traces

  /** The accepted pre hooks that still wait for their post hook, innermost first. */
  type Stack = seq<(nat, Filter)>

  /** Run a trace over the stack: an accepted pre hook opens, a post hook must close what was opened last. */
  function Scan(t: seq<Event>, stack: Stack): Option<Stack> {
    if t == [] then Some(stack)
    else match t[0]
      case Transport => Scan(t[1..], stack)
      case Hook(p, f, status) =>
        if !PostOrder(p) then Scan(t[1..], if status == Continue then [(p, f)] + stack else stack)
        else if stack != [] && stack[0] == (p - 1, f) then Scan(t[1..], stack[1..])
        else None
  }

  /** Each accepted pre hook has exactly one post hook, and they nest. */
  predicate Balanced(t: seq<Event>) {
    Scan(t, []) == Some([])
  }

  lemma {:induction false} ScanConcat(a: seq<Event>, b: seq<Event>, stack: Stack)
    ensures Scan(a + b, stack) == match Scan(a, stack) { case None => None case Some(s) => Scan(b, s) }
    decreases |a|
  {
    if a == [] {
      assert a + b == b;
    } else {
      assert (a + b)[1..] == a[1..] + b && (a + b)[0] == a[0];
      match a[0]
      case Transport => ScanConcat(a[1..], b, stack);
      case Hook(p, f, status) =>
        if !PostOrder(p) {
          ScanConcat(a[1..], b, if status == Continue then [(p, f)] + stack else stack);
        } else if stack != [] && stack[0] == (p - 1, f) {
          ScanConcat(a[1..], b, stack[1..]);
        }
    }
  }

  /** What a fully accepted pre phase of `fs` leaves open. */
  function Opened(point: nat, fs: seq<Filter>): Stack {
    seq(|fs|, i requires 0 <= i < |fs| => (point, fs[|fs| - 1 - i]))
  }

  lemma {:induction false} ScanPres(point: nat, fs: seq<Filter>, e: nat, stack: Stack)
    requires e <= |fs| && !PostOrder(point)
    ensures Scan(Pres(point, fs, e), stack) == Some(Opened(point, fs[..e]) + stack)
    decreases e
  {
    if e == 0 {
      assert Opened(point, fs[..0]) + stack == stack;
      if fs != [] {
        assert Pres(point, fs, 0) == [Hook(point, fs[0], Reject)];
        assert Pres(point, fs, 0)[1..] == [];
      }
    } else {
      var t, next := Pres(point, fs, e), [(point, fs[0])] + stack;
      assert t[1..] == Pres(point, fs[1..], e - 1);
      ScanPres(point, fs[1..], e - 1, next);
      assert fs[..e][1..] == fs[1..][..e - 1];
      assert Opened(point, fs[..e]) + stack == Opened(point, fs[1..][..e - 1]) + next;
    }
  }

  lemma {:induction false} ScanPosts(t: seq<Event>, point: nat, fs: seq<Filter>, stack: Stack)
    requires !PostOrder(point) && IsPosts(t, point + 1, Reverse(fs))
    ensures Scan(t, Opened(point, fs) + stack) == Some(stack)
    decreases |fs|
  {
    var open := Opened(point, fs) + stack;
    if fs == [] {
      assert open == stack;
    } else {
      var init := fs[..|fs| - 1];
      assert Reverse(fs)[1..] == Reverse(init);
      assert open[0] == (point, fs[|fs| - 1]) && t[0].filter == Reverse(fs)[0];
      assert open[1..] == Opened(point, init) + stack;
      ScanPosts(t[1..], point, init, stack);
    }
  }

  // ---------------------------------------------------------------------------------------------
  // The shape of a call

  /** One level of filters: how many accepted, what ran inside, and the post hooks. */
  datatype Level = Level(e: nat, inner: seq<Event>, posts: seq<Event>)

  /** The trace of one level: its post hooks undo the accepted pre hooks; after a rejection nothing runs inside. */
  predicate Bracket(t: seq<Event>, point: nat, fs: seq<Filter>, level: Level) {
    && level.e <= |fs| && t == Pres(point, fs, level.e) + level.inner + level.posts
    && IsPosts(level.posts, point + 1, Reverse(fs[..level.e]))
    && (level.e < |fs| ==> level.inner == [])
  }

  /**
    * The message level, `before` having happened and left the context's status `ok`: nothing without time left; else
    * the hooks up to the first that rejects, and the transport inside if none does and encoding works.
    */
  predicate IsMessage(env: Environment, before: seq<Event>, ok: bool, t: seq<Event>, fs: seq<Filter>, level: Level) {
    if env.timeLeft(before) then
      && Bracket(t, PRE_SEND_MSG, fs, level) && level.e == Accepted(env, before, ok, PRE_SEND_MSG, fs)
      && (level.e == |fs| ==>
            level.inner == if env.encode(before + Pres(PRE_SEND_MSG, fs, |fs|)) then [Transport] else [])
    else t == []
  }

  /** The transport of the message level ran and succeeded. */
  predicate Sent(env: Environment, before: seq<Event>, t: seq<Event>, fs: seq<Filter>, level: Level) {
    Transport in t && level.inner == [Transport] && env.transport(before + Pres(PRE_SEND_MSG, fs, |fs|) + [Transport])
  }

  predicate IsInner(env: Environment, ok: bool, t: seq<Event>, rpc: seq<Filter>, msg: seq<Filter>, level: Level) {
    var before := Pres(PRE_RPC_INVOKE, rpc, |rpc|);
    if env.fillRequest(before) then IsMessage(env, before, OkAfter(env, [], ok, PRE_RPC_INVOKE, rpc), t, msg, level)
    else t == []
  }

  predicate Nested(env: Environment, ok: bool, t: seq<Event>, rpc: seq<Filter>, msg: seq<Filter>, outer: Level,
                   inner: Level) {
    && Bracket(t, PRE_RPC_INVOKE, rpc, outer) && outer.e == Accepted(env, [], ok, PRE_RPC_INVOKE, rpc)
    && (outer.e == |rpc| ==> IsInner(env, ok, outer.inner, rpc, msg, inner))
  }

  /** A whole call on a context whose status begins as `ok`: the message level inside the RPC level. */
  ghost predicate IsCall(env: Environment, ok: bool, t: seq<Event>, rpc: seq<Filter>, msg: seq<Filter>) {
    exists outer, inner :: Nested(env, ok, t, rpc, msg, outer, inner)
  }

  /** A filter that rejects has an index that cannot be saved: SetFilterExecIndex aborts the program. */
  predicate MessageAborts(env: Environment, before: seq<Event>, ok: bool, msg: seq<Filter>) {
    env.timeLeft(before) && 127 < Accepted(env, before, ok, PRE_SEND_MSG, msg) < |msg|
  }

  predicate CallAborts(env: Environment, ok: bool, rpc: seq<Filter>, msg: seq<Filter>) {
    var e, before := Accepted(env, [], ok, PRE_RPC_INVOKE, rpc), Pres(PRE_RPC_INVOKE, rpc, |rpc|);
    if e < |rpc| then e > 127
    else env.fillRequest(before) && MessageAborts(env, before, OkAfter(env, [], ok, PRE_RPC_INVOKE, rpc), msg)
  }

  lemma BracketScan(t: seq<Event>, point: nat, fs: seq<Filter>, level: Level, stack: Stack)
    requires !PostOrder(point) && Bracket(t, point, fs, level)
    requires Scan(level.inner, Opened(point, fs[..level.e]) + stack) == Some(Opened(point, fs[..level.e]) + stack)
    ensures Scan(t, stack) == Some(stack)
  {
    var pres := Pres(point, fs, level.e);
    ScanPres(point, fs, level.e, stack);
    ScanConcat(pres, level.inner, stack);
    ScanConcat(pres + level.inner, level.posts, stack);
    ScanPosts(level.posts, point, fs[..level.e], stack);
  }

  lemma TransportScan(stack: Stack)
    ensures Scan([Transport], stack) == Some(stack)
  {
    assert [Transport][1..] == [];
  }

  lemma InnerScan(env: Environment, ok: bool, t: seq<Event>, rpc: seq<Filter>, msg: seq<Filter>, level: Level,
                  stack: Stack)
    requires IsInner(env, ok, t, rpc, msg, level)
    ensures Scan(t, stack) == Some(stack)
  {
    if t != [] {
      TransportScan(Opened(PRE_SEND_MSG, msg[..level.e]) + stack);
      BracketScan(t, PRE_SEND_MSG, msg, level, stack);
    }
  }

  /** Every call is balanced, whatever it met on its way. */
  lemma CallsAreBalanced(env: Environment, ok: bool, t: seq<Event>, rpc: seq<Filter>, msg: seq<Filter>)
    requires IsCall(env, ok, t, rpc, msg)
    ensures Balanced(t)
  {
    var outer, inner :| Nested(env, ok, t, rpc, msg, outer, inner);
    var stack := Opened(PRE_RPC_INVOKE, rpc[..outer.e]) + [];
    if outer.e == |rpc| {
      InnerScan(env, ok, outer.inner, rpc, msg, inner, stack);
    }
    BracketScan(t, PRE_RPC_INVOKE, rpc, outer, []);
  }

  lemma HooksOnly(point: nat, fs: seq<Filter>, level: Level)
    requires level.e <= |fs| && IsPosts(level.posts, point + 1, Reverse(fs[..level.e]))
    ensures Transport !in Pres(point, fs, level.e) && Transport !in level.posts
  {
  }

  lemma PartsAt(a: seq<Event>, b: seq<Event>, c: seq<Event>, i: nat)
    requires i < |a + b + c|
    ensures (a + b + c)[i] in (if i < |a| then a else if i < |a| + |b| then b else c)
  {
  }

  lemma InTheMiddle(a: seq<Event>, b: seq<Event>, c: seq<Event>, i: nat, x: Event)
    requires i < |a + b + c| && (a + b + c)[i] == x && x !in a && x !in c
    ensures |a| <= i < |a| + |b| && b[i - |a|] == x && (a + b + c)[..i] == a + b[..i - |a|]
  {
    PartsAt(a, b, c, i);
  }

  /** A transport in a level's trace is inside it, and then all its filters accepted. */
  lemma TransportInLevel(t: seq<Event>, point: nat, fs: seq<Filter>, level: Level, i: nat)
    requires Bracket(t, point, fs, level) && i < |t| && t[i] == Transport
    ensures level.e == |fs| && |Pres(point, fs, |fs|)| <= i && i - |Pres(point, fs, |fs|)| < |level.inner|
    ensures level.inner[i - |Pres(point, fs, |fs|)|] == Transport
    ensures t[..i] == Pres(point, fs, |fs|) + level.inner[..i - |Pres(point, fs, |fs|)|]
  {
    var pres := Pres(point, fs, level.e);
    HooksOnly(point, fs, level);
    InTheMiddle(pres, level.inner, level.posts, i, Transport);
  }

  lemma TransportInMessage(env: Environment, ok: bool, t: seq<Event>, rpc: seq<Filter>, msg: seq<Filter>,
                           level: Level, i: nat)
    requires IsInner(env, ok, t, rpc, msg, level) && i < |t| && t[i] == Transport
    ensures i == |msg| && t[..i] == Pres(PRE_SEND_MSG, msg, |msg|)
  {
    TransportInLevel(t, PRE_SEND_MSG, msg, level, i);
    assert level.inner == [Transport];
    assert t[..i] == Pres(PRE_SEND_MSG, msg, |msg|) + [];
  }

  /** What is open once all filters of both levels accepted. */
  lemma BothOpen(rpc: seq<Filter>, msg: seq<Filter>)
    ensures Scan(Pres(PRE_RPC_INVOKE, rpc, |rpc|) + Pres(PRE_SEND_MSG, msg, |msg|), []) ==
            Some(Opened(PRE_SEND_MSG, msg) + Opened(PRE_RPC_INVOKE, rpc))
  {
    assert rpc[..|rpc|] == rpc && msg[..|msg|] == msg;
    var stack := Opened(PRE_RPC_INVOKE, rpc);
    assert stack + [] == stack;
    ScanPres(PRE_RPC_INVOKE, rpc, |rpc|, []);
    ScanPres(PRE_SEND_MSG, msg, |msg|, stack);
    ScanConcat(Pres(PRE_RPC_INVOKE, rpc, |rpc|), Pres(PRE_SEND_MSG, msg, |msg|), []);
  }

  /** The transport runs at most once, and only while exactly all filters of both levels are open, the message
      level innermost. */
  lemma TransportInsideBoth(env: Environment, ok: bool, t: seq<Event>, rpc: seq<Filter>, msg: seq<Filter>, i: nat)
    requires IsCall(env, ok, t, rpc, msg) && i < |t| && t[i] == Transport
    ensures i == |rpc| + |msg|
    ensures Scan(t[..i], []) == Some(Opened(PRE_SEND_MSG, msg) + Opened(PRE_RPC_INVOKE, rpc))
  {
    var outer, inner :| Nested(env, ok, t, rpc, msg, outer, inner);
    var a := Pres(PRE_RPC_INVOKE, rpc, |rpc|);
    TransportInLevel(t, PRE_RPC_INVOKE, rpc, outer, i);
    TransportInMessage(env, ok, outer.inner, rpc, msg, inner, i - |a|);
    BothOpen(rpc, msg);
  }

  // ---------------------------------------------------------------------------------------------
  // The two forms of a call run the same hooks

  /** An event without the status of a post hook, which nobody looks at and which may depend on the context's status. */
  function Shown(ev: Event): Event {
    if ev.Hook? && PostOrder(ev.point) then Hook(ev.point, ev.filter, Continue) else ev
  }

  function AllShown(t: seq<Event>): seq<Event> {
    seq(|t|, i requires 0 <= i < |t| => Shown(t[i]))
  }

  lemma ShownConcat(a: seq<Event>, b: seq<Event>)
    ensures AllShown(a + b) == AllShown(a) + AllShown(b)
  {
  }

  lemma PostsShown(t: seq<Event>, t': seq<Event>, point: nat, fs: seq<Filter>)
    requires IsPosts(t, point, fs) && IsPosts(t', point, fs) && PostOrder(point)
    ensures AllShown(t) == AllShown(t')
  {
  }

  lemma BracketShown(t: seq<Event>, t': seq<Event>, point: nat, fs: seq<Filter>, level: Level, level': Level)
    requires Bracket(t, point, fs, level) && Bracket(t', point, fs, level') && !PostOrder(point)
    requires level.e == level'.e && AllShown(level.inner) == AllShown(level'.inner)
    ensures AllShown(t) == AllShown(t')
  {
    var pres := Pres(point, fs, level.e);
    ShownConcat(pres + level.inner, level.posts);
    ShownConcat(pres + level'.inner, level'.posts);
    ShownConcat(pres, level.inner);
    ShownConcat(pres, level'.inner);
    PostsShown(level.posts, level'.posts, point + 1, Reverse(fs[..level.e]));
  }

  /**
    * Two calls with the same answers on contexts that begin alike, one blocking and one through futures, run the
    * same hooks in the same order, with the same pre hooks rejecting and the same transport, although they set the
    * context's status at different moments and post hooks may see the difference.
    */
  lemma SameHooks(env: Environment, ok: bool, t: seq<Event>, t': seq<Event>, rpc: seq<Filter>, msg: seq<Filter>)
    requires IsCall(env, ok, t, rpc, msg) && IsCall(env, ok, t', rpc, msg)
    ensures AllShown(t) == AllShown(t')
  {
    var outer, inner :| Nested(env, ok, t, rpc, msg, outer, inner);
    var outer', inner' :| Nested(env, ok, t', rpc, msg, outer', inner');
    if outer.e == |rpc| {
      InnerShown(env, ok, outer.inner, outer'.inner, rpc, msg, inner, inner');
    }
    BracketShown(t, t', PRE_RPC_INVOKE, rpc, outer, outer');
  }

  lemma InnerShown(env: Environment, ok: bool, t: seq<Event>, t': seq<Event>, rpc: seq<Filter>, msg: seq<Filter>,
                   level: Level, level': Level)
    requires IsInner(env, ok, t, rpc, msg, level) && IsInner(env, ok, t', rpc, msg, level')
    ensures AllShown(t) == AllShown(t')
  {
    var before := Pres(PRE_RPC_INVOKE, rpc, |rpc|);
    if env.fillRequest(before) && env.timeLeft(before) {
      BracketShown(t, t', PRE_SEND_MSG, msg, level, level');
    }
  }

  // ---------------------------------------------------------------------------------------------
  // What the caller is told

  datatype Form = Blocking | Futures

  /** Whether the context's status is OK when the post hooks of the message level begin, `pre` having happened and left
      it `ok`. The blocking form has set a failure of the transport by then, the other one will do so after them. */
  predicate OkInside(form: Form, env: Environment, pre: seq<Event>, ok: bool, fs: seq<Filter>, e: nat) {
    if e < |fs| then ok
    else if !env.encode(pre) then false
    else ok && (form == Blocking ==> env.transport(pre + [Transport]))
  }

  /** Whether it is OK after the message level. */
  function MessageOk(form: Form, env: Environment, before: seq<Event>, ok: bool, fs: seq<Filter>, level: Level): bool {
    if !env.timeLeft(before) || level.e > |fs| then false
    else
      var pre, ok' := before + Pres(PRE_SEND_MSG, fs, level.e), OkAfter(env, before, ok, PRE_SEND_MSG, fs);
      && OkThrough(env, pre + level.inner, OkInside(form, env, pre, ok', fs, level.e), level.posts)
      && (form == Futures && level.inner == [Transport] ==> env.transport(pre + [Transport]))
  }

  /** The same before the post hooks of the RPC level, once its pre hooks accepted. */
  function InnerOk(form: Form, env: Environment, before: seq<Event>, ok: bool, t: seq<Event>, msg: seq<Filter>,
                   level: Level): bool {
    && env.fillRequest(before) && MessageOk(form, env, before, ok, msg, level)
    && (form == Blocking || Sent(env, before, t, msg, level) ==> env.fillResponse(before + t))
  }

  /** The same after the whole call. */
  function CallOk(form: Form, env: Environment, ok: bool, rpc: seq<Filter>, msg: seq<Filter>, outer: Level,
                  inner: Level): bool
    requires outer.e <= |rpc|
  {
    var pre, ok' := Pres(PRE_RPC_INVOKE, rpc, outer.e), OkAfter(env, [], ok, PRE_RPC_INVOKE, rpc);
    OkThrough(env, pre + outer.inner,
              if outer.e < |rpc| then ok' else InnerOk(form, env, pre, ok', outer.inner, msg, inner), outer.posts)
  }

  /** The call through futures has a response. */
  predicate Delivered(env: Environment, rpc: seq<Filter>, msg: seq<Filter>, outer: Level, inner: Level) {
    var before := Pres(PRE_RPC_INVOKE, rpc, |rpc|);
    && outer.e == |rpc| && env.fillRequest(before) && Sent(env, before, outer.inner, msg, inner)
    && env.fillResponse(before + outer.inner)
  }

  /** All that was asked of the codec, the timeout and the transport was answered well, each at its place. */
  predicate AllWell(form: Form, env: Environment, rpc: seq<Filter>, msg: seq<Filter>, outer: Level, inner: Level) {
    outer.e == |rpc| ==>
      var before := Pres(PRE_RPC_INVOKE, rpc, |rpc|);
      var pre := before + Pres(PRE_SEND_MSG, msg, |msg|);
      && env.fillRequest(before) && env.timeLeft(before)
      && (inner.e == |msg| ==> env.encode(pre) && env.transport(pre + [Transport]))
      && (form == Blocking || inner.e == |msg| ==> env.fillResponse(before + outer.inner))
  }

  /** No hook touches the context's status. */
  ghost predicate Quiet(env: Environment) {
    forall t, b :: env.contextOk(t, b) == b
  }

  lemma {:induction false} QuietThrough(env: Environment, before: seq<Event>, ok: bool, ran: seq<Event>)
    requires Quiet(env)
    ensures OkThrough(env, before, ok, ran) == ok
  {
    if ran != [] { QuietThrough(env, before, ok, ran[..|ran| - 1]); }
  }

  lemma QuietAfter(env: Environment, before: seq<Event>, ok: bool, point: nat, fs: seq<Filter>)
    requires Quiet(env)
    ensures OkAfter(env, before, ok, point, fs) == ok
  {
    OkAfterPres(env, before, ok, point, fs);
    QuietThrough(env, before, ok, Pres(point, fs, Accepted(env, before, ok, point, fs)));
  }

  /** The transport of a message level ran and succeeded exactly if there was time, all filters accepted, and encoding
      and the transport worked. */
  lemma SentIff(env: Environment, before: seq<Event>, ok: bool, t: seq<Event>, fs: seq<Filter>, level: Level)
    requires IsMessage(env, before, ok, t, fs, level)
    ensures var pre := before + Pres(PRE_SEND_MSG, fs, |fs|);
            Sent(env, before, t, fs, level) <==>
            env.timeLeft(before) && level.e == |fs| && env.encode(pre) && env.transport(pre + [Transport])
  {
    if env.timeLeft(before) && level.inner == [Transport] {
      assert t[|Pres(PRE_SEND_MSG, fs, level.e)|] == Transport;
    }
  }

  lemma QuietMessage(form: Form, env: Environment, before: seq<Event>, ok: bool, t: seq<Event>, fs: seq<Filter>,
                     level: Level)
    requires Quiet(env) && IsMessage(env, before, ok, t, fs, level)
    ensures var pre := before + Pres(PRE_SEND_MSG, fs, |fs|);
            MessageOk(form, env, before, ok, fs, level) <==>
            ok && env.timeLeft(before) && (level.e == |fs| ==> env.encode(pre) && env.transport(pre + [Transport]))
  {
    QuietAfter(env, before, ok, PRE_SEND_MSG, fs);
    if env.timeLeft(before) {
      var pre := before + Pres(PRE_SEND_MSG, fs, level.e);
      QuietThrough(env, pre + level.inner, true, level.posts);
      QuietThrough(env, pre + level.inner, false, level.posts);
    }
  }

  /** If no hook touches it, the status is OK at the end if and only if it was at the beginning and all went well. */
  lemma QuietCallOk(form: Form, env: Environment, ok: bool, t: seq<Event>, rpc: seq<Filter>, msg: seq<Filter>,
                    outer: Level, inner: Level)
    requires Quiet(env) && Nested(env, ok, t, rpc, msg, outer, inner)
    ensures CallOk(form, env, ok, rpc, msg, outer, inner) <==> ok && AllWell(form, env, rpc, msg, outer, inner)
  {
    var before := Pres(PRE_RPC_INVOKE, rpc, outer.e);
    QuietAfter(env, [], ok, PRE_RPC_INVOKE, rpc);
    QuietThrough(env, before + outer.inner, ok, outer.posts);
    QuietThrough(env, before + outer.inner, false, outer.posts);
    if outer.e == |rpc| && env.fillRequest(before) {
      QuietMessage(form, env, before, ok, outer.inner, msg, inner);
      SentIff(env, before, ok, outer.inner, msg, inner);
    }
  }

  /** The call through futures delivers a response if and only if all filters accepted and all went well, whatever the
      hooks do to the status. */
  lemma DeliveredIff(env: Environment, ok: bool, t: seq<Event>, rpc: seq<Filter>, msg: seq<Filter>, outer: Level,
                     inner: Level)
    requires Nested(env, ok, t, rpc, msg, outer, inner)
    ensures Delivered(env, rpc, msg, outer, inner) <==>
            outer.e == |rpc| && AllWell(Futures, env, rpc, msg, outer, inner) && inner.e == |msg|
  {
    var before := Pres(PRE_RPC_INVOKE, rpc, |rpc|);
    if outer.e == |rpc| && env.fillRequest(before) {
      SentIff(env, before, OkAfter(env, [], ok, PRE_RPC_INVOKE, rpc), outer.inner, msg, inner);
    }
  }

  /** No hook from place n on makes a status OK that is not. */
  ghost predicate NoRepair(env: Environment, t: seq<Event>, n: nat) {
    forall k :: n <= k < |t| && t[k].Hook? ==> !env.contextOk(t[..k + 1], false)
  }

  lemma {:induction false} StaysFailed(env: Environment, t: seq<Event>, before: seq<Event>, ran: seq<Event>,
                                       rest: seq<Event>)
    requires t == before + ran + rest && NoRepair(env, t, |before|) && forall i :: 0 <= i < |ran| ==> ran[i].Hook?
    ensures !OkThrough(env, before, false, ran)
    decreases |ran|
  {
    if ran != [] {
      var n := |ran| - 1;
      assert t[|before| + n] == ran[n];
      assert before + ran[..n] + ([ran[n]] + rest) == t;
      StaysFailed(env, t, before, ran[..n], [ran[n]] + rest);
      assert t[..|before| + |ran|] == before + ran;
    }
  }

  lemma NoRepairLater(env: Environment, t: seq<Event>, n: nat, m: nat)
    requires NoRepair(env, t, n) && n <= m
    ensures NoRepair(env, t, m)
  {
  }

  /** The message level met a failure when `n` events of the whole call, `t`, had happened. */
  predicate MessageFailedAt(form: Form, env: Environment, before: seq<Event>, fs: seq<Filter>, level: Level, n: nat) {
    var pre := before + Pres(PRE_SEND_MSG, fs, |fs|);
    if !env.timeLeft(before) then n == |before|
    else
      && level.e == |fs|
      && if !env.encode(pre) then n == |pre|
         else !env.transport(pre + [Transport]) && n == |pre| + 1 + if form == Futures then |level.posts| else 0
  }

  /** And the call. */
  predicate FailedAt(form: Form, env: Environment, rpc: seq<Filter>, msg: seq<Filter>, outer: Level, inner: Level,
                     n: nat) {
    var before := Pres(PRE_RPC_INVOKE, rpc, |rpc|);
    && outer.e == |rpc|
    && if !env.fillRequest(before) then n == |before|
       else
         || MessageFailedAt(form, env, before, msg, inner, n)
         || (&& (form == Blocking || Sent(env, before, outer.inner, msg, inner))
             && !env.fillResponse(before + outer.inner) && n == |before + outer.inner|)
  }

  lemma MessageFailureStays(form: Form, env: Environment, t: seq<Event>, before: seq<Event>, ok: bool, ran: seq<Event>,
                            rest: seq<Event>, fs: seq<Filter>, level: Level, n: nat)
    requires t == before + ran + rest && IsMessage(env, before, ok, ran, fs, level)
    requires MessageFailedAt(form, env, before, fs, level, n) && NoRepair(env, t, n)
    ensures !MessageOk(form, env, before, ok, fs, level) && n <= |before + ran|
  {
    if env.timeLeft(before) {
      var pre := before + Pres(PRE_SEND_MSG, fs, |fs|);
      assert t == pre + level.inner + level.posts + rest;
      if !env.encode(pre) || form == Blocking { StaysFailed(env, t, pre + level.inner, level.posts, rest); }
    }
  }

  /** A failure that no later hook repairs is reported. */
  lemma FailureIsReported(form: Form, env: Environment, ok: bool, t: seq<Event>, rpc: seq<Filter>, msg: seq<Filter>,
                          outer: Level, inner: Level, n: nat)
    requires Nested(env, ok, t, rpc, msg, outer, inner)
    requires FailedAt(form, env, rpc, msg, outer, inner, n) && NoRepair(env, t, n)
    ensures !CallOk(form, env, ok, rpc, msg, outer, inner)
  {
    var before, ok' := Pres(PRE_RPC_INVOKE, rpc, |rpc|), OkAfter(env, [], ok, PRE_RPC_INVOKE, rpc);
    if env.fillRequest(before) && MessageFailedAt(form, env, before, msg, inner, n) {
      MessageFailureStays(form, env, t, before, ok', outer.inner, outer.posts, msg, inner, n);
    }
    NoRepairLater(env, t, n, |before + outer.inner|);
    assert before + outer.inner + outer.posts + [] == t;
    StaysFailed(env, t, before + outer.inner, outer.posts, []);
  }

  /** Every filter accepts. */
  ghost predicate Accepting(env: Environment) {
    forall t, b, p, f :: env.hook(t, b, p, f) == Continue
  }

  lemma {:induction false} AllAccept(env: Environment, before: seq<Event>, ok: bool, point: nat, fs: seq<Filter>)
    requires Accepting(env)
    ensures Accepted(env, before, ok, point, fs) == |fs|
    decreases |fs|
  {
    if fs != [] {
      var t := before + [Hook(point, fs[0], Continue)];
      AllAccept(env, t, env.contextOk(t, ok), point, fs[1..]);
    }
  }

  /** With filters that accept and leave the status alone, a call that begins well is OK, and has its response, exactly
      if filling the request, the timeout, encoding, the transport and filling the response all answer well. */
  lemma PlainCall(env: Environment, t: seq<Event>, rpc: seq<Filter>, msg: seq<Filter>, outer: Level, inner: Level)
    requires Quiet(env) && Accepting(env) && Nested(env, true, t, rpc, msg, outer, inner)
    ensures var before := Pres(PRE_RPC_INVOKE, rpc, |rpc|);
            var pre := before + Pres(PRE_SEND_MSG, msg, |msg|);
            var well := env.fillRequest(before) && env.timeLeft(before) && env.encode(pre)
                        && env.transport(pre + [Transport]) && env.fillResponse(before + outer.inner);
            && (CallOk(Blocking, env, true, rpc, msg, outer, inner) <==> well)
            && (CallOk(Futures, env, true, rpc, msg, outer, inner) <==> well)
            && (Delivered(env, rpc, msg, outer, inner) <==> well)
  {
    var before := Pres(PRE_RPC_INVOKE, rpc, |rpc|);
    AllAccept(env, [], true, PRE_RPC_INVOKE, rpc);
    AllAccept(env, before, OkAfter(env, [], true, PRE_RPC_INVOKE, rpc), PRE_SEND_MSG, msg);
    QuietCallOk(Blocking, env, true, t, rpc, msg, outer, inner);
    QuietCallOk(Futures, env, true, t, rpc, msg, outer, inner);
    DeliveredIff(env, true, t, rpc, msg, outer, inner);
  }

  // ---------------------------------------------------------------------------------------------
  // The code

  /** What is saved after a pre phase on a fresh slot makes the post phase undo exactly the accepted hooks. */
  lemma PostsOfLevel(globals: Queues, services: Queues, p: nat, e: nat)
    requires WellFormed(globals) && WellFormed(services) && Mirrored(globals) && Mirrored(services)
    requires PrePoint(p) && e <= |globals[p]| + |services[p]|
    ensures var all := globals[p] + services[p];
            |globals[p + 1] + services[p + 1]| == |all| &&
            PostPart(globals[p + 1], services[p + 1], if e < |all| then e else -1) == Reverse(all[..e])
  {
    assert MirroredAt(globals, p) && MirroredAt(services, p);
    PostMirrorsPreIff(globals[p], services[p], e, -1);
  }

  /** The message level put together: `ok'` is what its pre hooks left, `ok''` what its post hooks did. */
  lemma MakeMessage(form: Form, env: Environment, before: seq<Event>, ok: bool, fs: seq<Filter>, inner: seq<Event>,
                    posts: seq<Event>, ok': bool, ok'': bool)
    requires var e := Accepted(env, before, ok, PRE_SEND_MSG, fs);
             var pre := before + Pres(PRE_SEND_MSG, fs, e);
             && env.timeLeft(before) && IsPosts(posts, PRE_SEND_MSG + 1, Reverse(fs[..e]))
             && inner == (if e == |fs| && env.encode(pre) then [Transport] else [])
             && ok' == OkInside(form, env, pre, OkAfter(env, before, ok, PRE_SEND_MSG, fs), fs, e)
             && ok'' == OkThrough(env, pre + inner, ok', posts)
    ensures var e := Accepted(env, before, ok, PRE_SEND_MSG, fs);
            var pre := before + Pres(PRE_SEND_MSG, fs, e);
            var t, level := Pres(PRE_SEND_MSG, fs, e) + inner + posts, Level(e, inner, posts);
            && IsMessage(env, before, ok, t, fs, level)
            && pre + inner + posts == before + t
            && (Sent(env, before, t, fs, level) <==> inner == [Transport] && env.transport(pre + [Transport]))
            && (MessageOk(form, env, before, ok, fs, level) <==>
                ok'' && (form == Futures && inner == [Transport] ==> env.transport(pre + [Transport])))
  {
    if inner == [Transport] { assert inner[0] in inner; }
  }

  lemma AppendNothing(t: seq<Event>)
    ensures t + [] == t && [] + t == t
  {
  }

  /** The two levels of a call put together: `ok'` is what was left when the post hooks began. */
  lemma MakeCall(form: Form, env: Environment, ok: bool, rpc: seq<Filter>, msg: seq<Filter>, inner: seq<Event>,
                 posts: seq<Event>, level: Level, ok': bool)
    requires var e := Accepted(env, [], ok, PRE_RPC_INVOKE, rpc);
             var pre, okPre := Pres(PRE_RPC_INVOKE, rpc, e), OkAfter(env, [], ok, PRE_RPC_INVOKE, rpc);
             && IsPosts(posts, PRE_RPC_INVOKE + 1, Reverse(rpc[..e])) && (e < |rpc| ==> inner == [])
             && (e == |rpc| ==> IsInner(env, ok, inner, rpc, msg, level))
             && ok' == if e < |rpc| then okPre else InnerOk(form, env, pre, okPre, inner, msg, level)
    ensures var e := Accepted(env, [], ok, PRE_RPC_INVOKE, rpc);
            var t := Pres(PRE_RPC_INVOKE, rpc, e) + inner + posts;
            && Nested(env, ok, t, rpc, msg, Level(e, inner, posts), level) && Balanced(t)
            && CallOk(form, env, ok, rpc, msg, Level(e, inner, posts), level) ==
               OkThrough(env, Pres(PRE_RPC_INVOKE, rpc, e) + inner, ok', posts)
  {
    var e := Accepted(env, [], ok, PRE_RPC_INVOKE, rpc);
    var t := Pres(PRE_RPC_INVOKE, rpc, e) + inner + posts;
    assert Nested(env, ok, t, rpc, msg, Level(e, inner, posts), level);
    CallsAreBalanced(env, ok, t, rpc, msg);
  }

  class ServiceProxy {
    const filters: FilterController

    constructor (filters: FilterController)
      ensures this.filters == filters
    {
      this.filters := filters;
    }

    /** The filters were registered with paired points, and an int can count them. */
    ghost predicate Ready()
      reads this, filters, filters.manager
    {
      && filters.Valid() && Mirrored(filters.queues) && Mirrored(filters.manager.queues)
      && |filters.Chain(PRE_RPC_INVOKE)| <= 0x7fff_ffff && |filters.Chain(PRE_SEND_MSG)| <= 0x7fff_ffff
    }

    /** Run the post hooks of a level whose pre phase accepted `e` filters. */
    method Close(point: nat, context: Context, env: Environment, ghost e: nat) returns (ghost posts: seq<Event>)
      requires Ready() && context.Valid() && Answered(env, context.trace)
      requires point == PRE_RPC_INVOKE || point == PRE_SEND_MSG
      requires e <= |filters.Chain(point)|
                 && context.execIndex[point / 2] == if e < |filters.Chain(point)| then e else -1
      modifies context`ok, context`trace
      ensures context.Valid() && Answered(env, context.trace) && context.trace == old(context.trace) + posts
      ensures IsPosts(posts, point + 1, Reverse(filters.Chain(point)[..e]))
      ensures context.ok == OkThrough(env, old(context.trace), old(context.ok), posts)
    {
      assert Masked(point) == point && Masked(point + 1) == point + 1 && !PostOrder(point);
      PostsOfLevel(filters.manager.queues, filters.queues, point, e);
      assert (point + 1) / 2 == point / 2;
      var status;
      status, posts := filters.RunPost(point + 1, context, env);
    }

    method UnaryTransportInvoke(context: Context, env: Environment) returns (ghost ran: seq<Event>)
      requires context.Valid() && Answered(env, context.trace)
      modifies context`ok, context`trace
      ensures Answered(env, context.trace) && context.trace == old(context.trace) + ran
      ensures ran == if env.encode(old(context.trace)) then [Transport] else []
      ensures context.ok <==> old(context.ok) && ran == [Transport] && env.transport(old(context.trace) + [Transport])
    {
      if !env.encode(context.trace) {
        context.ok := false;
        return [];
      }
      AnsweredNext(env, context.trace, context.ok, Transport);
      context.trace, ran := context.trace + [Transport], [Transport];
      if !env.transport(context.trace) {
        context.ok := false;
      }
    }

    /** The message level of the blocking call. */
    method MessageInvoke(context: Context, env: Environment)
      returns (aborted: bool, ghost ran: seq<Event>, ghost level: Level)
      requires Ready() && context.Valid() && Answered(env, context.trace) && context.execIndex[1] == -1
      modifies context
      ensures context.Valid() && Answered(env, context.trace) && context.execIndex[0] == old(context.execIndex[0])
      ensures aborted <==> MessageAborts(env, old(context.trace), old(context.ok), filters.Chain(PRE_SEND_MSG))
      ensures !aborted ==> context.trace == old(context.trace) + ran
      ensures !aborted ==>
                IsMessage(env, old(context.trace), old(context.ok), ran, filters.Chain(PRE_SEND_MSG), level)
      ensures !aborted ==>
                context.ok ==
                MessageOk(Blocking, env, old(context.trace), old(context.ok), filters.Chain(PRE_SEND_MSG), level)
    {
      aborted, ran, level := false, [], Level(0, [], []);
      if !env.timeLeft(context.trace) {
        context.ok := false;
        return;
      }
      ghost var inner: seq<Event> := [];
      var status;
      ghost var e;
      status, aborted, e := filters.RunPre(PRE_SEND_MSG, context, env);
      if aborted {
        return;
      }
      ghost var msg := filters.Chain(PRE_SEND_MSG);
      AppendNothing(context.trace);
      if status == Continue {
        inner := UnaryTransportInvoke(context, env);
      }
      ghost var ok' := context.ok;
      ghost var posts := Close(PRE_SEND_MSG, context, env, e);
      MakeMessage(Blocking, env, old(context.trace), old(context.ok), msg, inner, posts, ok', context.ok);
      level, ran := Level(e, inner, posts), Pres(PRE_SEND_MSG, msg, e) + inner + posts;
    }

    method UnaryInvokeImp(context: Context, env: Environment)
      returns (aborted: bool, ghost ran: seq<Event>, ghost level: Level)
      requires Ready() && context.Valid() && Answered(env, context.trace) && context.execIndex[1] == -1
      modifies context
      ensures context.Valid() && Answered(env, context.trace) && context.execIndex[0] == old(context.execIndex[0])
      ensures aborted <==> env.fillRequest(old(context.trace)) &&
                           MessageAborts(env, old(context.trace), old(context.ok), filters.Chain(PRE_SEND_MSG))
      ensures !aborted ==> context.trace == old(context.trace) + ran
      ensures !aborted ==>
                if env.fillRequest(old(context.trace))
                then IsMessage(env, old(context.trace), old(context.ok), ran, filters.Chain(PRE_SEND_MSG), level)
                else ran == []
      ensures !aborted ==>
                context.ok == InnerOk(Blocking, env, old(context.trace), old(context.ok), ran,
                                      filters.Chain(PRE_SEND_MSG), level)
    {
      if !env.fillRequest(context.trace) {
        context.ok := false;
        return false, [], Level(0, [], []);
      }
      aborted, ran, level := MessageInvoke(context, env);
      if !aborted && context.ok && !env.fillResponse(context.trace) {
        context.ok := false;
      }
    }

    /** The blocking call. */
    method UnaryInvoke(context: Context, env: Environment)
      returns (aborted: bool, ok: bool, ghost outer: Level, ghost inner: Level)
      requires Ready() && context.Fresh()
      modifies context
      ensures aborted <==>
                env.typed && CallAborts(env, old(context.ok), filters.Chain(PRE_RPC_INVOKE),
                    filters.Chain(PRE_SEND_MSG))
      ensures Answered(env, context.trace)
      ensures !env.typed ==> context.trace == [] && !ok
      ensures env.typed && !aborted ==>
                && Nested(env, old(context.ok), context.trace, filters.Chain(PRE_RPC_INVOKE),
                          filters.Chain(PRE_SEND_MSG), outer, inner)
                && ok == CallOk(Blocking, env, old(context.ok), filters.Chain(PRE_RPC_INVOKE),
                                filters.Chain(PRE_SEND_MSG), outer, inner)
      ensures !aborted ==> Balanced(context.trace) && context.ok == ok
    {
      outer, inner := Level(0, [], []), Level(0, [], []);
      if !env.typed {
        context.ok := false;
        aborted, ok := false, context.ok;
        return;
      }
      ghost var rpc, msg := filters.Chain(PRE_RPC_INVOKE), filters.Chain(PRE_SEND_MSG);
      ghost var middle: seq<Event> := [];
      ok := false;
      var status;
      ghost var e;
      status, aborted, e := filters.RunPre(PRE_RPC_INVOKE, context, env);
      AppendNothing(Pres(PRE_RPC_INVOKE, rpc, e));
      if aborted {
        return;
      }
      if status == Continue {
        aborted, middle, inner := UnaryInvokeImp(context, env);
        if aborted {
          return;
        }
      }
      ghost var ok' := context.ok;
      ghost var posts := Close(PRE_RPC_INVOKE, context, env, e);
      assert context.trace == Pres(PRE_RPC_INVOKE, rpc, e) + middle + posts;
      MakeCall(Blocking, env, old(context.ok), rpc, msg, middle, posts, inner, ok');
      outer := Level(e, middle, posts);
      ok := context.ok;
    }

    /** Encode and send; the post hooks of the message level run here, in the transport's continuation. */
    method AsyncUnaryTransportInvoke(context: Context, env: Environment)
      returns (ready: bool, ghost inner: seq<Event>, ghost posts: seq<Event>)
      requires Ready() && context.Valid() && Answered(env, context.trace) && context.execIndex[1] == -1
      modifies context`ok, context`trace
      ensures Answered(env, context.trace) && context.trace == old(context.trace) + inner + posts
      ensures inner == if env.encode(old(context.trace)) then [Transport] else []
      ensures IsPosts(posts, POST_RECV_MSG, Reverse(filters.Chain(PRE_SEND_MSG)))
      ensures ready <==> inner == [Transport] && env.transport(old(context.trace) + [Transport])
      ensures context.ok == if inner == [] then OkThrough(env, old(context.trace), false, posts)
                            else OkThrough(env, old(context.trace) + [Transport], old(context.ok), posts) && ready
    {
      ghost var msg := filters.Chain(PRE_SEND_MSG);
      assert msg[..|msg|] == msg;
      if !env.encode(context.trace) {
        context.ok := false;
        posts := Close(PRE_SEND_MSG, context, env, |msg|);
        return false, [], posts;
      }
      AnsweredNext(env, context.trace, context.ok, Transport);
      context.trace := context.trace + [Transport];
      ready, inner := env.transport(context.trace), [Transport];
      posts := Close(PRE_SEND_MSG, context, env, |msg|);
      if !ready {
        context.ok := false;
      }
    }

    /** The message level of the call through futures. */
    method AsyncMessageInvoke(context: Context, env: Environment)
      returns (aborted: bool, ready: bool, ghost ran: seq<Event>, ghost level: Level)
      requires Ready() && context.Valid() && Answered(env, context.trace) && context.execIndex[1] == -1
      modifies context
      ensures context.Valid() && Answered(env, context.trace) && context.execIndex[0] == old(context.execIndex[0])
      ensures aborted <==> MessageAborts(env, old(context.trace), old(context.ok), filters.Chain(PRE_SEND_MSG))
      ensures !aborted ==> context.trace == old(context.trace) + ran
      ensures !aborted ==>
                IsMessage(env, old(context.trace), old(context.ok), ran, filters.Chain(PRE_SEND_MSG), level)
      ensures !aborted ==> (ready <==> Sent(env, old(context.trace), ran, filters.Chain(PRE_SEND_MSG), level))
      ensures !aborted ==>
                context.ok ==
                MessageOk(Futures, env, old(context.trace), old(context.ok), filters.Chain(PRE_SEND_MSG), level)
    {
      aborted, ready, ran, level := false, false, [], Level(0, [], []);
      if !env.timeLeft(context.trace) {
        context.ok := false;
        return;
      }
      ghost var msg := filters.Chain(PRE_SEND_MSG);
      ghost var inner: seq<Event>, posts := [], [];
      var status;
      ghost var e;
      status, aborted, e := filters.RunPre(PRE_SEND_MSG, context, env);
      if aborted {
        return;
      }
      ghost var pre, ok' := context.trace, OkInside(Futures, env, context.trace, context.ok, msg, e);
      AppendNothing(pre);
      if status == Continue {
        ready, inner, posts := AsyncUnaryTransportInvoke(context, env);
        assert msg[..e] == msg;
      } else {
        posts := Close(PRE_SEND_MSG, context, env, e);
      }
      MakeMessage(Futures, env, old(context.trace), old(context.ok), msg, inner, posts, ok',
                  OkThrough(env, pre + inner, ok', posts));
      level, ran := Level(e, inner, posts), Pres(PRE_SEND_MSG, msg, e) + inner + posts;
    }

    /** Once the RPC level accepted the call; its post hooks run here, on each of the four ways out. */
    method AsyncUnaryInvokeImp(context: Context, env: Environment)
      returns (aborted: bool, ready: bool, ghost ran: seq<Event>, ghost level: Level, ghost posts: seq<Event>)
      requires Ready() && context.Valid() && Answered(env, context.trace)
      requires context.execIndex[0] == context.execIndex[1] == -1
      modifies context
      ensures Answered(env, context.trace)
      ensures aborted <==> env.fillRequest(old(context.trace)) &&
                           MessageAborts(env, old(context.trace), old(context.ok), filters.Chain(PRE_SEND_MSG))
      ensures !aborted ==> context.trace == old(context.trace) + ran + posts
      ensures !aborted ==>
                if env.fillRequest(old(context.trace))
                then IsMessage(env, old(context.trace), old(context.ok), ran, filters.Chain(PRE_SEND_MSG), level)
                else ran == []
      ensures !aborted ==> IsPosts(posts, POST_RPC_INVOKE, Reverse(filters.Chain(PRE_RPC_INVOKE)))
      ensures !aborted ==>
                (ready <==> env.fillRequest(old(context.trace)) && env.fillResponse(old(context.trace) + ran)
                            && Sent(env, old(context.trace), ran, filters.Chain(PRE_SEND_MSG), level))
      ensures !aborted ==>
                var ok := InnerOk(Futures, env, old(context.trace), old(context.ok), ran, filters.Chain(PRE_SEND_MSG),
                                  level);
                context.ok == OkThrough(env, old(context.trace) + ran, ok, posts)
    {
      ghost var rpc := filters.Chain(PRE_RPC_INVOKE);
      assert rpc[..|rpc|] == rpc;
      aborted, ready, ran, level, posts := false, false, [], Level(0, [], []), [];
      AppendNothing(context.trace);
      if !env.fillRequest(context.trace) {
        context.ok := false;
        posts := Close(PRE_RPC_INVOKE, context, env, |rpc|);
        return;
      }
      aborted, ready, ran, level := AsyncMessageInvoke(context, env);
      if aborted {
        return;
      }
      if !ready {
        posts := Close(PRE_RPC_INVOKE, context, env, |rpc|);
        return;
      }
      if !env.fillResponse(context.trace) {
        context.ok := false;
        posts := Close(PRE_RPC_INVOKE, context, env, |rpc|);
        ready := false;
        return;
      }
      posts := Close(PRE_RPC_INVOKE, context, env, |rpc|);
    }

    /** The call through futures. */
    method AsyncUnaryInvoke(context: Context, env: Environment)
      returns (aborted: bool, ready: bool, ghost outer: Level, ghost inner: Level)
      requires Ready() && context.Fresh()
      modifies context
      ensures aborted <==>
                env.typed && CallAborts(env, old(context.ok), filters.Chain(PRE_RPC_INVOKE),
                    filters.Chain(PRE_SEND_MSG))
      ensures Answered(env, context.trace)
      ensures !env.typed ==> context.trace == [] && !ready && !context.ok
      ensures env.typed && !aborted ==>
                && Nested(env, old(context.ok), context.trace, filters.Chain(PRE_RPC_INVOKE),
                          filters.Chain(PRE_SEND_MSG), outer, inner)
                && (ready <==> Delivered(env, filters.Chain(PRE_RPC_INVOKE), filters.Chain(PRE_SEND_MSG), outer, inner))
                && context.ok == CallOk(Futures, env, old(context.ok), filters.Chain(PRE_RPC_INVOKE),
                                        filters.Chain(PRE_SEND_MSG), outer, inner)
      ensures !aborted ==> Balanced(context.trace)
    {
      outer, inner := Level(0, [], []), Level(0, [], []);
      aborted, ready := false, false;
      if !env.typed {
        context.ok := false;
        return;
      }
      ghost var rpc, msg := filters.Chain(PRE_RPC_INVOKE), filters.Chain(PRE_SEND_MSG);
      ghost var middle: seq<Event>, posts := [], [];
      var status;
      ghost var e;
      status, aborted, e := filters.RunPre(PRE_RPC_INVOKE, context, env);
      AppendNothing(Pres(PRE_RPC_INVOKE, rpc, e));
      if aborted {
        return;
      }
      ghost var ok' := context.ok;
      if status == Continue {
        aborted, ready, middle, inner, posts := AsyncUnaryInvokeImp(context, env);
        if aborted {
          return;
        }
        assert rpc[..e] == rpc;
        ok' := InnerOk(Futures, env, Pres(PRE_RPC_INVOKE, rpc, e), ok', middle, msg, inner);
      } else {
        posts := Close(PRE_RPC_INVOKE, context, env, e);
      }
      assert context.trace == Pres(PRE_RPC_INVOKE, rpc, e) + middle + posts;
      MakeCall(Futures, env, old(context.ok), rpc, msg, middle, posts, inner, ok');
      outer := Level(e, middle, posts);
    }
  }
}
