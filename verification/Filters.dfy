/** Filters, their points and the queues they are kept in, one queue per point. */
module FilterQueues {
  import opened Common

  /** A filter with the points it asks to be run at. */
  datatype Filter = Filter(name: string, points: seq<nat>)

  /** Points come in pairs (2k, 2k + 1), a pre point and its post point; server points carry the prefix 0x80. */
  const K_FILTER_TYPE_NUM := 10

  /** The queue of a point: the point without the server prefix. */
  function Masked(point: nat): nat {
    point % 0x80
  }

  predicate PostOrder(point: nat) {
    point % 2 == 1
  }

  function MatchPoint(point: nat): nat {
    if point % 2 == 0 then point + 1 else point - 1
  }

  type Queues = seq<seq<Filter>>

  predicate WellFormed(qs: Queues) {
    |qs| == K_FILTER_TYPE_NUM
  }

  predicate PointsExist(f: Filter) {
    forall i :: 0 <= i < |f.points| ==> Masked(f.points[i]) < K_FILTER_TYPE_NUM
  }

  function Reverse<T>(s: seq<T>): seq<T> {
    seq(|s|, i requires 0 <= i < |s| => s[|s| - 1 - i])
  }

  predicate PrePoint(p: nat) {
    p + 1 < K_FILTER_TYPE_NUM && !PostOrder(p)
  }

  /** The queue of a post point is that of its pre point, turned around. */
  predicate MirroredAt(qs: Queues, p: nat)
    requires WellFormed(qs) && PrePoint(p)
  {
    qs[p + 1] == Reverse(qs[p])
  }

  ghost predicate Mirrored(qs: Queues)
    requires WellFormed(qs)
  {
    forall p :: PrePoint(p) ==> MirroredAt(qs, p)
  }

  /** Push `f` at point `p`: to the back of a pre queue, to the front of a post queue. */
  function PushAt(qs: Queues, f: Filter, p: nat): Queues
    requires WellFormed(qs) && p < K_FILTER_TYPE_NUM
  {
    qs[p := if PostOrder(p) then [f] + qs[p] else qs[p] + [f]]
  }

  /** The queues once `f` was pushed at its first n points. */
  function Pushed(qs: Queues, f: Filter, n: nat): (r: Queues)
    requires WellFormed(qs) && PointsExist(f) && n <= |f.points|
    ensures WellFormed(r)
  {
    if n == 0 then qs else PushAt(Pushed(qs, f, n - 1), f, Masked(f.points[n - 1]))
  }

  // ---------------------------------------------------------------------------------------------
  // When the mirror holds

  /** How often queue `p` is among the first n points of `f`. */
  function Times(f: Filter, p: nat, n: nat): nat
    requires n <= |f.points|
  {
    if n == 0 then 0 else Times(f, p, n - 1) + (if Masked(f.points[n - 1]) == p then 1 else 0)
  }

  function Copies(f: Filter, n: nat): seq<Filter> {
    seq(n, _ => f)
  }

  lemma {:induction false} PushedQueue(qs: Queues, f: Filter, n: nat, p: nat)
    requires WellFormed(qs) && PointsExist(f) && n <= |f.points| && p < K_FILTER_TYPE_NUM
    ensures var copies := Copies(f, Times(f, p, n));
            Pushed(qs, f, n)[p] == if PostOrder(p) then copies + qs[p] else qs[p] + copies
  {
    if n > 0 {
      PushedQueue(qs, f, n - 1, p);
      if Masked(f.points[n - 1]) == p {
        var k := Times(f, p, n - 1);
        assert Copies(f, k + 1) == [f] + Copies(f, k) == Copies(f, k) + [f];
        assert [f] + (Copies(f, k) + qs[p]) == ([f] + Copies(f, k)) + qs[p];
        assert (qs[p] + Copies(f, k)) + [f] == qs[p] + (Copies(f, k) + [f]);
      }
    }
  }

  /** Pre point `p` is asked for as often as its post point. */
  predicate PairedAt(f: Filter, p: nat) {
    Times(f, p, |f.points|) == Times(f, p + 1, |f.points|)
  }

  ghost predicate Paired(f: Filter) {
    forall p :: PrePoint(p) ==> PairedAt(f, p)
  }

  /** Copies at the back of a queue and at the front of its mirror image mirror each other if they are as many. */
  lemma CopiesMirror(q: seq<Filter>, f: Filter, a: nat, b: nat)
    ensures Copies(f, b) + Reverse(q) == Reverse(q + Copies(f, a)) <==> a == b
  {
    var l, r := Copies(f, b) + Reverse(q), Reverse(q + Copies(f, a));
    assert |l| == b + |q| && |r| == |q| + a;
    if a == b {
      forall i | 0 <= i < |l| ensures l[i] == r[i] {
        assert r[i] == (q + Copies(f, a))[|r| - 1 - i];
      }
    }
  }

  lemma MirrorParts(q: seq<Filter>, pre: seq<Filter>, post: seq<Filter>, f: Filter, a: nat, b: nat)
    requires pre == q + Copies(f, a) && post == Copies(f, b) + Reverse(q)
    ensures post == Reverse(pre) <==> a == b
  {
    CopiesMirror(q, f, a, b);
  }

  lemma PrePushed(qs: Queues, f: Filter, n: nat, p: nat)
    requires WellFormed(qs) && PointsExist(f) && n <= |f.points| && p < K_FILTER_TYPE_NUM && !PostOrder(p)
    ensures Pushed(qs, f, n)[p] == qs[p] + Copies(f, Times(f, p, n))
  {
    PushedQueue(qs, f, n, p);
  }

  lemma PostPushed(qs: Queues, f: Filter, n: nat, p: nat)
    requires WellFormed(qs) && PointsExist(f) && n <= |f.points| && p < K_FILTER_TYPE_NUM && PostOrder(p)
    ensures Pushed(qs, f, n)[p] == Copies(f, Times(f, p, n)) + qs[p]
  {
    PushedQueue(qs, f, n, p);
  }

  lemma MirrorAt(qs: Queues, f: Filter, p: nat)
    requires WellFormed(qs) && PointsExist(f) && PrePoint(p) && MirroredAt(qs, p)
    ensures MirroredAt(Pushed(qs, f, |f.points|), p) <==> PairedAt(f, p)
  {
    var n := |f.points|;
    PrePushed(qs, f, n, p);
    PostPushed(qs, f, n, p + 1);
    MirrorParts(qs[p], Pushed(qs, f, n)[p], Pushed(qs, f, n)[p + 1], f, Times(f, p, n), Times(f, p + 1, n));
  }

  /** Adding a filter keeps the queues mirrored if and only if its points are paired. */
  lemma MirrorIff(qs: Queues, f: Filter)
    requires WellFormed(qs) && PointsExist(f) && Mirrored(qs)
    ensures Mirrored(Pushed(qs, f, |f.points|)) <==> Paired(f)
  {
    forall p | PrePoint(p) ensures MirroredAt(Pushed(qs, f, |f.points|), p) <==> PairedAt(f, p) {
      MirrorAt(qs, f, p);
    }
  }

  predicate HasMatch(points: seq<nat>, i: nat)
    requires i < |points|
  {
    MatchPoint(points[i]) in points
  }

  /** The points CheckMatchPoints lets pass: each with its match among them. */
  predicate Matching(points: seq<nat>) {
    forall i :: 0 <= i < |points| ==> HasMatch(points, i)
  }

  predicate NoRepeats(points: seq<nat>) {
    forall i, j :: 0 <= i < j < |points| ==> Masked(points[i]) != Masked(points[j])
  }

  /** Queue `p` is among the first n points of `f`. */
  predicate Among(f: Filter, p: nat, n: nat)
    requires n <= |f.points|
  {
    exists i :: 0 <= i < n && Masked(f.points[i]) == p
  }

  lemma {:induction false} TimesWithoutRepeats(f: Filter, p: nat, n: nat)
    requires n <= |f.points| && NoRepeats(f.points)
    ensures Times(f, p, n) == if Among(f, p, n) then 1 else 0
  {
    if n > 0 {
      TimesWithoutRepeats(f, p, n - 1);
      assert Among(f, p, n) <==> Among(f, p, n - 1) || Masked(f.points[n - 1]) == p;
    }
  }

  lemma Remainder(q: nat, r: nat)
    requires r < 0x80
    ensures (q * 0x80 + r) % 0x80 == r
  {
  }

  lemma MaskedMatch(point: nat)
    ensures Masked(MatchPoint(point)) == MatchPoint(Masked(point))
  {
    var q, r := point / 0x80, Masked(point);
    assert point == q * 0x80 + r;
    assert point % 2 == r % 2 by {
      assert point == 2 * (q * 0x40) + r;
      LowBit(q * 0x40, r);
    }
    if r % 2 == 0 {
      assert r + 1 < 0x80;
      Remainder(q, r + 1);
    } else {
      Remainder(q, r - 1);
    }
  }

  lemma MatchAmong(f: Filter, p: nat)
    requires Matching(f.points) && Among(f, p, |f.points|)
    ensures Among(f, MatchPoint(p), |f.points|)
  {
    var i :| 0 <= i < |f.points| && Masked(f.points[i]) == p;
    MaskedMatch(f.points[i]);
    assert HasMatch(f.points, i);
    var j :| 0 <= j < |f.points| && f.points[j] == MatchPoint(f.points[i]);
    assert Masked(f.points[j]) == MatchPoint(p);
  }

  lemma CheckedPairedAt(f: Filter, p: nat)
    requires Matching(f.points) && NoRepeats(f.points) && !PostOrder(p)
    ensures PairedAt(f, p)
  {
    TimesWithoutRepeats(f, p, |f.points|);
    TimesWithoutRepeats(f, p + 1, |f.points|);
    if Among(f, p, |f.points|) { MatchAmong(f, p); }
    if Among(f, p + 1, |f.points|) { MatchAmong(f, p + 1); }
  }

  /** Points that pass CheckMatchPoints and do not repeat are paired. */
  lemma CheckedPointsArePaired(f: Filter)
    requires Matching(f.points) && NoRepeats(f.points)
    ensures Paired(f)
  {
    forall p | PrePoint(p) ensures PairedAt(f, p) { CheckedPairedAt(f, p); }
  }

  lemma TimesOfRepeated(f: Filter)
    requires f.points == [0, 0, 1]
    ensures Times(f, 0, 3) == 2 && Times(f, 1, 3) == 1
  {
    assert Times(f, 0, 0) == 0 && Times(f, 1, 0) == 0;
    assert Times(f, 0, 1) == 1 && Times(f, 1, 1) == 0;
    assert Times(f, 0, 2) == 2 && Times(f, 1, 2) == 0;
  }

  /** A repeated point passes CheckMatchPoints and breaks the mirror. */
  lemma RepeatedPointBreaksMirror(qs: Queues, name: string)
    requires WellFormed(qs) && Mirrored(qs)
    ensures var f := Filter(name, [0, 0, 1]); Matching(f.points) && PointsExist(f) && !Mirrored(Pushed(qs, f, 3))
  {
    var f := Filter(name, [0, 0, 1]);
    assert f.points[0] == f.points[1] == 0 && f.points[2] == 1;
    assert MatchPoint(0) == 1 && MatchPoint(1) == 0;
    TimesOfRepeated(f);
    assert PrePoint(0) && !PairedAt(f, 0);
    MirrorIff(qs, f);
  }

  // ---------------------------------------------------------------------------------------------
  // Histories of registrations

  predicate HasName(q: seq<Filter>, name: string) {
    exists i :: 0 <= i < |q| && q[i].name == name
  }

  /** A filter is refused when its name is already in the queue of its first point. */
  predicate Refused(qs: Queues, f: Filter)
    requires WellFormed(qs) && PointsExist(f)
  {
    |f.points| > 0 && HasName(qs[Masked(f.points[0])], f.name)
  }

  function Added(qs: Queues, f: Filter): (r: Queues)
    requires WellFormed(qs) && PointsExist(f)
    ensures WellFormed(r)
  {
    if Refused(qs, f) then qs else Pushed(qs, f, |f.points|)
  }

  predicate AllExist(fs: seq<Filter>) {
    forall i :: 0 <= i < |fs| ==> PointsExist(fs[i])
  }

  function NoFilters(): (r: Queues)
    ensures WellFormed(r) && Mirrored(r)
  {
    seq(K_FILTER_TYPE_NUM, _ => [])
  }

  /** The queues of a manager or of a controller after n registrations, of which some were accepted and the others
      refused. */
  function History(fs: seq<Filter>, accepted: seq<bool>, n: nat): (r: Queues)
    requires AllExist(fs) && n <= |fs| == |accepted|
    ensures WellFormed(r)
  {
    if n == 0 then NoFilters()
    else if accepted[n - 1] then Pushed(History(fs, accepted, n - 1), fs[n - 1], |fs[n - 1].points|)
    else History(fs, accepted, n - 1)
  }

  ghost predicate MirroredAfter(fs: seq<Filter>, accepted: seq<bool>, n: nat)
    requires AllExist(fs) && n <= |fs| == |accepted|
  {
    Mirrored(History(fs, accepted, n))
  }

  lemma {:induction false} HistoryMirrored(fs: seq<Filter>, accepted: seq<bool>, n: nat)
    requires AllExist(fs) && n <= |fs| == |accepted| && forall i :: 0 <= i < n && accepted[i] ==> Paired(fs[i])
    ensures MirroredAfter(fs, accepted, n)
  {
    if n > 0 {
      HistoryMirrored(fs, accepted, n - 1);
      MirrorIff(History(fs, accepted, n - 1), fs[n - 1]);
    }
  }

  /**
    * Whatever is accepted and refused, and why: over a history of registrations the post queues mirror the pre
    * queues all the time if and only if the points of all accepted filters are paired.
    */
  lemma HistoryMirroredIff(fs: seq<Filter>, accepted: seq<bool>)
    requires AllExist(fs) && |fs| == |accepted|
    ensures (forall n :: 0 <= n <= |fs| ==> MirroredAfter(fs, accepted, n)) <==>
            (forall i :: 0 <= i < |fs| && accepted[i] ==> Paired(fs[i]))
  {
    if forall n :: 0 <= n <= |fs| ==> MirroredAfter(fs, accepted, n) {
      forall i | 0 <= i < |fs| && accepted[i] ensures Paired(fs[i]) {
        assert MirroredAfter(fs, accepted, i) && MirroredAfter(fs, accepted, i + 1);
        MirrorIff(History(fs, accepted, i), fs[i]);
      }
    }
    if forall i :: 0 <= i < |fs| && accepted[i] ==> Paired(fs[i]) {
      forall n | 0 <= n <= |fs| ensures MirroredAfter(fs, accepted, n) { HistoryMirrored(fs, accepted, n); }
    }
  }

  /** In terms of what a caller can look at: matched points without repeats always do. */
  lemma MatchedHistoryMirrored(fs: seq<Filter>, accepted: seq<bool>)
    requires AllExist(fs) && |fs| == |accepted|
    requires forall i :: 0 <= i < |fs| && accepted[i] ==> Matching(fs[i].points) && NoRepeats(fs[i].points)
    ensures MirroredAfter(fs, accepted, |fs|)
  {
    forall i | 0 <= i < |fs| && accepted[i] ensures Paired(fs[i]) { CheckedPointsArePaired(fs[i]); }
    HistoryMirrored(fs, accepted, |fs|);
  }

  // ---------------------------------------------------------------------------------------------
  // Which hooks the post phase runs

  /**
    * The hooks the post phase runs, service filters before global ones, for a saved index. An index beyond both queues
    * makes the unsigned offset of the service queue wrap around, so its loop runs no filter and all global ones run.
    */
  function PostPart(globals: seq<Filter>, services: seq<Filter>, saved: int): seq<Filter>
    requires -1 <= saved
  {
    var n := |globals| + |services|;
    if saved == -1 then services + globals
    else if saved > n then globals
    else (services + globals)[n - saved..]
  }

  lemma ReverseConcat<T>(a: seq<T>, b: seq<T>)
    ensures Reverse(b) + Reverse(a) == Reverse(a + b)
  {
    forall i | 0 <= i < |a| + |b| ensures (Reverse(b) + Reverse(a))[i] == Reverse(a + b)[i] {
    }
  }

  lemma ReversePrefix<T>(s: seq<T>, k: nat)
    requires k <= |s|
    ensures Reverse(s)[|s| - k..] == Reverse(s[..k])
  {
  }

  /**
    * After a pre phase that accepted exactly the first `e` filters, with `before` saved in the context when it began,
    * the post phase runs the accepted filters in reverse order if and only if a filter rejected, or nothing was saved,
    * or what was saved stands for all filters.
    */
  lemma PostMirrorsPreIff(globals: seq<Filter>, services: seq<Filter>, e: nat, before: int)
    requires e <= |globals| + |services| && -1 <= before
    ensures var all := globals + services;
            var saved := if e < |all| then e else before;
            PostPart(Reverse(globals), Reverse(services), saved) == Reverse(all[..e]) <==>
            e < |all| || before == -1 || before == |all| || (before > |all| && services == [])
  {
    var all := globals + services;
    var saved := if e < |all| then e else before;
    var ran := PostPart(Reverse(globals), Reverse(services), saved);
    ReverseConcat(globals, services);
    assert all[..|all|] == all;
    if 0 <= saved <= |all| {
      assert ran == Reverse(all)[|all| - saved..];
      ReversePrefix(all, saved);
      assert |ran| == saved;
    } else if saved > |all| {
      assert |ran| == |globals|;
      if services == [] { assert all == globals; }
    }
  }
}
