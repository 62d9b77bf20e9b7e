/**
 The depth-first walk that the plugin lifecycle makes four times: visit what a node points to, then the node,
 once each, and give up at an edge that leads nowhere or at a node that fails.
  */
module Dfs {
  import opened Common

  /** What a node points to, `None` for an edge that leads nowhere, and whether visiting the node itself fails. */
  datatype Node = Node(succ: seq<Option<string>>, fails: bool)

  type Graph = map<string, Node>

  /** Every edge leads to a lower rank. */
  ghost predicate Ranked(g: Graph, rank: map<string, nat>) {
    forall k, i :: k in g && 0 <= i < |g[k].succ| && g[k].succ[i].Some? ==>
      k in rank && g[k].succ[i].value in g && g[k].succ[i].value in rank && rank[g[k].succ[i].value] < rank[k]
  }

  ghost predicate Acyclic(g: Graph) {
    exists rank :: Ranked(g, rank)
  }

  ghost function Rank(g: Graph): (rank: map<string, nat>)
    requires Acyclic(g)
    ensures Ranked(g, rank)
  {
    var rank :| Ranked(g, rank);
    rank
  }

  ghost function RankOf(g: Graph, k: string): nat
    requires Acyclic(g)
  {
    if k in Rank(g) then Rank(g)[k] else 0
  }

  /** The nodes visited so far, in order, once `k` has been visited too; `None` if the walk gave up. */
  ghost function Visit(g: Graph, k: string, done: seq<string>): Option<seq<string>>
    requires Acyclic(g) && k in g
    decreases RankOf(g, k), |g[k].succ| + 1
  {
    if k in done then Some(done) else
    match VisitSucc(g, k, 0, done)
    case None => None
    case Some(d) => if g[k].fails then None else Some(d + [k])
  }

  /** The same for what `k` points to, from its i-th edge on. */
  ghost function VisitSucc(g: Graph, k: string, i: nat, done: seq<string>): Option<seq<string>>
    requires Acyclic(g) && k in g && i <= |g[k].succ|
    decreases RankOf(g, k), |g[k].succ| - i
  {
    if i == |g[k].succ| then Some(done) else
    match g[k].succ[i]
    case None => None
    case Some(q) =>
      match Visit(g, q, done)
      case None => None
      case Some(d) => VisitSucc(g, k, i + 1, d)
  }

  /** The same for the nodes of `order`, one after the other. */
  ghost function VisitAll(g: Graph, order: seq<string>, done: seq<string>): Option<seq<string>>
    requires Acyclic(g) && forall k :: k in order ==> k in g
  {
    if order == [] then Some(done) else
    match Visit(g, order[0], done)
    case None => None
    case Some(d) => VisitAll(g, order[1..], d)
  }

  lemma SuccGoesOn(g: Graph, k: string, i: nat, done: seq<string>, q: string, d: seq<string>)
    requires Acyclic(g) && k in g && i < |g[k].succ| && g[k].succ[i] == Some(q) && Visit(g, q, done) == Some(d)
    ensures VisitSucc(g, k, i, done) == VisitSucc(g, k, i + 1, d)
  {
  }

  // ---------------------------------------------------------------------------------------------
  // What a walk guarantees

  predicate Distinct(s: seq<string>) {
    forall i, j :: 0 <= i < j < |s| ==> s[i] != s[j]
  }

  /** All edges of `k` lead somewhere in `before`, and `k` itself does not fail. */
  predicate Ready(g: Graph, k: string, before: seq<string>) {
    k in g && !g[k].fails && forall i :: 0 <= i < |g[k].succ| ==> g[k].succ[i].Some? && g[k].succ[i].value in before
  }

  /** Every node after everything it points to. */
  predicate Follows(g: Graph, d: seq<string>) {
    forall j :: 0 <= j < |d| ==> Ready(g, d[j], d[..j])
  }

  /** Each node once, and after everything it points to. */
  predicate InOrder(g: Graph, d: seq<string>) {
    Distinct(d) && Follows(g, d)
  }

  lemma FollowsNext(g: Graph, d: seq<string>, k: string)
    requires Follows(g, d) && Ready(g, k, d)
    ensures Follows(g, d + [k])
  {
    var d' := d + [k];
    forall j | 0 <= j < |d'| ensures Ready(g, d'[j], d'[..j]) {
      if j < |d| { assert d'[..j] == d[..j]; } else { assert d'[..j] == d; }
    }
  }

  ghost predicate Path(g: Graph, path: seq<string>, a: string, b: string) {
    && 0 < |path| && path[0] == a && path[|path| - 1] == b
    && (forall i :: 0 <= i < |path| ==> path[i] in g)
    && (forall i :: 0 <= i < |path| - 1 ==> Some(path[i + 1]) in g[path[i]].succ)
  }

  ghost predicate Reach(g: Graph, a: string, b: string) {
    exists path :: Path(g, path, a, b)
  }

  lemma ReachOn(g: Graph, a: string, b: string, c: string)
    requires Reach(g, a, b) && Reach(g, b, c)
    ensures Reach(g, a, c)
  {
    var p, q :| Path(g, p, a, b) && Path(g, q, b, c);
    assert Path(g, p + q[1..], a, c);
  }

  lemma ReachSelf(g: Graph, a: string)
    requires a in g
    ensures Reach(g, a, a)
  {
    assert Path(g, [a], a, a);
  }

  /** A path of more than one node ends in an edge. */
  lemma LastEdge(g: Graph, path: seq<string>, a: string, b: string)
    requires Path(g, path, a, b) && |path| > 1
    ensures var r := path[|path| - 2]; r in g && Some(b) in g[r].succ && Path(g, path[..|path| - 1], a, r)
  {
    var n := |path| - 2;
    assert Some(path[n + 1]) in g[path[n]].succ;
  }

  lemma ReachEdge(g: Graph, a: string, q: string, b: string)
    requires a in g && Some(q) in g[a].succ && Reach(g, q, b)
    ensures Reach(g, a, b)
  {
    var path :| Path(g, path, q, b);
    assert Path(g, [a] + path, a, b);
  }

  /** Two graphs with the same edges, in which other nodes may fail. */
  ghost predicate SameEdges(g: Graph, h: Graph) {
    g.Keys == h.Keys && forall k :: k in g ==> g[k].succ == h[k].succ
  }

  lemma SameEdgesSame(g: Graph, h: Graph)
    requires SameEdges(g, h)
    ensures Acyclic(g) <==> Acyclic(h)
    ensures forall a, b :: Reach(g, a, b) <==> Reach(h, a, b)
  {
    forall rank ensures Ranked(g, rank) <==> Ranked(h, rank) {
    }
    if Acyclic(g) { assert Ranked(h, Rank(g)); }
    if Acyclic(h) { assert Ranked(g, Rank(h)); }
    forall path, a, b ensures Path(g, path, a, b) <==> Path(h, path, a, b) {
    }
  }

  /** What a walk added to `done` to get `d`, begun at `k`. */
  ghost predicate Extends(g: Graph, k: string, done: seq<string>, d: seq<string>) {
    && InOrder(g, d) && done <= d
    && forall j :: |done| <= j < |d| ==> Reach(g, k, d[j])
  }

  lemma {:induction false} VisitOk(g: Graph, k: string, done: seq<string>)
    requires Acyclic(g) && k in g && InOrder(g, done) && Visit(g, k, done).Some?
    ensures Extends(g, k, done, Visit(g, k, done).value) && k in Visit(g, k, done).value
    decreases RankOf(g, k), |g[k].succ| + 1
  {
    if k !in done {
      VisitSuccOk(g, k, 0, done);
      var d := VisitSucc(g, k, 0, done).value;
      ReachSelf(g, k);
      NotBelowItself(g, k, done, d);
      FollowsNext(g, d, k);
    }
  }

  lemma {:induction false} VisitSuccOk(g: Graph, k: string, i: nat, done: seq<string>)
    requires Acyclic(g) && k in g && i <= |g[k].succ| && InOrder(g, done) && VisitSucc(g, k, i, done).Some?
    ensures var d := VisitSucc(g, k, i, done).value;
            && Extends(g, k, done, d)
            && (forall j :: i <= j < |g[k].succ| ==> g[k].succ[j].Some? && g[k].succ[j].value in d)
            && (forall j :: |done| <= j < |d| ==>
                  exists m :: i <= m < |g[k].succ| && g[k].succ[m].Some? && Reach(g, g[k].succ[m].value, d[j]))
    decreases RankOf(g, k), |g[k].succ| - i
  {
    if i < |g[k].succ| {
      var q := g[k].succ[i].value;
      VisitOk(g, q, done);
      var d1 := Visit(g, q, done).value;
      VisitSuccOk(g, k, i + 1, d1);
      var d := VisitSucc(g, k, i, done).value;
      forall j | |done| <= j < |d|
        ensures Reach(g, k, d[j])
        ensures exists m :: i <= m < |g[k].succ| && g[k].succ[m].Some? && Reach(g, g[k].succ[m].value, d[j])
      {
        if j < |d1| {
          assert d[j] == d1[j];
          ReachEdge(g, k, q, d[j]);
          assert g[k].succ[i].Some? && Reach(g, g[k].succ[i].value, d[j]);
        }
      }
    }
  }

  /** A walk over what `k` points to does not come back to `k`. */
  lemma NotBelowItself(g: Graph, k: string, done: seq<string>, d: seq<string>)
    requires Acyclic(g) && k in g && k !in done && done <= d
    requires forall j :: |done| <= j < |d| ==>
               exists m :: 0 <= m < |g[k].succ| && g[k].succ[m].Some? && Reach(g, g[k].succ[m].value, d[j])
    ensures k !in d
  {
    forall j | |done| <= j < |d| ensures d[j] != k {
      var m :| 0 <= m < |g[k].succ| && g[k].succ[m].Some? && Reach(g, g[k].succ[m].value, d[j]);
      var path :| Path(g, path, g[k].succ[m].value, d[j]);
      PathDescends(g, path, g[k].succ[m].value, d[j]);
    }
  }

  lemma {:induction false} PathDescends(g: Graph, path: seq<string>, a: string, b: string)
    requires Acyclic(g) && Path(g, path, a, b)
    ensures RankOf(g, b) <= RankOf(g, a)
    ensures a != b ==> RankOf(g, b) < RankOf(g, a)
    decreases |path|
  {
    if |path| > 1 {
      var q := path[1];
      assert Some(path[0 + 1]) in g[path[0]].succ;
      var i :| 0 <= i < |g[a].succ| && g[a].succ[i] == Some(q);
      assert Path(g, path[1..], q, b);
      PathDescends(g, path[1..], q, b);
    }
  }

  /** The walk can be completed: no edge leads nowhere and no node fails. */
  predicate Complete(g: Graph) {
    forall k :: k in g ==> !g[k].fails && forall i :: 0 <= i < |g[k].succ| ==> g[k].succ[i].Some?
  }

  lemma {:induction false} VisitGoesOn(g: Graph, k: string, done: seq<string>)
    requires Acyclic(g) && k in g && Complete(g)
    ensures Visit(g, k, done).Some?
    decreases RankOf(g, k), |g[k].succ| + 1
  {
    if k !in done { VisitSuccGoesOn(g, k, 0, done); }
  }

  lemma {:induction false} VisitSuccGoesOn(g: Graph, k: string, i: nat, done: seq<string>)
    requires Acyclic(g) && k in g && i <= |g[k].succ| && Complete(g)
    ensures VisitSucc(g, k, i, done).Some?
    decreases RankOf(g, k), |g[k].succ| - i
  {
    if i < |g[k].succ| {
      VisitGoesOn(g, g[k].succ[i].value, done);
      VisitSuccGoesOn(g, k, i + 1, Visit(g, g[k].succ[i].value, done).value);
    }
  }

  lemma {:induction false} VisitAllOk(g: Graph, order: seq<string>, done: seq<string>)
    requires Acyclic(g) && (forall k :: k in order ==> k in g) && InOrder(g, done)
    ensures VisitAll(g, order, done).Some? ==>
              var d := VisitAll(g, order, done).value;
              InOrder(g, d) && done <= d && forall k :: k in order ==> k in d
    ensures Complete(g) ==> VisitAll(g, order, done).Some?
  {
    if order != [] {
      if Complete(g) { VisitGoesOn(g, order[0], done); }
      if Visit(g, order[0], done).Some? {
        VisitOk(g, order[0], done);
        var d := Visit(g, order[0], done).value;
        VisitAllOk(g, order[1..], d);
        assert forall k :: k in order ==> k == order[0] || k in order[1..];
      }
    }
  }

  /** `order` lists the nodes of `g`, each once. */
  ghost predicate Enumerates(order: seq<string>, g: Graph) {
    Distinct(order) && forall k :: k in order <==> k in g
  }

  /** Walking over all nodes, in any order, succeeds exactly when no edge leads nowhere and no node fails, and then
      visits every node exactly once, after everything it points to. */
  lemma WalkIsTopological(g: Graph, order: seq<string>)
    requires Acyclic(g) && Enumerates(order, g)
    ensures VisitAll(g, order, []).Some? <==> Complete(g)
    ensures VisitAll(g, order, []).Some? ==>
              InOrder(g, VisitAll(g, order, []).value) && Enumerates(VisitAll(g, order, []).value, g)
  {
    VisitAllOk(g, order, []);
    if VisitAll(g, order, []).Some? {
      var d := VisitAll(g, order, []).value;
      forall k | k in g ensures k in d && !g[k].fails && forall i :: 0 <= i < |g[k].succ| ==> g[k].succ[i].Some? {
        assert k in order;
        var j :| 0 <= j < |d| && d[j] == k;
        assert Ready(g, d[j], d[..j]);
      }
      forall k | k in d ensures k in g {
        var j :| 0 <= j < |d| && d[j] == k;
        assert Ready(g, d[j], d[..j]);
      }
    }
  }

  /** `a` comes before `b`. */
  predicate Before(d: seq<string>, a: string, b: string) {
    exists i, j :: 0 <= i < j < |d| && d[i] == a && d[j] == b
  }

  /** In such an order everything a node leads to, however far, comes before it. */
  lemma {:induction false} ReachedComesBefore(g: Graph, d: seq<string>, path: seq<string>, a: string, b: string)
    requires InOrder(g, d) && Path(g, path, a, b) && a in d && a != b
    ensures Before(d, b, a)
    decreases |path|
  {
    var q := path[1];
    assert Some(path[0 + 1]) in g[path[0]].succ;
    var j :| 0 <= j < |d| && d[j] == a;
    assert Ready(g, d[j], d[..j]);
    assert q in d[..j];
    var i :| 0 <= i < j && d[i] == q;
    if q != b {
      assert Path(g, path[1..], q, b);
      ReachedComesBefore(g, d, path[1..], q, b);
      var x, y :| 0 <= x < y < |d| && d[x] == b && d[y] == q;
      assert y == i;
    }
  }

  lemma {:induction false} VisitAllKeeps(g: Graph, order: seq<string>, done: seq<string>)
    requires Acyclic(g) && (forall k :: k in order ==> k in g) && InOrder(g, done) && VisitAll(g, order, done).Some?
    ensures done <= VisitAll(g, order, done).value
  {
    VisitAllOk(g, order, done);
  }

  // ---------------------------------------------------------------------------------------------
  // The same walk on any graph, cut off at a depth of recursion

  datatype Walked = TooDeep | GaveUp | Visited(nodes: seq<string>)

  /** Visiting `k` with at most `depth` visits inside one another. */
  function VisitWithin(g: Graph, k: string, done: seq<string>, depth: nat): Walked
    decreases depth, 0, 0
  {
    if k in done then Visited(done)
    else if depth == 0 then TooDeep
    else if k !in g then GaveUp
    else
      var w := SuccWithin(g, k, 0, done, depth - 1);
      if !w.Visited? then w else if g[k].fails then GaveUp else Visited(w.nodes + [k])
  }

  function SuccWithin(g: Graph, k: string, i: nat, done: seq<string>, depth: nat): Walked
    requires k in g && i <= |g[k].succ|
    decreases depth, 1, |g[k].succ| - i
  {
    if i == |g[k].succ| then Visited(done)
    else if g[k].succ[i].None? then GaveUp
    else
      var w := VisitWithin(g, g[k].succ[i].value, done, depth);
      if !w.Visited? then w else SuccWithin(g, k, i + 1, w.nodes, depth)
  }

  function AllWithin(g: Graph, order: seq<string>, done: seq<string>, depth: nat): Walked {
    if order == [] then Visited(done)
    else
      var w := VisitWithin(g, order[0], done, depth);
      if !w.Visited? then w else AllWithin(g, order[1..], w.nodes, depth)
  }

  /** The recursion comes to an end: some depth is enough. */
  ghost predicate Ends(g: Graph, order: seq<string>) {
    exists depth: nat :: !AllWithin(g, order, [], depth).TooDeep?
  }

  function Lifted(d: Option<seq<string>>): Walked {
    if d.None? then GaveUp else Visited(d.value)
  }

  /** On an acyclic graph a depth above the rank is enough, and the result is that of the walk. */
  lemma {:induction false} VisitWithinIs(g: Graph, k: string, done: seq<string>, depth: nat)
    requires Acyclic(g) && k in g
    ensures RankOf(g, k) < depth ==> !VisitWithin(g, k, done, depth).TooDeep?
    ensures !VisitWithin(g, k, done, depth).TooDeep? ==>
              VisitWithin(g, k, done, depth) == Lifted(Visit(g, k, done))
    decreases depth, 0, 0
  {
    if k !in done && depth > 0 { SuccWithinIs(g, k, 0, done, depth - 1); }
  }

  lemma {:induction false} SuccWithinIs(g: Graph, k: string, i: nat, done: seq<string>, depth: nat)
    requires Acyclic(g) && k in g && i <= |g[k].succ|
    ensures RankOf(g, k) <= depth ==> !SuccWithin(g, k, i, done, depth).TooDeep?
    ensures !SuccWithin(g, k, i, done, depth).TooDeep? ==>
              SuccWithin(g, k, i, done, depth) == Lifted(VisitSucc(g, k, i, done))
    decreases depth, 1, |g[k].succ| - i
  {
    if i < |g[k].succ| && g[k].succ[i].Some? {
      var q := g[k].succ[i].value;
      assert RankOf(g, q) < RankOf(g, k);
      VisitWithinIs(g, q, done, depth);
      var w := VisitWithin(g, q, done, depth);
      if w.Visited? { SuccWithinIs(g, k, i + 1, w.nodes, depth); }
    }
  }

  lemma {:induction false} AllWithinIs(g: Graph, order: seq<string>, done: seq<string>, depth: nat)
    requires Acyclic(g) && forall k :: k in order ==> k in g
    ensures (forall k :: k in order ==> RankOf(g, k) < depth) ==> !AllWithin(g, order, done, depth).TooDeep?
    ensures !AllWithin(g, order, done, depth).TooDeep? ==>
              AllWithin(g, order, done, depth) == Lifted(VisitAll(g, order, done))
  {
    if order != [] {
      VisitWithinIs(g, order[0], done, depth);
      var w := VisitWithin(g, order[0], done, depth);
      if w.Visited? { AllWithinIs(g, order[1..], w.nodes, depth); }
    }
  }

  lemma {:induction false} RanksBounded(rank: map<string, nat>, keys: set<string>) returns (m: nat)
    requires keys <= rank.Keys
    ensures forall k :: k in keys ==> rank[k] <= m
  {
    if keys == {} {
      m := 0;
    } else {
      var k :| k in keys;
      var m' := RanksBounded(rank, keys - {k});
      m := if rank[k] > m' then rank[k] else m';
    }
  }

  /** On an acyclic graph the recursion ends, with the result of the walk. */
  lemma AcyclicEnds(g: Graph, order: seq<string>) returns (depth: nat)
    requires Acyclic(g) && forall k :: k in order ==> k in g
    ensures AllWithin(g, order, [], depth) == Lifted(VisitAll(g, order, []))
  {
    var m := RanksBounded(Rank(g), Rank(g).Keys);
    depth := m + 1;
    AllWithinIs(g, order, [], depth);
  }

  /** Whatever the graph, what the recursion returns has every node after everything it points to. */
  lemma {:induction false} VisitWithinFollows(g: Graph, k: string, done: seq<string>, depth: nat)
    requires Follows(g, done) && VisitWithin(g, k, done, depth).Visited?
    ensures var d := VisitWithin(g, k, done, depth).nodes; Follows(g, d) && done <= d && k in d
    decreases depth, 0, 0
  {
    if k !in done {
      SuccWithinFollows(g, k, 0, done, depth - 1);
      FollowsNext(g, SuccWithin(g, k, 0, done, depth - 1).nodes, k);
    }
  }

  lemma {:induction false} SuccWithinFollows(g: Graph, k: string, i: nat, done: seq<string>, depth: nat)
    requires k in g && i <= |g[k].succ| && Follows(g, done) && SuccWithin(g, k, i, done, depth).Visited?
    ensures var d := SuccWithin(g, k, i, done, depth).nodes;
            && Follows(g, d) && done <= d
            && forall j :: i <= j < |g[k].succ| ==> g[k].succ[j].Some? && g[k].succ[j].value in d
    decreases depth, 1, |g[k].succ| - i
  {
    if i < |g[k].succ| {
      VisitWithinFollows(g, g[k].succ[i].value, done, depth);
      SuccWithinFollows(g, k, i + 1, VisitWithin(g, g[k].succ[i].value, done, depth).nodes, depth);
    }
  }

  lemma {:induction false} AllWithinFollows(g: Graph, order: seq<string>, done: seq<string>, depth: nat)
    requires Follows(g, done) && AllWithin(g, order, done, depth).Visited?
    ensures var d := AllWithin(g, order, done, depth).nodes;
            Follows(g, d) && done <= d && forall k :: k in order ==> k in d
  {
    if order != [] {
      VisitWithinFollows(g, order[0], done, depth);
      AllWithinFollows(g, order[1..], VisitWithin(g, order[0], done, depth).nodes, depth);
      assert forall k :: k in order ==> k == order[0] || k in order[1..];
    }
  }

  /** The first place of `k`. */
  function FirstAt(d: seq<string>, k: string): (n: nat)
    requires k in d
    ensures n < |d| && d[n] == k && forall j :: 0 <= j < n ==> d[j] != k
  {
    if d[0] == k then 0 else 1 + FirstAt(d[1..], k)
  }

  /** A graph whose nodes are all in such an order is acyclic: the first places are ranks. */
  lemma FollowsIsAcyclic(g: Graph, d: seq<string>)
    requires Follows(g, d) && forall k :: k in g ==> k in d
    ensures Acyclic(g)
  {
    var rank: map<string, nat> := map k | k in g :: FirstAt(d, k);
    forall k, i | k in g && 0 <= i < |g[k].succ| && g[k].succ[i].Some?
      ensures g[k].succ[i].value in g && rank[g[k].succ[i].value] < rank[k]
    {
      var n, q := FirstAt(d, k), g[k].succ[i].value;
      assert Ready(g, d[n], d[..n]);
      var j :| 0 <= j < n && d[j] == q;
      assert Ready(g, d[j], d[..j]);
      assert FirstAt(d, q) <= j;
    }
    assert Ranked(g, rank);
  }

  /** Every edge leads to a node. */
  predicate Inside(g: Graph) {
    forall k, i :: k in g && 0 <= i < |g[k].succ| && g[k].succ[i].Some? ==> g[k].succ[i].value in g
  }

  lemma {:induction false} VisitNeverGivesUp(g: Graph, k: string, done: seq<string>, depth: nat)
    requires Complete(g) && Inside(g) && k in g
    ensures !VisitWithin(g, k, done, depth).GaveUp?
    decreases depth, 0, 0
  {
    if k !in done && depth > 0 { SuccNeverGivesUp(g, k, 0, done, depth - 1); }
  }

  lemma {:induction false} SuccNeverGivesUp(g: Graph, k: string, i: nat, done: seq<string>, depth: nat)
    requires Complete(g) && Inside(g) && k in g && i <= |g[k].succ|
    ensures !SuccWithin(g, k, i, done, depth).GaveUp?
    decreases depth, 1, |g[k].succ| - i
  {
    if i < |g[k].succ| {
      VisitNeverGivesUp(g, g[k].succ[i].value, done, depth);
      var w := VisitWithin(g, g[k].succ[i].value, done, depth);
      if w.Visited? { SuccNeverGivesUp(g, k, i + 1, w.nodes, depth); }
    }
  }

  lemma {:induction false} NeverGivesUp(g: Graph, order: seq<string>, done: seq<string>, depth: nat)
    requires Complete(g) && Inside(g) && forall k :: k in order ==> k in g
    ensures !AllWithin(g, order, done, depth).GaveUp?
  {
    if order != [] {
      VisitNeverGivesUp(g, order[0], done, depth);
      var w := VisitWithin(g, order[0], done, depth);
      if w.Visited? { NeverGivesUp(g, order[1..], w.nodes, depth); }
    }
  }

  /** Where nothing makes it give up, the recursion over all nodes ends if and only if the graph is acyclic, whatever
      the order in which it takes them. */
  lemma EndsIff(g: Graph, order: seq<string>)
    requires Complete(g) && Inside(g) && Enumerates(order, g)
    ensures Ends(g, order) <==> Acyclic(g)
  {
    if Ends(g, order) {
      var depth: nat :| !AllWithin(g, order, [], depth).TooDeep?;
      NeverGivesUp(g, order, [], depth);
      AllWithinFollows(g, order, [], depth);
      FollowsIsAcyclic(g, AllWithin(g, order, [], depth).nodes);
    }
    if Acyclic(g) {
      var depth := AcyclicEnds(g, order);
    }
  }

  /** The recursion ends with `a` before `b`. */
  ghost predicate EndsBefore(g: Graph, order: seq<string>, a: string, b: string) {
    exists depth: nat :: AllWithin(g, order, [], depth).Visited? && Before(AllWithin(g, order, [], depth).nodes, a, b)
  }

  /** On an acyclic graph that is said of the walk. */
  lemma EndsBeforeIff(g: Graph, order: seq<string>, a: string, b: string)
    requires Acyclic(g) && forall k :: k in order ==> k in g
    ensures EndsBefore(g, order, a, b) <==> VisitAll(g, order, []).Some? && Before(VisitAll(g, order, []).value, a, b)
  {
    var enough := AcyclicEnds(g, order);
    if EndsBefore(g, order, a, b) {
      var depth: nat :|
        AllWithin(g, order, [], depth).Visited? && Before(AllWithin(g, order, [], depth).nodes, a, b);
      AllWithinIs(g, order, [], depth);
    }
  }

  /** Whatever the order in which it takes the nodes, the recursion ends. */
  ghost predicate AlwaysEnds(g: Graph) {
    forall o :: Enumerates(o, g) ==> Ends(g, o)
  }

  /** Whatever the order in which it takes the nodes, the recursion ends with `a` before `b`. */
  ghost predicate AlwaysBefore(g: Graph, a: string, b: string) {
    forall o :: Enumerates(o, g) ==> EndsBefore(g, o, a, b)
  }

  /** `a` always comes before `b` if and only if `b` leads to `a`. */
  lemma AlwaysBeforeIff(g: Graph, order: seq<string>, a: string, b: string)
    requires Acyclic(g) && Complete(g) && Enumerates(order, g) && a in g && b in g && a != b
    ensures Reach(g, b, a) <==> AlwaysBefore(g, a, b)
  {
    if Reach(g, b, a) {
      var path :| Path(g, path, b, a);
      forall o | Enumerates(o, g) ensures EndsBefore(g, o, a, b) {
        WalkIsTopological(g, o);
        ReachedComesBefore(g, VisitAll(g, o, []).value, path, b, a);
        EndsBeforeIff(g, o, a, b);
      }
    } else {
      var o := MovedToFront(order, g, b);
      WalkIsTopological(g, o);
      VisitGoesOn(g, b, []);
      VisitOk(g, b, []);
      var d1, d := Visit(g, b, []).value, VisitAll(g, o, []).value;
      VisitAllKeeps(g, o[1..], d1);
      assert d1 <= d && b in d1 && a !in d1;
      assert !Before(d, a, b);
      EndsBeforeIff(g, o, a, b);
    }
  }

  lemma MovedToFront(order: seq<string>, g: Graph, b: string) returns (o: seq<string>)
    requires Enumerates(order, g) && b in g
    ensures Enumerates(o, g) && o != [] && o[0] == b
  {
    var i :| 0 <= i < |order| && order[i] == b;
    o := seq(|order|, j requires 0 <= j < |order| => order[if j == 0 then i else if j <= i then j - 1 else j]);
    forall j, m | 0 <= j < m < |o| ensures o[j] != o[m] {
      var x, y := if j == 0 then i else if j <= i then j - 1 else j, if m <= i then m - 1 else m;
      assert o[j] == order[x] && o[m] == order[y] && x != y;
    }
    forall k ensures k in o <==> k in g {
      if k in o {
        var j :| 0 <= j < |o| && o[j] == k;
        assert o[j] in order;
      }
      if k in g {
        var j :| 0 <= j < |order| && order[j] == k;
        assert o[if j == i then 0 else if j < i then j + 1 else j] == k;
      }
    }
  }

  /** Two nodes that point nowhere are visited in the order in which they are taken. */
  lemma UnrelatedNodes(g: Graph, a: string, b: string)
    requires Acyclic(g) && a in g && b in g && a != b && g[a] == g[b] == Node([], false)
    ensures VisitAll(g, [a, b], []) == Some([a, b])
  {
    assert VisitSucc(g, a, 0, []) == Some([]);
    assert Visit(g, a, []) == Some([] + [a]) && [] + [a] == [a];
    assert VisitSucc(g, b, 0, [a]) == Some([a]);
    assert Visit(g, b, [a]) == Some([a] + [b]) && [a] + [b] == [a, b];
    assert [a, b][1..] == [b] && [b][1..] == [];
    assert VisitAll(g, [], [a, b]) == Some([a, b]);
    assert VisitAll(g, [b], [a]) == Some([a, b]);
  }
}
