/** Plugin names, the table of plugins and how a declared dependency finds its plugin in it. */
module PluginTable {
  import opened Common
  import opened Dfs

  /** A plugin with its Type(), as the index that appears in names, and the dependencies it declares. */
  datatype Plugin = Plugin(name: string, kind: nat, deps: seq<string>)

  /** PluginType::kUnspecified, the last type. */
  const K_UNSPECIFIED := 15

  function Digit(d: nat): char
    requires d < 10
  {
    "0123456789"[d]
  }

  function Decimal(n: nat): (s: string)
    ensures |s| > 0
  {
    if n < 10 then [Digit(n)] else Decimal(n / 10) + [Digit(n % 10)]
  }

  /** The name under which a plugin is kept: name#type. */
  function Key(p: Plugin): string {
    p.name + "#" + Decimal(p.kind)
  }

  type Table = map<string, Plugin>

  predicate Keyed(t: Table) {
    forall k :: k in t ==> k == Key(t[k])
  }

  /** The result of FindPlugin: an iterator, the end, or an abort because several plugins match. */
  datatype Lookup = At(key: string) | Missing | Ambiguous

  /** The keys that begin with name#. */
  function Matches(keys: set<string>, name: string): set<string> {
    set k | k in keys && name + "#" <= k
  }

  /** The plugin with exactly this key, or else the only one with this name. */
  ghost function Resolve(keys: set<string>, name: string): Lookup {
    if name in keys then At(name)
    else if Matches(keys, name) == {} then Missing
    else if exists k :: Matches(keys, name) == {k} then
      var k :| Matches(keys, name) == {k};
      At(k)
    else Ambiguous
  }

  lemma ResolveFindsKey(keys: set<string>, name: string)
    ensures Resolve(keys, name).At? ==> Resolve(keys, name).key in keys
  {
    if Resolve(keys, name).At? && name !in keys {
      assert Resolve(keys, name).key in Matches(keys, name);
    }
  }

  // ---------------------------------------------------------------------------------------------
  // Which declared names are valid

  predicate IsSpace(c: char) {
    c == ' ' || c == '\t' || c == '\n' || c == '\U{0b}' || c == '\U{0c}' || c == '\r'
  }

  /** std::stoi on the part after '#': leading white space, a sign, then at least one digit; None when it throws. */
  function Stoi(s: string): Option<int> {
    if s != "" && IsSpace(s[0]) then Stoi(s[1..])
    else if s != "" && s[0] == '-' then Bounded(Digits(s[1..], 0, false), -1)
    else if s != "" && s[0] == '+' then Bounded(Digits(s[1..], 0, false), 1)
    else Bounded(Digits(s, 0, false), 1)
  }

  function Digits(s: string, sofar: nat, any: bool): Option<nat> {
    if s != "" && '0' <= s[0] <= '9' then Digits(s[1..], 10 * sofar + (s[0] - '0') as nat, true)
    else if any then Some(sofar) else None
  }

  function Bounded(n: Option<nat>, sign: int): Option<int> {
    match n
    case None => None
    case Some(v) => if -0x8000_0000 <= sign * v < 0x8000_0000 then Some(sign * v) else None
  }

  /** A declared name without '#' is fine; after '#' there must be a number up to the last type. */
  function NameValid(name: string): bool {
    if name == "" then true
    else if name[0] == '#' then Stoi(name[1..]).Some? && Stoi(name[1..]).value <= K_UNSPECIFIED
    else NameValid(name[1..])
  }

  predicate AllDigits(s: string) {
    forall i :: 0 <= i < |s| ==> '0' <= s[i] <= '9'
  }

  lemma {:induction false} DigitsLast(s: string, c: char, sofar: nat, any: bool)
    requires AllDigits(s) && '0' <= c <= '9' && (s != "" || any)
    ensures Digits(s, sofar, any).Some?
    ensures Digits(s + [c], sofar, any) == Some(10 * Digits(s, sofar, any).value + (c - '0') as nat)
    decreases |s|
  {
    if s == "" {
      assert s + [c] == [c] && [c][1..] == "";
    } else {
      assert (s + [c])[1..] == s[1..] + [c] && (s + [c])[0] == s[0];
      DigitsLast(s[1..], c, 10 * sofar + (s[0] - '0') as nat, true);
    }
  }

  lemma DigitOf(d: nat)
    requires d < 10
    ensures '0' <= Digit(d) <= '9' && (Digit(d) - '0') as nat == d
  {
  }

  /** The digits of a number read as that number. */
  lemma {:induction false} DigitsOfDecimal(n: nat)
    ensures AllDigits(Decimal(n)) && Digits(Decimal(n), 0, false) == Some(n)
  {
    if n < 10 {
      DigitOf(n);
      assert [Digit(n)][1..] == "";
      assert Digits("", n, true) == Some(n);
    } else {
      DigitOf(n % 10);
      DigitsOfDecimal(n / 10);
      DigitsLast(Decimal(n / 10), Digit(n % 10), 0, false);
    }
  }

  predicate StartsWithDigit(s: string) {
    s != "" && '0' <= s[0] <= '9'
  }

  lemma {:induction false} DigitsStop(s: string, rest: string, sofar: nat, any: bool)
    requires AllDigits(s) && !StartsWithDigit(rest)
    ensures Digits(s + rest, sofar, any) == Digits(s, sofar, any)
    decreases |s|
  {
    if s == "" {
      assert s + rest == rest;
    } else {
      assert (s + rest)[1..] == s[1..] + rest && (s + rest)[0] == s[0];
      DigitsStop(s[1..], rest, 10 * sofar + (s[0] - '0') as nat, true);
    }
  }

  predicate AllSpace(s: string) {
    forall i :: 0 <= i < |s| ==> IsSpace(s[i])
  }

  lemma {:induction false} StoiSkips(space: string, s: string)
    requires AllSpace(space)
    ensures Stoi(space + s) == Stoi(s)
    decreases |space|
  {
    if space == "" {
      assert space + s == s;
    } else {
      assert (space + s)[1..] == space[1..] + s && (space + s)[0] == space[0];
      StoiSkips(space[1..], s);
    }
  }

  predicate IsSign(sign: string) {
    sign == "" || sign == "+" || sign == "-"
  }

  lemma StoiSign(sign: string, s: string)
    requires IsSign(sign) && (sign == "" ==> s == "" || (!IsSpace(s[0]) && s[0] != '+' && s[0] != '-'))
    ensures Stoi(sign + s) == Bounded(Digits(s, 0, false), if sign == "-" then -1 else 1)
  {
    assert sign == "" ==> sign + s == s;
    assert sign != "" ==> (sign + s)[1..] == s && (sign + s)[0] == sign[0];
  }

  lemma BoundedIs(n: nat, negative: bool)
    ensures var x := if negative then 0 - n else n;
            Bounded(Some(n), if negative then -1 else 1) == if -0x8000_0000 <= x <= 0x7fff_ffff then Some(x) else None
  {
  }

  lemma DecimalAnd(n: nat, rest: string)
    requires !StartsWithDigit(rest)
    ensures StartsWithDigit(Decimal(n) + rest) && Digits(Decimal(n) + rest, 0, false) == Some(n)
  {
    DigitsOfDecimal(n);
    DigitsStop(Decimal(n), rest, 0, false);
    assert (Decimal(n) + rest)[0] == Decimal(n)[0];
  }

  /** White space, a sign or none, a number that an int32 holds, and whatever follows: that number. */
  lemma StoiReads(space: string, sign: string, n: nat, rest: string)
    requires AllSpace(space) && IsSign(sign) && !StartsWithDigit(rest)
    ensures var x := if sign == "-" then 0 - n else n;
            Stoi(space + (sign + (Decimal(n) + rest))) == if -0x8000_0000 <= x <= 0x7fff_ffff then Some(x) else None
  {
    var s := Decimal(n) + rest;
    DecimalAnd(n, rest);
    assert sign == "" ==> !IsSpace(s[0]) && s[0] != '+' && s[0] != '-';
    StoiSkips(space, sign + s);
    StoiSign(sign, s);
    BoundedIs(n, sign == "-");
  }

  /** Without a digit there it throws. */
  lemma StoiThrows(space: string, sign: string, rest: string)
    requires AllSpace(space) && IsSign(sign) && !StartsWithDigit(rest)
    requires sign == "" && rest != "" ==> !IsSpace(rest[0]) && rest[0] != '+' && rest[0] != '-'
    ensures Stoi(space + (sign + rest)) == None
  {
    StoiSkips(space, sign + rest);
    StoiSign(sign, rest);
  }

  lemma {:induction false} ValidAfter(name: string, rest: string)
    requires '#' !in name
    ensures NameValid(name + rest) == NameValid(rest)
  {
    if name == "" {
      assert name + rest == rest;
    } else {
      assert (name + rest)[1..] == name[1..] + rest && (name + rest)[0] == name[0];
      ValidAfter(name[1..], rest);
    }
  }

  /** A plain name is valid; with something after '#', exactly if that begins, after white space, with a number that an
      int32 holds and that is at most the last type. */
  lemma ValidNames(name: string, space: string, sign: string, n: nat, rest: string)
    requires '#' !in name && AllSpace(space) && IsSign(sign) && !StartsWithDigit(rest)
    ensures NameValid(name)
    ensures var x := if sign == "-" then 0 - n else n;
            NameValid(name + ("#" + (space + (sign + (Decimal(n) + rest))))) <==> -0x8000_0000 <= x <= K_UNSPECIFIED
    ensures (sign == "" && rest != "" ==> !IsSpace(rest[0]) && rest[0] != '+' && rest[0] != '-') ==>
              !NameValid(name + ("#" + (space + (sign + rest))))
  {
    assert name + "" == name;
    ValidAfter(name, "");
    var number, none := space + (sign + (Decimal(n) + rest)), space + (sign + rest);
    ValidAfter(name, "#" + number);
    ValidAfter(name, "#" + none);
    assert ("#" + number)[1..] == number && ("#" + none)[1..] == none;
    StoiReads(space, sign, n, rest);
    if sign == "" && rest != "" ==> !IsSpace(rest[0]) && rest[0] != '+' && rest[0] != '-' {
      StoiThrows(space, sign, rest);
    }
  }

  // ---------------------------------------------------------------------------------------------
  // The graphs the lifecycle walks over

  datatype Phase = Init | Start | Stop | Destroy

  /** The names a phase looks up before it comes to plugin `k`: its dependencies on the way up, and on the way down
      whatever the reverse index lists under its Name(). */
  function Names(t: Table, reverse: map<string, seq<string>>, ph: Phase, k: string): seq<string>
    requires k in t
  {
    if ph == Init || ph == Start then t[k].deps
    else if t[k].name in reverse then reverse[t[k].name] else []
  }

  ghost function Target(keys: set<string>, name: string): Option<string> {
    match Resolve(keys, name)
    case At(q) => Some(q)
    case _ => None
  }

  /** `broken`: the plugins whose Init() does not return 0. */
  ghost function Walk(t: Table, reverse: map<string, seq<string>>, ph: Phase, broken: set<string>): Graph {
    map k | k in t ::
      Node(seq(|Names(t, reverse, ph, k)|,
               i requires 0 <= i < |Names(t, reverse, ph, k)| => Target(t.Keys, Names(t, reverse, ph, k)[i])),
           ph == Init && k in broken)
  }

  /** The reverse index lists each plugin under every string it declares, and nothing else. */
  ghost predicate Indexed(t: Table, reverse: map<string, seq<string>>) {
    && (forall d, k :: d in reverse && k in reverse[d] ==> k in t && d in t[k].deps)
    && (forall k, d :: k in t && d in t[k].deps ==> d in reverse && k in reverse[d])
  }

  /** Plugin `p` depends on plugin `q`. */
  ghost predicate DependsOn(t: Table, p: string, q: string) {
    p in t && exists i :: 0 <= i < |t[p].deps| && Resolve(t.Keys, t[p].deps[i]) == At(q)
  }

  ghost function Up(t: Table): Graph { Walk(t, map[], Start, {}) }

  ghost function Down(t: Table, reverse: map<string, seq<string>>): Graph { Walk(t, reverse, Stop, {}) }

  /** Walking up, the edges are the dependencies; walking down, plugin `q` leads to those who declare its Name(). */
  lemma UpEdges(t: Table, p: string, q: string)
    requires p in t
    ensures Some(q) in Up(t)[p].succ <==> DependsOn(t, p, q)
  {
    var succ := Up(t)[p].succ;
    if Some(q) in succ {
      var i :| 0 <= i < |succ| && succ[i] == Some(q);
      assert Resolve(t.Keys, t[p].deps[i]) == At(q);
    }
    if DependsOn(t, p, q) {
      var i :| 0 <= i < |t[p].deps| && Resolve(t.Keys, t[p].deps[i]) == At(q);
      assert succ[i] == Some(q);
    }
  }

  /** Every declared name of every plugin finds its plugin. */
  ghost predicate AllResolve(t: Table) {
    forall k, i :: k in t && 0 <= i < |t[k].deps| ==> Resolve(t.Keys, t[k].deps[i]).At?
  }

  /** InitPlugins and StartPlugins walk over the same edges, the declared dependencies, and nothing makes them give up
      exactly if all of them resolve and, for InitPlugins, no Init() fails. */
  lemma UpwardWalk(t: Table, reverse: map<string, seq<string>>, ph: Phase, broken: set<string>)
    requires ph == Init || ph == Start
    ensures SameEdges(Walk(t, reverse, ph, broken), Up(t))
    ensures Complete(Walk(t, reverse, ph, broken)) <==> AllResolve(t) && (ph == Init ==> broken !! t.Keys)
  {
    var g := Walk(t, reverse, ph, broken);
    forall k | k in t ensures g[k].succ == Up(t)[k].succ && |g[k].succ| == |t[k].deps| {
    }
    if Complete(g) {
      forall k, i | k in t && 0 <= i < |t[k].deps| ensures Resolve(t.Keys, t[k].deps[i]).At? {
        assert g[k].succ[i] == Target(t.Keys, t[k].deps[i]);
      }
      forall k | k in t ensures !(ph == Init && k in broken) { assert !g[k].fails; }
    }
    if AllResolve(t) && (ph == Init ==> broken !! t.Keys) {
      forall k | k in g ensures !g[k].fails && forall i :: 0 <= i < |g[k].succ| ==> g[k].succ[i].Some? {
        assert forall i :: 0 <= i < |g[k].succ| ==> g[k].succ[i] == Target(t.Keys, t[k].deps[i]);
      }
    }
  }

  lemma DownEdges(t: Table, reverse: map<string, seq<string>>, q: string, p: string)
    requires Indexed(t, reverse) && q in t
    ensures Some(p) in Down(t, reverse)[q].succ <==> p in t && t[q].name in t[p].deps
    ensures forall i :: 0 <= i < |Down(t, reverse)[q].succ| ==> Down(t, reverse)[q].succ[i].Some?
  {
    var names, succ := Names(t, reverse, Stop, q), Down(t, reverse)[q].succ;
    forall i | 0 <= i < |succ| ensures succ[i] == Some(names[i]) && names[i] in t {
      assert names[i] in reverse[t[q].name];
      assert Resolve(t.Keys, names[i]) == At(names[i]);
    }
    if p in t && t[q].name in t[p].deps {
      var i :| 0 <= i < |names| && names[i] == p;
      assert succ[i] == Some(p);
    }
  }

  lemma DownComplete(t: Table, reverse: map<string, seq<string>>)
    requires Indexed(t, reverse)
    ensures Complete(Down(t, reverse))
  {
    forall q | q in t ensures forall i :: 0 <= i < |Down(t, reverse)[q].succ| ==> Down(t, reverse)[q].succ[i].Some? {
      DownEdges(t, reverse, q, q);
    }
  }

  lemma DownInside(t: Table, reverse: map<string, seq<string>>)
    requires Indexed(t, reverse)
    ensures Inside(Down(t, reverse))
  {
    var g := Down(t, reverse);
    forall q, i | q in g && 0 <= i < |g[q].succ| && g[q].succ[i].Some? ensures g[q].succ[i].value in g {
      assert g[q].succ[i] in g[q].succ;
      DownEdges(t, reverse, q, g[q].succ[i].value);
    }
  }

  // ---------------------------------------------------------------------------------------------
  // Stopping in reverse

  /** Every dependency is declared by the plain name of the plugin it stands for. */
  ghost predicate PlainNames(t: Table) {
    forall p, i :: p in t && 0 <= i < |t[p].deps| ==>
      var r := Resolve(t.Keys, t[p].deps[i]);
      r.At? && r.key in t && t[r.key].name == t[p].deps[i]
  }

  /** With plain names the way down walks the dependencies, turned around. */
  lemma PlainEdges(t: Table, reverse: map<string, seq<string>>, p: string, q: string)
    requires Keyed(t) && Indexed(t, reverse) && PlainNames(t) && p in t && q in t
    ensures Some(p) in Down(t, reverse)[q].succ <==> DependsOn(t, p, q)
  {
    DownEdges(t, reverse, q, p);
    if t[q].name in t[p].deps {
      var i :| 0 <= i < |t[p].deps| && t[p].deps[i] == t[q].name;
      var d, r := t[p].deps[i], Resolve(t.Keys, t[p].deps[i]);
      assert r.At? && t[r.key].name == d;
      assert q == d + "#" + Decimal(t[q].kind);
      assert d + "#" <= q;
      assert q in Matches(t.Keys, d);
      assert r.key == q;
    }
  }

  /** If the way down only follows dependencies, turned around, it is acyclic when they are. */
  lemma TurnedAcyclic(t: Table, reverse: map<string, seq<string>>)
    requires Indexed(t, reverse) && Acyclic(Up(t))
    requires forall p, q :: q in t && Some(p) in Down(t, reverse)[q].succ ==> DependsOn(t, p, q)
    ensures Acyclic(Down(t, reverse))
  {
    var rank, g := Rank(Up(t)), Down(t, reverse);
    var m := RanksBounded(rank, rank.Keys);
    var rank' := map k | k in t :: if k in rank then m - rank[k] else 0;
    forall q, i | q in g && 0 <= i < |g[q].succ| && g[q].succ[i].Some?
      ensures g[q].succ[i].value in g && rank'[g[q].succ[i].value] < rank'[q]
    {
      var p := g[q].succ[i].value;
      assert Some(p) in g[q].succ;
      UpEdges(t, p, q);
      var j :| 0 <= j < |Up(t)[p].succ| && Up(t)[p].succ[j] == Some(q);
      assert rank[q] < rank[p];
    }
    assert Ranked(g, rank');
  }

  /** On the way down every plugin leads to those that depend on it. */
  ghost predicate LeadsToDependents(t: Table, reverse: map<string, seq<string>>) {
    forall p, q :: q in t && DependsOn(t, p, q) ==> Reach(Down(t, reverse), q, p)
  }

  /** With plain names it does, and every dependency resolves. */
  lemma PlainNamesLead(t: Table, reverse: map<string, seq<string>>)
    requires Keyed(t) && Indexed(t, reverse) && PlainNames(t)
    ensures Complete(Up(t)) && LeadsToDependents(t, reverse)
  {
    forall p, q | q in t && DependsOn(t, p, q) ensures Reach(Down(t, reverse), q, p) {
      PlainEdges(t, reverse, p, q);
      ReachSelf(Down(t, reverse), p);
      ReachEdge(Down(t, reverse), q, p, p);
    }
  }

  /** The key of a plugin whose name is the key of another begins with both names. */
  lemma KeyOfKey(t: Table, r: string, q: string)
    requires Keyed(t) && r in t && q in t && t[q].name == r
    ensures {q, r} <= Matches(t.Keys, t[r].name) && q != r && |t[r].name| < |t[q].name|
    ensures Resolve(t.Keys, t[r].name) != At(r)
  {
    var n := t[r].name;
    assert r == n + "#" + Decimal(t[r].kind) && q == r + "#" + Decimal(t[q].kind);
    assert n + "#" <= r && n + "#" <= q;
    assert |n| < |r| < |q|;
    assert r in Matches(t.Keys, n) && q in Matches(t.Keys, n);
  }

  /** A node from which another is reached has an edge. */
  lemma FirstEdge(g: Graph, a: string, b: string) returns (c: string)
    requires Reach(g, a, b) && a != b
    ensures a in g && Some(c) in g[a].succ
  {
    var path :| Path(g, path, a, b);
    c := path[1];
    assert Some(path[0 + 1]) in g[path[0]].succ;
  }

  /**
    * If every plugin leads to its dependents, a declared name of a plugin is resolved to that plugin. Otherwise it
    * would be the key of a plugin with a shorter name, which leads to the declarer too, so that its name is declared
    * as well.
    */
  lemma {:induction false} DeclaredNameIsOwn(t: Table, reverse: map<string, seq<string>>, q: string, p: string)
    requires Keyed(t) && Indexed(t, reverse) && Complete(Up(t)) && Acyclic(Up(t)) && LeadsToDependents(t, reverse)
    requires q in t && p in t && t[q].name in t[p].deps
    ensures Resolve(t.Keys, t[q].name) == At(q)
    decreases |t[q].name|
  {
    var d := t[q].name;
    var i :| 0 <= i < |t[p].deps| && t[p].deps[i] == d;
    assert Up(t)[p].succ[i] == Target(t.Keys, d);
    ResolveFindsKey(t.Keys, d);
    if d in t {
      assert DependsOn(t, p, d);
      NotOnItself(t, p, d);
      var c := FirstEdge(Down(t, reverse), d, p);
      DownEdges(t, reverse, d, c);
      KeyOfKey(t, d, q);
      DeclaredNameIsOwn(t, reverse, d, c);
    } else {
      assert q == d + "#" + Decimal(t[q].kind) && d + "#" <= q;
      assert q in Matches(t.Keys, d);
    }
  }

  lemma LeadingIsAcyclic(t: Table, reverse: map<string, seq<string>>)
    requires Keyed(t) && Indexed(t, reverse) && Complete(Up(t)) && Acyclic(Up(t)) && LeadsToDependents(t, reverse)
    ensures Acyclic(Down(t, reverse))
  {
    forall p, q | q in t && Some(p) in Down(t, reverse)[q].succ ensures DependsOn(t, p, q) {
      DownEdges(t, reverse, q, p);
      DeclaredNameIsOwn(t, reverse, q, p);
    }
    TurnedAcyclic(t, reverse);
  }

  /** With plain names the way down is acyclic if the dependencies are. */
  lemma PlainNamesAcyclic(t: Table, reverse: map<string, seq<string>>)
    requires Keyed(t) && Indexed(t, reverse) && PlainNames(t) && Acyclic(Up(t))
    ensures Acyclic(Down(t, reverse))
  {
    PlainNamesLead(t, reverse);
    LeadingIsAcyclic(t, reverse);
  }

  /** If every plugin leads to its direct dependents, it leads to all. */
  lemma {:induction false} PathTurned(t: Table, reverse: map<string, seq<string>>, path: seq<string>, p: string,
                                      q: string)
    requires LeadsToDependents(t, reverse) && Path(Up(t), path, p, q)
    ensures Reach(Down(t, reverse), q, p)
    decreases |path|
  {
    if |path| == 1 {
      ReachSelf(Down(t, reverse), p);
    } else {
      var r := path[|path| - 2];
      LastEdge(Up(t), path, p, q);
      UpEdges(t, r, q);
      PathTurned(t, reverse, path[..|path| - 1], p, r);
      ReachOn(Down(t, reverse), q, r, p);
    }
  }

  /** When dependencies resolve and are acyclic, and each plugin leads to its dependents, stopping (or destroying) in
      any order of the table takes every plugin exactly once, and before everything it depends on, directly or not. */
  lemma StopsInReverse(t: Table, reverse: map<string, seq<string>>, order: seq<string>)
    requires Keyed(t) && Indexed(t, reverse) && Complete(Up(t)) && Acyclic(Up(t)) && LeadsToDependents(t, reverse)
    requires Enumerates(order, Down(t, reverse))
    ensures Acyclic(Down(t, reverse))
    ensures var walk := VisitAll(Down(t, reverse), order, []);
            && walk.Some? && Enumerates(walk.value, Down(t, reverse))
            && forall p, q :: p != q && Reach(Up(t), p, q) ==> Before(walk.value, p, q)
  {
    var g := Down(t, reverse);
    LeadingIsAcyclic(t, reverse);
    DownComplete(t, reverse);
    WalkIsTopological(g, order);
    var d := VisitAll(g, order, []).value;
    forall p, q | p != q && Reach(Up(t), p, q) ensures Before(d, p, q) {
      var path :| Path(Up(t), path, p, q);
      PathTurned(t, reverse, path, p, q);
      var turned :| Path(g, turned, q, p);
      ReachedComesBefore(g, d, turned, q, p);
    }
  }

  /** Whatever the order of the table, stopping ends with every plugin before all it depends on, directly or not. */
  ghost predicate StopsRight(t: Table, reverse: map<string, seq<string>>) {
    && AlwaysEnds(Down(t, reverse))
    && forall p, q :: p != q && Reach(Up(t), p, q) ==> AlwaysBefore(Down(t, reverse), p, q)
  }

  /**
    * Stopping ends and respects every dependency, direct or not, whatever the order of the table, if and only if each
    * plugin leads, through declarations of names, to those that depend on it. A dependency declared as name#type,
    * which the index files under a string that is not its plugin's Name(), is respected only if such a chain exists
    * anyway.
    */
  lemma StopsInReverseIff(t: Table, reverse: map<string, seq<string>>, order: seq<string>)
    requires Keyed(t) && Indexed(t, reverse) && Complete(Up(t)) && Acyclic(Up(t)) && Enumerates(order, Down(t, reverse))
    ensures LeadsToDependents(t, reverse) <==> StopsRight(t, reverse)
  {
    DownComplete(t, reverse);
    DownInside(t, reverse);
    if LeadsToDependents(t, reverse) { LeadingStopsRight(t, reverse, order); }
    if StopsRight(t, reverse) {
      EndsIff(Down(t, reverse), order);
      forall p, q | q in t && DependsOn(t, p, q) ensures Reach(Down(t, reverse), q, p) {
        NotOnItself(t, p, q);
        UpEdges(t, p, q);
        ReachSelf(Up(t), q);
        ReachEdge(Up(t), p, q, q);
        AlwaysBeforeIff(Down(t, reverse), order, p, q);
      }
    }
  }

  lemma LeadingStopsRight(t: Table, reverse: map<string, seq<string>>, order: seq<string>)
    requires Keyed(t) && Indexed(t, reverse) && Complete(Up(t)) && Acyclic(Up(t)) && Enumerates(order, Down(t, reverse))
    requires LeadsToDependents(t, reverse) && Complete(Down(t, reverse)) && Inside(Down(t, reverse))
    ensures StopsRight(t, reverse)
  {
    LeadingIsAcyclic(t, reverse);
    forall o | Enumerates(o, Down(t, reverse)) ensures Ends(Down(t, reverse), o) { EndsIff(Down(t, reverse), o); }
    forall p, q | p != q && Reach(Up(t), p, q) ensures AlwaysBefore(Down(t, reverse), p, q) {
      var path :| Path(Up(t), path, p, q);
      PathTurned(t, reverse, path, p, q);
      AlwaysBeforeIff(Down(t, reverse), order, p, q);
    }
  }

  lemma NotOnItself(t: Table, p: string, q: string)
    requires Acyclic(Up(t)) && DependsOn(t, p, q)
    ensures p != q
  {
    UpEdges(t, p, q);
    var i :| 0 <= i < |Up(t)[p].succ| && Up(t)[p].succ[i] == Some(q);
    assert Rank(Up(t))[q] < Rank(Up(t))[p];
  }

  /** Plugin a declares its dependency on plugin b as "b#9"; the index files a under "b#9". */
  const A := Plugin("a", 9, ["b#9"])
  const B := Plugin("b", 9, [])
  const TYPED_TABLE: Table := map["a#9" := A, "b#9" := B]
  const TYPED_INDEX: map<string, seq<string>> := map["b#9" := ["a#9"]]

  lemma TypedTable()
    ensures "a#9" in TYPED_TABLE && "b#9" in TYPED_TABLE && TYPED_TABLE["a#9"] == A && TYPED_TABLE["b#9"] == B
    ensures forall k :: k in TYPED_TABLE ==> k == "a#9" || k == "b#9"
    ensures Keyed(TYPED_TABLE) && Indexed(TYPED_TABLE, TYPED_INDEX)
  {
    assert "a#9"[0] != "b#9"[0];
    assert Key(A) == "a#9" && Key(B) == "b#9";
  }

  lemma TypedGraphs()
    ensures Up(TYPED_TABLE)["a#9"].succ == [Some("b#9")] && Up(TYPED_TABLE)["b#9"].succ == []
    ensures Down(TYPED_TABLE, TYPED_INDEX)["a#9"] == Down(TYPED_TABLE, TYPED_INDEX)["b#9"] == Node([], false)
  {
    TypedTable();
    assert |A.name| == |B.name| == 1 && |"b#9"| == 3;
    assert A.name !in TYPED_INDEX && B.name !in TYPED_INDEX;
    assert Names(TYPED_TABLE, TYPED_INDEX, Stop, "a#9") == [] && Names(TYPED_TABLE, TYPED_INDEX, Stop, "b#9") == [];
    assert Resolve(TYPED_TABLE.Keys, "b#9") == At("b#9");
  }

  lemma TypedAcyclic()
    ensures Acyclic(Up(TYPED_TABLE)) && Acyclic(Down(TYPED_TABLE, TYPED_INDEX))
  {
    TypedGraphs();
    var rank: map<string, nat> := map["a#9" := 1, "b#9" := 0];
    assert Ranked(Up(TYPED_TABLE), rank) && Ranked(Down(TYPED_TABLE, TYPED_INDEX), rank);
  }

  /** The lookup asks for "b" and finds nobody, and b is stopped before a although a depends on it. */
  lemma TypedNameBreaksOrder()
    ensures Indexed(TYPED_TABLE, TYPED_INDEX) && DependsOn(TYPED_TABLE, "a#9", "b#9")
    ensures Acyclic(Up(TYPED_TABLE)) && Acyclic(Down(TYPED_TABLE, TYPED_INDEX))
    ensures Enumerates(["b#9", "a#9"], Down(TYPED_TABLE, TYPED_INDEX))
    ensures VisitAll(Down(TYPED_TABLE, TYPED_INDEX), ["b#9", "a#9"], []) == Some(["b#9", "a#9"])
  {
    TypedTable();
    TypedGraphs();
    TypedAcyclic();
    UpEdges(TYPED_TABLE, "a#9", "b#9");
    UnrelatedNodes(Down(TYPED_TABLE, TYPED_INDEX), "b#9", "a#9");
  }

  /** Plugin p needs plugin a of type 1, as "a#1", which is also the name of a plugin that needs p. */
  const P := Plugin("p", 3, ["a#1"])
  const A1 := Plugin("a", 1, [])
  const Q := Plugin("a#1", 2, ["p"])
  const CYCLE_TABLE: Table := map["p#3" := P, "a#1" := A1, "a#1#2" := Q]
  const CYCLE_INDEX: map<string, seq<string>> := map["a#1" := ["p#3"], "p" := ["a#1#2"]]

  lemma CycleTable()
    ensures CYCLE_TABLE.Keys == {"p#3", "a#1", "a#1#2"}
    ensures CYCLE_TABLE["p#3"] == P && CYCLE_TABLE["a#1"] == A1 && CYCLE_TABLE["a#1#2"] == Q
    ensures Keyed(CYCLE_TABLE)
  {
    assert |"p#3"| == |"a#1"| == 3 && |"a#1#2"| == 5 && "p#3"[0] != "a#1"[0];
    assert Key(P) == "p#3" && Key(A1) == "a#1" && Key(Q) == "a#1#2";
  }

  lemma CycleIndexed()
    ensures Indexed(CYCLE_TABLE, CYCLE_INDEX)
    ensures CYCLE_INDEX["a#1"] == ["p#3"] && CYCLE_INDEX["p"] == ["a#1#2"]
  {
    CycleTable();
    assert |"p"| == 1 && |"a#1"| == 3;
  }

  lemma CycleResolves()
    ensures Resolve(CYCLE_TABLE.Keys, "a#1") == At("a#1") && Resolve(CYCLE_TABLE.Keys, "p") == At("p#3")
  {
    CycleTable();
    assert |"p"| == 1;
    assert "p" + "#" <= "p#3";
    assert "a#1"[0] != 'p' && "a#1#2"[0] != 'p';
    assert Matches(CYCLE_TABLE.Keys, "p") == {"p#3"};
  }

  lemma CycleUp()
    ensures Acyclic(Up(CYCLE_TABLE)) && Complete(Up(CYCLE_TABLE))
  {
    CycleTable();
    CycleResolves();
    var g := Up(CYCLE_TABLE);
    assert g["p#3"].succ == [Some("a#1")] && g["a#1"].succ == [] && g["a#1#2"].succ == [Some("p#3")];
    var rank: map<string, nat> := map["a#1" := 0, "p#3" := 1, "a#1#2" := 2];
    assert Ranked(g, rank);
  }

  /** All dependencies resolve and are acyclic, so that starting succeeds, but p and the plugin named "a#1" are
      each filed under the other's name: StopPlugin, which sets its flag after the recursion, goes from one to the
      other, and no depth of recursion is enough, whatever the order of the table. */
  lemma StopNeverReturns()
    ensures Keyed(CYCLE_TABLE) && Indexed(CYCLE_TABLE, CYCLE_INDEX) && NameValid("a#1") && NameValid("p")
    ensures Acyclic(Up(CYCLE_TABLE)) && Complete(Up(CYCLE_TABLE))
    ensures forall order, depth: nat :: Enumerates(order, Down(CYCLE_TABLE, CYCLE_INDEX)) ==>
              AllWithin(Down(CYCLE_TABLE, CYCLE_INDEX), order, [], depth) == TooDeep
  {
    CycleTable();
    CycleIndexed();
    CycleUp();
    CycleNames();
    var g := Down(CYCLE_TABLE, CYCLE_INDEX);
    DownEdges(CYCLE_TABLE, CYCLE_INDEX, "p#3", "a#1#2");
    DownEdges(CYCLE_TABLE, CYCLE_INDEX, "a#1#2", "p#3");
    TwoCycle(g, "p#3", "a#1#2");
    DownComplete(CYCLE_TABLE, CYCLE_INDEX);
    DownInside(CYCLE_TABLE, CYCLE_INDEX);
    forall order, depth: nat | Enumerates(order, g) ensures AllWithin(g, order, [], depth) == TooDeep {
      EndsIff(g, order);
    }
  }

  lemma CycleNames()
    ensures NameValid("a#1") && NameValid("p")
  {
    assert "1"[1..] == "" && "p"[1..] == "" && "#1"[1..] == "1" && "a#1"[1..] == "#1";
    assert Digits("", 1, true) == Some(1);
    assert Digits("1", 0, false) == Some(1);
    assert Stoi("1") == Some(1);
    assert NameValid("#1");
  }

  lemma TwoCycle(g: Graph, a: string, b: string)
    requires a in g && b in g && Some(b) in g[a].succ && Some(a) in g[b].succ
    ensures !Acyclic(g)
  {
    var i :| 0 <= i < |g[a].succ| && g[a].succ[i] == Some(b);
    var j :| 0 <= j < |g[b].succ| && g[b].succ[j] == Some(a);
    forall rank ensures !Ranked(g, rank) {
    }
  }
}

/** `TrpcPlugin`: collecting plugins and taking them through their lifecycle. */
module Lifecycle {
  import opened Common
  import opened Dfs
  import opened PluginTable

  /** The plugins called in each phase, in order. */
  type Calls = Phase -> seq<string>

  /** A plugin's flag for a phase is set exactly when it was called in that phase. */
  ghost predicate Flagged(flags: set<(Phase, string)>, calls: Calls) {
    forall ph, k :: (ph, k) in flags <==> k in calls(ph)
  }

  function WithCall(calls: Calls, ph: Phase, key: string): Calls {
    other => if other == ph then calls(ph) + [key] else calls(other)
  }

  ghost predicate OtherPhasesKept(calls: Calls, calls': Calls, ph: Phase) {
    forall other :: other != ph ==> calls'(other) == calls(other)
  }

  class TrpcPlugin {
    var plugins: Table                         // plugins_
    var reverseDeps: map<string, seq<string>>  // plugins_reverse_deps_
    var flags: set<(Phase, string)>            // is_inited, is_started, is_stoped and is_destroyed
    var calls: Calls                           // Init(), Start(), Stop() and Destroy() of the plugins, as called

    ghost predicate Valid()
      reads this
    {
      Keyed(plugins) && Flagged(flags, calls)
    }

    constructor ()
      ensures Valid() && plugins == map[] && reverseDeps == map[] && forall ph :: calls(ph) == []
    {
      plugins, reverseDeps, flags, calls := map[], map[], {}, _ => [];
    }

    /** Enters plugins into the table, unless their name and type are taken, and files each under every name it
        declares; aborts, with `ok` false, at a name that is not valid. */
    method AddPlugins(list: seq<Plugin>) returns (ok: bool)
      requires Valid()
      modifies this`plugins, this`reverseDeps
      ensures ok <==> forall p :: p in list ==> DepsValid(p)
      ensures ok ==> Valid() && plugins == Entered(old(plugins), list) && reverseDeps == Filed(old(reverseDeps), list)
    {
      for n := 0 to |list|
        invariant Keyed(plugins) && plugins == Entered(old(plugins), list[..n])
        invariant reverseDeps == Filed(old(reverseDeps), list[..n])
        invariant forall p :: p in list[..n] ==> DepsValid(p)
      {
        var p := list[n];
        assert list[..n + 1][..n] == list[..n] && list[..n + 1] == list[..n] + [p];
        var valid := DepNamesValid(p.deps);
        if !valid {
          assert p in list;
          return false;
        }
        if Key(p) !in plugins {
          plugins := plugins[Key(p) := p];
        }
        FileUnder(p);
      }
      assert list[..|list|] == list;
      return true;
    }

    /** The loop of AddPlugins over the declared names of one plugin. */
    method FileUnder(p: Plugin)
      modifies this`reverseDeps
      ensures reverseDeps == FiledUnder(old(reverseDeps), p, |p.deps|)
    {
      for m := 0 to |p.deps|
        invariant reverseDeps == FiledUnder(old(reverseDeps), p, m)
      {
        var d := p.deps[m];
        reverseDeps := reverseDeps[d := (if d in reverseDeps then reverseDeps[d] else []) + [Key(p)]];
      }
    }

    /** IsDepPluginNameValid. */
    method DepNamesValid(names: seq<string>) returns (valid: bool)
      ensures valid <==> forall i :: 0 <= i < |names| ==> NameValid(names[i])
    {
      valid := true;
      for n := 0 to |names|
        invariant valid <==> forall i :: 0 <= i < n ==> NameValid(names[i])
      {
        if !NameValid(names[n]) {
          valid := false;
        }
      }
    }

    /** FindPlugin, whatever the order in which the table is iterated. */
    method FindPlugin(name: string, order: seq<string>) returns (r: Lookup)
      requires Distinct(order) && forall k :: k in order <==> k in plugins
      ensures r == Resolve(plugins.Keys, name)
    {
      if name in plugins {
        return At(name);
      }
      r := Missing;
      for n := 0 to |order|
        invariant r == Missing ==> forall i :: 0 <= i < n ==> order[i] !in Matches(plugins.Keys, name)
        invariant r.At? ==> r.key in Matches(plugins.Keys, name)
        invariant r.At? ==> forall i :: 0 <= i < n && order[i] in Matches(plugins.Keys, name) ==> order[i] == r.key
        invariant r.At? ==> exists i :: 0 <= i < n && order[i] == r.key
        invariant r != Ambiguous
      {
        var k := order[n];
        if name + "#" <= k {
          if r.At? {
            TwoMatches(Matches(plugins.Keys, name), r.key, k);
            return Ambiguous;
          }
          r := At(k);
        }
      }
      if r.At? {
        forall k | k in Matches(plugins.Keys, name) ensures k == r.key { assert k in order; }
        assert Matches(plugins.Keys, name) == {r.key};
      } else {
        forall k | k in plugins ensures k !in Matches(plugins.Keys, name) { assert k in order; }
        assert Matches(plugins.Keys, name) == {};
      }
    }

    /** The graph that phase `ph` walks over. */
    ghost function Graph(ph: Phase, broken: set<string>): Dfs.Graph
      reads this`plugins, this`reverseDeps
    {
      Walk(plugins, reverseDeps, ph, broken)
    }

    /** InitPlugin, StartPlugin, StopPlugin and DestroyPlugin, which differ in the names they go through first, in the
        flag and in the call. `ok` is false where they abort: a name without its plugin, or Init() of a plugin in
        `broken`, which does not return 0. */
    method VisitPlugin(ph: Phase, key: string, order: seq<string>, broken: set<string>) returns (ok: bool)
      requires Valid() && key in plugins && Enumerates(order, Graph(ph, broken)) && Acyclic(Graph(ph, broken))
      modifies this`flags, this`calls
      ensures Valid()
      ensures ok <==> Visit(Graph(ph, broken), key, old(calls(ph))).Some?
      ensures ok ==> Visit(Graph(ph, broken), key, old(calls(ph))) == Some(calls(ph))
      ensures OtherPhasesKept(old(calls), calls, ph)
      decreases RankOf(Graph(ph, broken), key), 2
    {
      if (ph, key) in flags {
        return true;
      }
      ok := VisitNames(ph, key, order, broken);
      if !ok {
        return false;
      }
      if ph == Init && key in broken {
        return false;
      }
      calls := WithCall(calls, ph, key);
      flags := flags + {(ph, key)};
      return true;
    }

    /** One of the names that come first. */
    method VisitName(ph: Phase, key: string, i: nat, order: seq<string>, broken: set<string>) returns (ok: bool)
      requires Valid() && key in plugins && Enumerates(order, Graph(ph, broken)) && Acyclic(Graph(ph, broken))
      requires i < |Names(plugins, reverseDeps, ph, key)| == |Graph(ph, broken)[key].succ|
      modifies this`flags, this`calls
      ensures Valid()
      ensures VisitSucc(Graph(ph, broken), key, i, old(calls(ph))) ==
              if ok then VisitSucc(Graph(ph, broken), key, i + 1, calls(ph)) else None
      ensures OtherPhasesKept(old(calls), calls, ph)
      decreases RankOf(Graph(ph, broken), key), 0
    {
      var name := Names(plugins, reverseDeps, ph, key)[i];
      var it := FindPlugin(name, order);
      assert Graph(ph, broken)[key].succ[i] == Target(plugins.Keys, name);
      if !it.At? {
        return false;
      }
      ResolveFindsKey(plugins.Keys, name);
      ghost var done := calls(ph);
      ok := VisitPlugin(ph, it.key, order, broken);
      if ok {
        SuccGoesOn(Graph(ph, broken), key, i, done, it.key, calls(ph));
      }
    }

    /** Their loop over the names that come first. */
    method VisitNames(ph: Phase, key: string, order: seq<string>, broken: set<string>) returns (ok: bool)
      requires Valid() && key in plugins && Enumerates(order, Graph(ph, broken)) && Acyclic(Graph(ph, broken))
      modifies this`flags, this`calls
      ensures Valid()
      ensures ok <==> VisitSucc(Graph(ph, broken), key, 0, old(calls(ph))).Some?
      ensures ok ==> VisitSucc(Graph(ph, broken), key, 0, old(calls(ph))) == Some(calls(ph))
      ensures OtherPhasesKept(old(calls), calls, ph)
      decreases RankOf(Graph(ph, broken), key), 1
    {
      ghost var g := Graph(ph, broken);
      ghost var walk := VisitSucc(g, key, 0, calls(ph));
      var names := Names(plugins, reverseDeps, ph, key);
      assert |names| == |g[key].succ|;
      for i := 0 to |names|
        invariant Valid() && Graph(ph, broken) == g && OtherPhasesKept(old(calls), calls, ph)
        invariant walk == VisitSucc(g, key, i, calls(ph))
      {
        ok := VisitName(ph, key, i, order, broken);
        if !ok {
          return;
        }
      }
      return true;
    }

    /** InitPlugins, StartPlugins, StopPlugins and DestroyPlugins: `order` is the order in which the table is
        iterated. */
    method VisitPlugins(ph: Phase, order: seq<string>, broken: set<string>) returns (ok: bool)
      requires Valid() && Enumerates(order, Graph(ph, broken)) && Acyclic(Graph(ph, broken))
      modifies this`flags, this`calls
      ensures Valid()
      ensures ok <==> VisitAll(Graph(ph, broken), order, old(calls(ph))).Some?
      ensures ok ==> VisitAll(Graph(ph, broken), order, old(calls(ph))) == Some(calls(ph))
      ensures OtherPhasesKept(old(calls), calls, ph)
    {
      ghost var g := Graph(ph, broken);
      for i := 0 to |order|
        invariant Valid() && Graph(ph, broken) == g
        invariant VisitAll(g, order, old(calls(ph))) == VisitAll(g, order[i..], calls(ph))
        invariant OtherPhasesKept(old(calls), calls, ph)
      {
        assert order[i..][1..] == order[i + 1..] && order[i] in order;
        ok := VisitPlugin(ph, order[i], order, broken);
        if !ok {
          return;
        }
      }
      return true;
    }

    /** InitPlugins and StartPlugins, each on plugins it has not touched: they succeed exactly when every dependency
        finds its plugin and every Init() returns 0, and then every plugin was called once, after all plugins it
        depends on, directly or not. */
    method BringUp(ph: Phase, order: seq<string>, broken: set<string>) returns (ok: bool)
      requires Valid() && (ph == Init || ph == Start) && calls(ph) == []
      requires Enumerates(order, Up(plugins)) && Acyclic(Up(plugins))
      modifies this`flags, this`calls
      ensures Valid() && OtherPhasesKept(old(calls), calls, ph)
      ensures ok <==> AllResolve(plugins) && (ph == Init ==> broken !! plugins.Keys)
      ensures ok ==> Enumerates(calls(ph), Up(plugins))
      ensures ok ==> forall p, q :: p != q && Reach(Up(plugins), p, q) ==> Before(calls(ph), q, p)
    {
      ghost var g := Graph(ph, broken);
      UpwardWalk(plugins, reverseDeps, ph, broken);
      SameEdgesSame(g, Up(plugins));
      WalkIsTopological(g, order);
      ok := VisitPlugins(ph, order, broken);
      if ok {
        forall p, q | p != q && Reach(Up(plugins), p, q) ensures Before(calls(ph), q, p) {
          var path :| Path(g, path, p, q);
          ReachedComesBefore(g, calls(ph), path, p, q);
        }
      }
    }

    /** StopPlugins and DestroyPlugins, when dependencies resolve and each plugin leads to its dependents: they
        succeed, and every plugin was called once, before all plugins it depends on, directly or not. */
    method TakeDown(ph: Phase, order: seq<string>) returns (ok: bool)
      requires Valid() && (ph == Stop || ph == Destroy) && calls(ph) == [] && Enumerates(order, Graph(ph, {}))
      requires Indexed(plugins, reverseDeps) && Complete(Up(plugins)) && Acyclic(Up(plugins))
      requires LeadsToDependents(plugins, reverseDeps)
      modifies this`flags, this`calls
      ensures Valid() && OtherPhasesKept(old(calls), calls, ph)
      ensures ok && Enumerates(calls(ph), Graph(ph, {}))
      ensures forall p, q :: p != q && Reach(Up(plugins), p, q) ==> Before(calls(ph), p, q)
    {
      assert Graph(ph, {}) == Down(plugins, reverseDeps);
      StopsInReverse(plugins, reverseDeps, order);
      ok := VisitPlugins(ph, order, {});
    }
  }

  predicate DepsValid(p: Plugin) {
    forall i :: 0 <= i < |p.deps| ==> NameValid(p.deps[i])
  }

  /** No two of the new plugins, and no new and old one, have the same name and type. */
  ghost predicate NewKeys(t: Table, list: seq<Plugin>) {
    && (forall p :: p in list ==> Key(p) !in t)
    && (forall i, j :: 0 <= i < j < |list| ==> Key(list[i]) != Key(list[j]))
  }

  /** The table after plugins_.emplace for each plugin of the list. */
  function Entered(t: Table, list: seq<Plugin>): Table {
    if list == [] then t else
    var t', p := Entered(t, list[..|list| - 1]), list[|list| - 1];
    if Key(p) in t' then t' else t'[Key(p) := p]
  }

  function FiledUnder(reverse: map<string, seq<string>>, p: Plugin, m: nat): map<string, seq<string>>
    requires m <= |p.deps|
  {
    if m == 0 then reverse else
    var r, d := FiledUnder(reverse, p, m - 1), p.deps[m - 1];
    r[d := (if d in r then r[d] else []) + [Key(p)]]
  }

  /** The reverse index after each plugin of the list was filed under the names it declares. */
  function Filed(reverse: map<string, seq<string>>, list: seq<Plugin>): map<string, seq<string>> {
    if list == [] then reverse else
    var p := list[|list| - 1];
    FiledUnder(Filed(reverse, list[..|list| - 1]), p, |p.deps|)
  }

  /** No earlier plugin of the list has the name and type of the i-th. */
  predicate FirstOfKey(list: seq<Plugin>, i: nat)
    requires i < |list|
  {
    forall j :: 0 <= j < i ==> Key(list[j]) != Key(list[i])
  }

  lemma {:induction false} EnteredKeeps(t: Table, list: seq<Plugin>, k: string)
    ensures k in t ==> k in Entered(t, list) && Entered(t, list)[k] == t[k]
    ensures k in Entered(t, list) ==> k in t || exists i :: 0 <= i < |list| && Key(list[i]) == k
  {
    if list != [] {
      var n := |list| - 1;
      EnteredKeeps(t, list[..n], k);
      if k in Entered(t, list[..n]) && k !in t {
        var i :| 0 <= i < n && Key(list[..n][i]) == k;
        assert Key(list[i]) == k;
      }
    }
  }

  lemma {:induction false} EnteredNew(t: Table, list: seq<Plugin>, i: nat)
    requires i < |list| && Key(list[i]) !in t && FirstOfKey(list, i)
    ensures Key(list[i]) in Entered(t, list) && Entered(t, list)[Key(list[i])] == list[i]
  {
    var n := |list| - 1;
    if i < n {
      assert FirstOfKey(list[..n], i) && list[..n][i] == list[i];
      EnteredNew(t, list[..n], i);
    } else {
      NotEntered(t, list, n, Key(list[n]));
    }
  }

  /** The table then has the old plugins, and of the new ones those whose name and type were not taken. */
  lemma EnteredTable(t: Table, list: seq<Plugin>)
    ensures forall k :: k in t ==> k in Entered(t, list) && Entered(t, list)[k] == t[k]
    ensures forall i :: 0 <= i < |list| && Key(list[i]) !in t && FirstOfKey(list, i) ==>
              Key(list[i]) in Entered(t, list) && Entered(t, list)[Key(list[i])] == list[i]
    ensures forall k :: k in Entered(t, list) ==> k in t || exists i :: 0 <= i < |list| && Key(list[i]) == k
  {
    forall k | k in t ensures k in Entered(t, list) && Entered(t, list)[k] == t[k] { EnteredKeeps(t, list, k); }
    forall i | 0 <= i < |list| && Key(list[i]) !in t && FirstOfKey(list, i)
      ensures Key(list[i]) in Entered(t, list) && Entered(t, list)[Key(list[i])] == list[i]
    {
      EnteredNew(t, list, i);
    }
    forall k | k in Entered(t, list) ensures k in t || exists i :: 0 <= i < |list| && Key(list[i]) == k {
      EnteredKeeps(t, list, k);
    }
  }

  lemma {:induction false} NotEntered(t: Table, list: seq<Plugin>, n: nat, k: string)
    requires n <= |list| && k !in t && forall i :: 0 <= i < n ==> Key(list[i]) != k
    ensures k !in Entered(t, list[..n])
  {
    if n > 0 {
      NotEntered(t, list, n - 1, k);
      assert list[..n][..n - 1] == list[..n - 1];
    }
  }

  lemma TwoMatches(s: set<string>, a: string, b: string)
    requires a in s && b in s && a != b
    ensures s != {} && !exists k :: s == {k}
  {
    assert forall k :: a !in {k} || b !in {k};
  }

  /** The index while plugin `p`, new to table `t`, is being filed under its first m declared names. */
  ghost predicate IndexedUpTo(t: Table, reverse: map<string, seq<string>>, p: Plugin, m: nat)
    requires m <= |p.deps|
  {
    && (forall d, k :: d in reverse && k in reverse[d] ==>
          (k in t && d in t[k].deps) || (k == Key(p) && d in p.deps[..m]))
    && (forall k, d :: k in t && d in t[k].deps ==> d in reverse && k in reverse[d])
    && (forall d :: d in p.deps[..m] ==> d in reverse && Key(p) in reverse[d])
  }

  lemma FiledNext(t: Table, reverse: map<string, seq<string>>, p: Plugin, m: nat)
    requires m < |p.deps| && IndexedUpTo(t, reverse, p, m)
    ensures var d := p.deps[m];
            IndexedUpTo(t, reverse[d := (if d in reverse then reverse[d] else []) + [Key(p)]], p, m + 1)
  {
    var d0 := p.deps[m];
    var reverse' := reverse[d0 := (if d0 in reverse then reverse[d0] else []) + [Key(p)]];
    assert p.deps[..m + 1] == p.deps[..m] + [d0];
    forall d, k | d in reverse' && k in reverse'[d]
      ensures (k in t && d in t[k].deps) || (k == Key(p) && d in p.deps[..m + 1])
    {
      assert (d in reverse && k in reverse[d]) || (d == d0 && k == Key(p));
    }
    forall k, d | k in t && d in t[k].deps ensures d in reverse' && k in reverse'[d] {
      assert d in reverse && k in reverse[d];
    }
  }

  lemma {:induction false} FiledUpTo(t: Table, reverse: map<string, seq<string>>, p: Plugin, m: nat)
    requires m <= |p.deps| && Indexed(t, reverse)
    ensures IndexedUpTo(t, FiledUnder(reverse, p, m), p, m)
  {
    if m == 0 {
      FiledNone(t, reverse, p);
    } else {
      FiledUpTo(t, reverse, p, m - 1);
      FiledNext(t, FiledUnder(reverse, p, m - 1), p, m - 1);
    }
  }

  lemma FiledNone(t: Table, reverse: map<string, seq<string>>, p: Plugin)
    requires Indexed(t, reverse)
    ensures IndexedUpTo(t, reverse, p, 0)
  {
  }

  lemma FiledOne(t: Table, reverse: map<string, seq<string>>, p: Plugin)
    requires Key(p) !in t && Indexed(t, reverse)
    ensures Indexed(t[Key(p) := p], FiledUnder(reverse, p, |p.deps|))
  {
    var t', reverse' := t[Key(p) := p], FiledUnder(reverse, p, |p.deps|);
    FiledUpTo(t, reverse, p, |p.deps|);
    assert p.deps[..|p.deps|] == p.deps;
    forall d, k | d in reverse' && k in reverse'[d] ensures k in t' && d in t'[k].deps {
      assert (k in t && d in t[k].deps) || (k == Key(p) && d in p.deps);
    }
    forall k, d | k in t' && d in t'[k].deps ensures d in reverse' && k in reverse'[d] {
      assert k != Key(p) ==> k in t;
    }
  }

  lemma NewKeysPrefix(t: Table, list: seq<Plugin>, n: nat)
    requires NewKeys(t, list) && n <= |list|
    ensures NewKeys(t, list[..n])
  {
    forall p | p in list[..n] ensures Key(p) !in t { assert p in list; }
  }

  /** Plugins with names and types of their own keep the reverse index exact: each is listed under every string it
      declares, and under no other. */
  lemma {:induction false} AddedIndexed(t: Table, reverse: map<string, seq<string>>, list: seq<Plugin>)
    requires Indexed(t, reverse) && NewKeys(t, list)
    ensures Indexed(Entered(t, list), Filed(reverse, list))
  {
    if list != [] {
      var n := |list| - 1;
      NewKeysPrefix(t, list, n);
      AddedIndexed(t, reverse, list[..n]);
      assert list[n] in list;
      NotEntered(t, list, n, Key(list[n]));
      FiledOne(Entered(t, list[..n]), Filed(reverse, list[..n]), list[n]);
    }
  }
}
