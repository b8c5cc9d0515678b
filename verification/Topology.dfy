/** Failure over the service graph: the outage of one value of a label plane, and the
    blast radius of one service. */
module Topology {
  import opened Common

  datatype Edge = Edge(src: string, dst: string, transport: string)

  datatype Node = Node(app: string, group: string, labels: map<string, string>)

  /** Library text operations, left open: lower-casing, and the trimmed non-empty parts
      of a label between slashes. */
  datatype Lib = Lib(lower: string -> string, parts: string -> seq<string>)

  /** A call fails with its callee unless it goes through a message broker. */
  predicate Sync(lib: Lib, e: Edge) { lib.lower(e.transport) != "kafka" && lib.lower(e.transport) != "nats" }

  function Values(lib: Lib, n: Node, key: string): seq<string> {
    lib.parts(if key in n.labels then n.labels[key] else "")
  }

  // ---- what an outage reaches ----

  /** Whoever synchronously calls a member is a member. */
  predicate Closed(lib: Lib, edges: seq<Edge>, s: set<string>) {
    forall i :: 0 <= i < |edges| && Sync(lib, edges[i]) && edges[i].dst in s ==> edges[i].src in s
  }

  ghost predicate LeastClosed(lib: Lib, edges: seq<Edge>, base: set<string>, s: set<string>) {
    && base <= s && Closed(lib, edges, s)
    && forall y: set<string> :: base <= y && Closed(lib, edges, y) ==> s <= y
  }

  /** All that a closed set around `base` must contain. */
  ghost predicate Forced(lib: Lib, edges: seq<Edge>, base: set<string>, s: set<string>) {
    forall y: set<string> :: base <= y && Closed(lib, edges, y) ==> s <= y
  }

  lemma ForcedCallers(lib: Lib, edges: seq<Edge>, base: set<string>, s: set<string>, frontier: set<string>)
    requires Forced(lib, edges, base, s) && frontier <= s
    ensures Forced(lib, edges, base, s + Callers(lib, edges, frontier))
  {
    hide Sync;
    forall y: set<string> | base <= y && Closed(lib, edges, y) ensures s + Callers(lib, edges, frontier) <= y {
      assert s <= y;
    }
  }

  method SimulateOutage(lib: Lib, nodes: seq<Node>, edges: seq<Edge>, key: string, val: string)
    returns (dead: set<string>, degraded: set<string>, casc: set<string>)
    ensures dead == set n | n in nodes && val in Values(lib, n, key) && |Values(lib, n, key)| == 1 :: n.app
    ensures degraded == set n | n in nodes && val in Values(lib, n, key) && |Values(lib, n, key)| != 1 :: n.app
    ensures casc !! dead && LeastClosed(lib, edges, dead, dead + casc)
  {
    hide Values;
    dead, degraded := Homes(lib, nodes, key, val);
    casc := Cascade(lib, edges, dead);
  }

  method Cascade(lib: Lib, edges: seq<Edge>, dead: set<string>) returns (casc: set<string>)
    ensures casc !! dead && LeastClosed(lib, edges, dead, dead + casc)
  {
    var seen, frontier := dead, dead;
    casc := {};
    ghost var universe := dead + set i | 0 <= i < |edges| :: edges[i].src;
    while frontier != {}
      invariant seen == dead + casc && casc !! dead && frontier <= seen <= universe
      invariant Forced(lib, edges, dead, seen)
      invariant Callers(lib, edges, seen - frontier) <= seen
      decreases universe - seen, frontier
    {
      hide Forced, Callers;
      ghost var before := seen;
      CallersWithin(lib, edges, frontier);
      ForcedCallers(lib, edges, dead, seen, frontier);
      CallersSplit(lib, edges, before - frontier, frontier);
      assert (before - frontier) + frontier == before;
      var next;
      next, seen := SpreadSet(lib, edges, frontier, seen);
      assert seen - next == before;
      casc := casc + next;
      frontier := next;
    }
    assert seen - {} == seen;
    ClosedCallers(lib, edges, seen);
  }

  lemma ClosedCallers(lib: Lib, edges: seq<Edge>, s: set<string>)
    ensures Closed(lib, edges, s) <==> Callers(lib, edges, s) <= s
  {
    if Callers(lib, edges, s) <= s {
      forall i | 0 <= i < |edges| && Sync(lib, edges[i]) && edges[i].dst in s ensures edges[i].src in s {
        assert edges[i].src in Callers(lib, edges, s);
      }
    }
  }

  lemma CallersWithin(lib: Lib, edges: seq<Edge>, s: set<string>)
    ensures Callers(lib, edges, s) <= set i | 0 <= i < |edges| :: edges[i].src
  {
  }

  /** One level of the outage: the callers of the frontier not seen before. */
  method SpreadSet(lib: Lib, edges: seq<Edge>, frontier: set<string>, seen0: set<string>)
    returns (next: set<string>, seen: set<string>)
    ensures seen == seen0 + Callers(lib, edges, frontier) && next == seen - seen0
  {
    hide Sync;
    next, seen := {}, seen0;
    for k := 0 to |edges|
      invariant seen == seen0 + set i | 0 <= i < k && Sync(lib, edges[i]) && edges[i].dst in frontier :: edges[i].src
      invariant next == seen - seen0
    {
      var e := edges[k];
      if Sync(lib, e) && e.dst in frontier && e.src !in seen {
        seen := seen + {e.src};
        next := next + {e.src};
      }
    }
  }

  /** Nodes only at home in the value go dark, those with another home degrade. */
  method Homes(lib: Lib, nodes: seq<Node>, key: string, val: string) returns (dead: set<string>, degraded: set<string>)
    ensures dead == set n | n in nodes && val in Values(lib, n, key) && |Values(lib, n, key)| == 1 :: n.app
    ensures degraded == set n | n in nodes && val in Values(lib, n, key) && |Values(lib, n, key)| != 1 :: n.app
  {
    hide Values;
    dead, degraded := {}, {};
    for i := 0 to |nodes|
      invariant dead == set n | n in nodes[..i] && val in Values(lib, n, key) && |Values(lib, n, key)| == 1 :: n.app
      invariant degraded == set n | n in nodes[..i] && val in Values(lib, n, key) && |Values(lib, n, key)| != 1 :: n.app
    {
      assert nodes[..i + 1] == nodes[..i] + [nodes[i]];
      var vals := Values(lib, nodes[i], key);
      if val !in vals { continue; }
      if |vals| == 1 {
        dead := dead + {nodes[i].app};
      } else {
        degraded := degraded + {nodes[i].app};
      }
    }
    assert nodes[..|nodes|] == nodes;
  }

  /** The cascade is determined: there is one least closed set. */
  lemma LeastIsUnique(lib: Lib, edges: seq<Edge>, base: set<string>, s: set<string>, t: set<string>)
    requires LeastClosed(lib, edges, base, s) && LeastClosed(lib, edges, base, t)
    ensures s == t
  {
  }

  // ---- call distance ----

  function Callers(lib: Lib, edges: seq<Edge>, s: set<string>): set<string> {
    set i | 0 <= i < |edges| && Sync(lib, edges[i]) && edges[i].dst in s :: edges[i].src
  }

  /** The services at most `n` synchronous calls away from `app`. */
  function Ball(lib: Lib, edges: seq<Edge>, app: string, n: nat): set<string> {
    if n == 0 then {app}
    else Ball(lib, edges, app, n - 1) + Callers(lib, edges, Ball(lib, edges, app, n - 1))
  }

  ghost predicate Calls(lib: Lib, edges: seq<Edge>, a: string, b: string) {
    exists i :: 0 <= i < |edges| && Sync(lib, edges[i]) && edges[i].src == a && edges[i].dst == b
  }

  /** A chain of calls from its first service to `app`. */
  ghost predicate Chain(lib: Lib, edges: seq<Edge>, p: seq<string>, app: string) {
    p != [] && p[|p| - 1] == app && forall i :: 0 <= i < |p| - 1 ==> Calls(lib, edges, p[i], p[i + 1])
  }

  /** Membership in a ball is the existence of a short enough call chain. */
  lemma {:induction false} ChainInBall(lib: Lib, edges: seq<Edge>, p: seq<string>, app: string, n: nat)
    requires Chain(lib, edges, p, app) && |p| - 1 <= n
    ensures p[0] in Ball(lib, edges, app, n)
    decreases n
  {
    hide Calls;
    if |p| == 1 {
      AppInBall(lib, edges, app, n);
    } else {
      assert Chain(lib, edges, p[1..], app);
      ChainInBall(lib, edges, p[1..], app, n - 1);
      assert Calls(lib, edges, p[0], p[1]);
      CallerIn(lib, edges, p[0], p[1], Ball(lib, edges, app, n - 1));
    }
  }

  lemma CallerIn(lib: Lib, edges: seq<Edge>, a: string, b: string, s: set<string>)
    requires Calls(lib, edges, a, b) && b in s
    ensures a in Callers(lib, edges, s)
  {
  }

  lemma {:induction false} AppInBall(lib: Lib, edges: seq<Edge>, app: string, n: nat)
    ensures app in Ball(lib, edges, app, n)
  {
    if n > 0 { AppInBall(lib, edges, app, n - 1); }
  }

  lemma {:induction false} BallHasChain(lib: Lib, edges: seq<Edge>, x: string, app: string, n: nat)
    returns (p: seq<string>)
    requires x in Ball(lib, edges, app, n)
    ensures Chain(lib, edges, p, app) && p[0] == x && |p| - 1 <= n
    decreases n
  {
    if n == 0 {
      p := [x];
    } else if x in Ball(lib, edges, app, n - 1) {
      p := BallHasChain(lib, edges, x, app, n - 1);
    } else {
      var i :| 0 <= i < |edges| && Sync(lib, edges[i])
        && edges[i].dst in Ball(lib, edges, app, n - 1) && edges[i].src == x;
      var q := BallHasChain(lib, edges, edges[i].dst, app, n - 1);
      assert Calls(lib, edges, x, q[0]);
      p := [x] + q;
    }
  }

  function Elements(s: seq<string>): set<string> { set x | x in s }

  lemma ElementsAppend(s: seq<string>, x: string)
    ensures Elements(s + [x]) == Elements(s) + {x}
    ensures Distinct(s) && x !in Elements(s) ==> Distinct(s + [x])
  {
  }

  // ---- blast radius ----

  /** The group of a service: that of the last node with its name. */
  function GroupOf(nodes: seq<Node>, app: string): string {
    if nodes == [] then ""
    else if nodes[|nodes| - 1].app == app then nodes[|nodes| - 1].group
    else GroupOf(nodes[..|nodes| - 1], app)
  }

  predicate TopicGroup(group: string) { group == "kafka topics" || group == "kafka clusters" }

  predicate IsTopic(nodes: seq<Node>, app: string) { TopicGroup(GroupOf(nodes, app)) }

  /** Edge `i` is a synchronous call from `a` to `b`. */
  predicate CallAt(lib: Lib, edges: seq<Edge>, i: int, a: string, b: string) {
    0 <= i < |edges| && Sync(lib, edges[i]) && edges[i].src == a && edges[i].dst == b
  }

  /** The transport of the last such call. */
  ghost predicate LastCall(lib: Lib, edges: seq<Edge>, i: int, a: string, b: string, transport: string) {
    CallAt(lib, edges, i, a, b) && transport == lib.lower(edges[i].transport)
    && forall j :: i < j ==> !CallAt(lib, edges, j, a, b)
  }

  /** Each synchronous caller of `app`, with its transport. */
  ghost predicate CallersOf(lib: Lib, edges: seq<Edge>, app: string, m: map<string, string>) {
    && m.Keys == Callers(lib, edges, {app})
    && forall x :: x in m ==> exists i :: LastCall(lib, edges, i, x, app, m[x])
  }

  /** Each synchronous dependency of `app` that is not a topic, with its transport. */
  ghost predicate DependenciesOf(lib: Lib, nodes: seq<Node>, edges: seq<Edge>, app: string, m: map<string, string>) {
    && m.Keys == (set i | 0 <= i < |edges|
       && edges[i].src == app && Sync(lib, edges[i]) && !IsTopic(nodes, edges[i].dst)
        :: edges[i].dst)
    && forall x :: x in m ==> exists i :: LastCall(lib, edges, i, app, x, m[x])
  }

  /** The consumers fed through a broker. */
  function Stale(lib: Lib, nodes: seq<Node>, edges: seq<Edge>, app: string): set<string> {
    set i | 0 <= i < |edges| && edges[i].src == app && !Sync(lib, edges[i]) && !IsTopic(nodes, edges[i].dst)
      :: edges[i].dst
  }

  function Topics(nodes: seq<Node>, edges: seq<Edge>, app: string): set<string> {
    set i | 0 <= i < |edges| && edges[i].src == app && IsTopic(nodes, edges[i].dst) :: edges[i].dst
  }

  /** The other services at the topics of `app`. */
  function Peers(nodes: seq<Node>, edges: seq<Edge>, app: string): set<string> {
    set i | 0 <= i < |edges| && edges[i].dst in Topics(nodes, edges, app) && edges[i].src != app :: edges[i].src
  }

  datatype Impact = Impact(
    callers: map<string, string>,
    cascade: seq<string>,
    stale: set<string>,
    topics: set<string>,
    peers: set<string>,
    deps: map<string, string>,
    affected: nat)

  /** The blast radius of `app`: its direct callers, the services two and three calls away,
      the consumers it feeds through a broker, its topics and who shares them, and what it
      needs itself. */
  method ComputeImpact(lib: Lib, nodes: seq<Node>, edges: seq<Edge>, app: string) returns (r: Impact)
    ensures CallersOf(lib, edges, app, r.callers) && DependenciesOf(lib, nodes, edges, app, r.deps)
    ensures Elements(r.cascade) == Ball(lib, edges, app, 3) - Ball(lib, edges, app, 1) && Distinct(r.cascade)
    ensures r.stale == Stale(lib, nodes, edges, app) && r.topics == Topics(nodes, edges, app)
    ensures r.peers == Peers(nodes, edges, app)
    ensures r.affected == |Ball(lib, edges, app, 3)| - 1 + |Stale(lib, nodes, edges, app)|
  {
    hide CallersOf, DependenciesOf, Stale, Topics, Peers, Ball, Elements;
    var groups := GroupIndex(nodes);
    var callers := FindCallers(lib, edges, app);
    var deps, stale, topics := FindCallees(lib, nodes, edges, app, groups);
    var peers := FindPeers(nodes, edges, app, topics);
    CallerKeys(lib, edges, app, callers);
    var seen, cascade := CascadeUp(lib, edges, app, callers.Keys);
    AppInBall(lib, edges, app, 3);
    r := Impact(callers, cascade, stale, topics, peers, deps, |seen| - 1 + |stale|);
  }

  lemma CallerKeys(lib: Lib, edges: seq<Edge>, app: string, m: map<string, string>)
    requires CallersOf(lib, edges, app, m)
    ensures m.Keys == Callers(lib, edges, {app})
  {
  }

  method GroupIndex(nodes: seq<Node>) returns (groups: map<string, string>)
    ensures forall a :: GroupOf(nodes, a) == if a in groups then groups[a] else ""
  {
    groups := map[];
    for i := 0 to |nodes|
      invariant forall a :: GroupOf(nodes[..i], a) == if a in groups then groups[a] else ""
    {
      assert nodes[..i + 1][..i] == nodes[..i];
      groups := groups[nodes[i].app := nodes[i].group];
    }
    assert nodes[..|nodes|] == nodes;
  }

  /** The calls among the first `k` edges. */
  ghost predicate LastSoFar(lib: Lib, edges: seq<Edge>, k: int, i: int, a: string, b: string, transport: string) {
    i < k && CallAt(lib, edges, i, a, b) && transport == lib.lower(edges[i].transport)
    && forall j :: i < j < k ==> !CallAt(lib, edges, j, a, b)
  }

  lemma AllSoFar(lib: Lib, edges: seq<Edge>, i: int, a: string, b: string, transport: string)
    requires LastSoFar(lib, edges, |edges|, i, a, b, transport)
    ensures LastCall(lib, edges, i, a, b, transport)
  {
    hide Sync;
  }

  lemma NowLast(lib: Lib, edges: seq<Edge>, k: nat, a: string, b: string)
    requires CallAt(lib, edges, k, a, b)
    ensures LastSoFar(lib, edges, k + 1, k, a, b, lib.lower(edges[k].transport))
  {
  }

  lemma StillLast(lib: Lib, edges: seq<Edge>, k: nat, i: int, a: string, b: string, transport: string)
    requires LastSoFar(lib, edges, k, i, a, b, transport) && !CallAt(lib, edges, k, a, b)
    ensures LastSoFar(lib, edges, k + 1, i, a, b, transport)
  {
    hide Sync;
  }

  predicate TopicIn(groups: map<string, string>, app: string) {
    TopicGroup(if app in groups then groups[app] else "")
  }

  lemma TopicIndexed(nodes: seq<Node>, groups: map<string, string>)
    requires forall a :: GroupOf(nodes, a) == if a in groups then groups[a] else ""
    ensures forall a :: TopicIn(groups, a) == IsTopic(nodes, a)
  {
    hide TopicGroup, GroupOf;
  }

  method FindCallers(lib: Lib, edges: seq<Edge>, app: string) returns (m: map<string, string>)
    ensures CallersOf(lib, edges, app, m)
  {
    hide Sync, LastSoFar, LastCall;
    m := map[];
    for k := 0 to |edges|
      invariant m.Keys == set i | 0 <= i < k && Sync(lib, edges[i]) && edges[i].dst in {app} :: edges[i].src
      invariant forall x :: x in m ==> exists i :: LastSoFar(lib, edges, k, i, x, app, m[x])
    {
      var e := edges[k];
      ghost var before := m;
      if e.dst == app && Sync(lib, e) { m := m[e.src := lib.lower(e.transport)]; }
      var n := k + 1;
      forall x | x in m ensures exists i :: LastSoFar(lib, edges, n, i, x, app, m[x]) {
        if CallAt(lib, edges, k, x, app) {
          NowLast(lib, edges, k, x, app);
        } else {
          var i :| LastSoFar(lib, edges, k, i, x, app, before[x]);
          StillLast(lib, edges, k, i, x, app, m[x]);
        }
      }
    }
    forall x | x in m ensures exists i :: LastCall(lib, edges, i, x, app, m[x]) {
      var i :| LastSoFar(lib, edges, |edges|, i, x, app, m[x]);
      AllSoFar(lib, edges, i, x, app, m[x]);
    }
  }

  method FindCallees(lib: Lib, nodes: seq<Node>, edges: seq<Edge>, app: string, groups: map<string, string>)
    returns (deps: map<string, string>, stale: set<string>, topics: set<string>)
    requires forall a :: GroupOf(nodes, a) == if a in groups then groups[a] else ""
    ensures DependenciesOf(lib, nodes, edges, app, deps)
    ensures stale == Stale(lib, nodes, edges, app) && topics == Topics(nodes, edges, app)
  {
    TopicIndexed(nodes, groups);
    hide Sync, IsTopic, TopicIn, LastSoFar, LastCall;
    deps, stale, topics := map[], {}, {};
    for k := 0 to |edges|
      invariant stale == set i | 0 <= i < k
        && edges[i].src == app && !Sync(lib, edges[i]) && !IsTopic(nodes, edges[i].dst)
        :: edges[i].dst
      invariant topics == set i | 0 <= i < k && edges[i].src == app && IsTopic(nodes, edges[i].dst) :: edges[i].dst
      invariant deps.Keys == set i | 0 <= i < k
        && edges[i].src == app && Sync(lib, edges[i]) && !IsTopic(nodes, edges[i].dst)
        :: edges[i].dst
      invariant forall x :: x in deps ==> !IsTopic(nodes, x) && exists i :: LastSoFar(lib, edges, k, i, app, x, deps[x])
    {
      var e := edges[k];
      ghost var before := deps;
      if e.src == app {
        var topic := TopicIn(groups, e.dst);
        if !Sync(lib, e) && !topic {
          stale := stale + {e.dst};
        } else if topic {
          topics := topics + {e.dst};
        } else if Sync(lib, e) {
          deps := deps[e.dst := lib.lower(e.transport)];
        }
      }
      var n := k + 1;
      forall x | x in deps ensures !IsTopic(nodes, x) && exists i :: LastSoFar(lib, edges, n, i, app, x, deps[x]) {
        if x in before && !CallAt(lib, edges, k, app, x) {
          var i :| LastSoFar(lib, edges, k, i, app, x, before[x]);
          StillLast(lib, edges, k, i, app, x, deps[x]);
        } else {
          NowLast(lib, edges, k, app, x);
        }
      }
    }
    forall x | x in deps ensures exists i :: LastCall(lib, edges, i, app, x, deps[x]) {
      var i :| LastSoFar(lib, edges, |edges|, i, app, x, deps[x]);
      AllSoFar(lib, edges, i, app, x, deps[x]);
    }
  }

  method FindPeers(nodes: seq<Node>, edges: seq<Edge>, app: string, topics: set<string>) returns (peers: set<string>)
    requires topics == Topics(nodes, edges, app)
    ensures peers == Peers(nodes, edges, app)
  {
    hide Topics;
    peers := {};
    for k := 0 to |edges|
      invariant peers == set i | 0 <= i < k && edges[i].dst in topics && edges[i].src != app :: edges[i].src
    {
      if edges[k].dst in topics && edges[k].src != app { peers := peers + {edges[k].src}; }
    }
  }

  method CascadeUp(lib: Lib, edges: seq<Edge>, app: string, callers: set<string>)
    returns (seen: set<string>, cascade: seq<string>)
    requires callers == Callers(lib, edges, {app})
    ensures seen == Ball(lib, edges, app, 3)
    ensures Elements(cascade) == Ball(lib, edges, app, 3) - Ball(lib, edges, app, 1) && Distinct(cascade)
  {
    hide Ball, Sync, Callers, Elements, Distinct, Covers;
    var frontier := callers;
    seen, cascade := {app} + callers, [];
    FirstLayer(lib, edges, app, callers);
    ghost var ball1 := seen;
    assert ball1 - ball1 == {};
    NoElements();
    var depth := 0;
    while depth < 2 && frontier != {}
      invariant depth <= 2 && Covers(lib, edges, app, depth + 1, seen, frontier) && ball1 <= seen
      invariant Elements(cascade) == seen - ball1 && Distinct(cascade)
    {
      CoversMore(lib, edges, app, depth + 1, seen, frontier);
      frontier, seen, cascade := Spread(lib, edges, frontier, seen, cascade, ball1);
      depth := depth + 1;
    }
    CoversAll(lib, edges, app, depth + 1, seen, frontier);
  }

  /** `seen` is the ball, and all its new callers are callers of the frontier. */
  ghost predicate Covers(lib: Lib, edges: seq<Edge>, app: string, n: nat, seen: set<string>, frontier: set<string>) {
    && seen == Ball(lib, edges, app, n) && frontier <= seen
    && Callers(lib, edges, seen) <= seen + Callers(lib, edges, frontier)
  }

  lemma FirstLayer(lib: Lib, edges: seq<Edge>, app: string, callers: set<string>)
    requires callers == Callers(lib, edges, {app})
    ensures {app} + callers == Ball(lib, edges, app, 1) && Covers(lib, edges, app, 1, {app} + callers, callers)
  {
    assert Ball(lib, edges, app, 0) == {app};
    NextLayer(lib, edges, app, 0);
    CallersSplit(lib, edges, {app}, callers);
    hide Ball, Callers;
  }

  lemma CoversMore(lib: Lib, edges: seq<Edge>, app: string, n: nat, seen: set<string>, frontier: set<string>)
    requires Covers(lib, edges, app, n, seen, frontier)
    ensures var more := seen + Callers(lib, edges, frontier); Covers(lib, edges, app, n + 1, more, more - seen)
  {
    hide Ball, Callers;
    BallSpreads(lib, edges, app, n, frontier);
  }

  lemma CoversAll(lib: Lib, edges: seq<Edge>, app: string, n: nat, seen: set<string>, frontier: set<string>)
    requires Covers(lib, edges, app, n, seen, frontier) && n <= 3 && (n < 3 ==> frontier == {})
    ensures seen == Ball(lib, edges, app, 3)
  {
    hide Ball, Callers;
    if n < 3 {
      CallersOfNone(lib, edges);
      Saturated(lib, edges, app, n, 3);
    }
  }

  /** A frontier that accounts for all new callers of a ball makes the next ball, and
      what is new there is the next frontier. */
  lemma BallSpreads(lib: Lib, edges: seq<Edge>, app: string, n: nat, frontier: set<string>)
    requires frontier <= Ball(lib, edges, app, n)
    requires Callers(lib, edges, Ball(lib, edges, app, n)) <= Ball(lib, edges, app, n) + Callers(lib, edges, frontier)
    ensures var b, c := Ball(lib, edges, app, n), Ball(lib, edges, app, n + 1);
      c == b + Callers(lib, edges, frontier) && Callers(lib, edges, c) <= c + Callers(lib, edges, c - b)
  {
    NextLayer(lib, edges, app, n);
    hide Ball, Callers;
    var b, c := Ball(lib, edges, app, n), Ball(lib, edges, app, n + 1);
    CallersSplit(lib, edges, b, frontier);
    assert b + frontier == b;
    CallersSplit(lib, edges, b, c - b);
    assert b + (c - b) == c;
  }

  lemma NoElements()
    ensures Elements([]) == {} && Distinct<string>([])
  {
  }

  lemma NextLayer(lib: Lib, edges: seq<Edge>, app: string, n: nat)
    ensures Ball(lib, edges, app, n + 1) == Ball(lib, edges, app, n) + Callers(lib, edges, Ball(lib, edges, app, n))
  {
  }

  lemma CallersSplit(lib: Lib, edges: seq<Edge>, a: set<string>, b: set<string>)
    ensures Callers(lib, edges, a + b) == Callers(lib, edges, a) + Callers(lib, edges, b)
  {
  }

  lemma CallersOfNone(lib: Lib, edges: seq<Edge>)
    ensures Callers(lib, edges, {}) == {}
  {
  }

  /** A ball that no caller enlarges stays as it is. */
  lemma {:induction false} Saturated(lib: Lib, edges: seq<Edge>, app: string, m: nat, n: nat)
    requires m <= n && Callers(lib, edges, Ball(lib, edges, app, m)) <= Ball(lib, edges, app, m)
    ensures Ball(lib, edges, app, n) == Ball(lib, edges, app, m)
    decreases n
  {
    hide Callers;
    if m < n { Saturated(lib, edges, app, m, n - 1); }
  }

  /** One level of the cascade: the callers of the frontier not seen before. */
  method Spread(lib: Lib, edges: seq<Edge>, frontier: set<string>, seen0: set<string>, cascade0: seq<string>,
      ghost ball1: set<string>)
    returns (next: set<string>, seen: set<string>, cascade: seq<string>)
    requires ball1 <= seen0 && Elements(cascade0) == seen0 - ball1 && Distinct(cascade0)
    ensures seen == seen0 + Callers(lib, edges, frontier) && next == seen - seen0
    ensures Elements(cascade) == seen - ball1 && Distinct(cascade)
  {
    hide Sync;
    next, seen, cascade := {}, seen0, cascade0;
    for k := 0 to |edges|
      invariant seen == seen0 + set i | 0 <= i < k && Sync(lib, edges[i]) && edges[i].dst in frontier :: edges[i].src
      invariant next == seen - seen0
      invariant Elements(cascade) == seen - ball1 && Distinct(cascade)
    {
      var e := edges[k];
      if Sync(lib, e) && e.dst in frontier && e.src !in seen {
        ElementsAppend(cascade, e.src);
        seen := seen + {e.src};
        next := next + {e.src};
        cascade := cascade + [e.src];
      }
    }
  }

  // ---- in plain terms ----

  /** A message broker decouples: what is sent over kafka or nats, in any case, is not a call. */
  predicate Brokered(lib: Lib, e: Edge) { lib.lower(e.transport) == "kafka" || lib.lower(e.transport) == "nats" }

  /** The cascade takes every caller of what is dark that does not go through a broker, and
      nothing without such a reason. */
  lemma CascadeReasons(lib: Lib, edges: seq<Edge>, dead: set<string>, casc: set<string>)
    requires casc !! dead && LeastClosed(lib, edges, dead, dead + casc)
    ensures forall i :: 0 <= i < |edges| && edges[i].dst in dead + casc && !Brokered(lib, edges[i]) ==>
      edges[i].src in dead + casc
    ensures forall x :: x in casc ==>
      exists i :: 0 <= i < |edges| && edges[i].src == x && edges[i].dst in dead + casc - {x} && !Brokered(lib, edges[i])
  {
    var all := dead + casc;
    forall x | x in casc
      ensures exists i :: 0 <= i < |edges| && edges[i].src == x && edges[i].dst in all - {x} && !Brokered(lib, edges[i])
    {
      var less := all - {x};
      assert !(all <= less);
      assert dead <= less;
      assert !Closed(lib, edges, less);
      var i :| 0 <= i < |edges| && Sync(lib, edges[i]) && edges[i].dst in less && edges[i].src !in less;
      assert edges[i].src in all;
    }
  }

  ghost predicate LastNode(nodes: seq<Node>, app: string, i: int) {
    0 <= i < |nodes| && nodes[i].app == app && forall j :: i < j < |nodes| ==> nodes[j].app != app
  }

  /** A service is a topic if the last node of its name is in one of the groups of the broker. */
  lemma TopicExactly(nodes: seq<Node>, app: string)
    ensures IsTopic(nodes, app) <==>
      exists i :: LastNode(nodes, app, i) && nodes[i].group in {"kafka topics", "kafka clusters"}
  {
    hide TopicGroup;
    TopicGroups();
    LastGroup(nodes, app);
    TopicGroupIs(GroupOf(nodes, app));
  }

  lemma TopicGroups()
    ensures !TopicGroup("") && TopicGroup("kafka topics") && TopicGroup("kafka clusters")
  {
  }

  lemma TopicGroupIs(group: string)
    ensures TopicGroup(group) <==> group in {"kafka topics", "kafka clusters"}
  {
  }

  lemma {:induction false} LastGroup(nodes: seq<Node>, app: string)
    ensures if exists i :: 0 <= i < |nodes| && nodes[i].app == app
      then exists i :: LastNode(nodes, app, i) && nodes[i].group == GroupOf(nodes, app)
      else GroupOf(nodes, app) == ""
  {
    if nodes != [] && nodes[|nodes| - 1].app != app {
      var init := nodes[..|nodes| - 1];
      LastGroup(init, app);
      if i :| 0 <= i < |nodes| && nodes[i].app == app { assert init[i].app == app; }
      if i :| LastNode(init, app, i) && init[i].group == GroupOf(init, app) { assert LastNode(nodes, app, i); }
    } else if nodes != [] {
      assert LastNode(nodes, app, |nodes| - 1);
    }
  }

  /** Where a node is at home: the parts of its label, or of nothing if it has none. */
  lemma HomesExactly(lib: Lib, n: Node, key: string)
    ensures key in n.labels ==> Values(lib, n, key) == lib.parts(n.labels[key])
    ensures key !in n.labels ==> Values(lib, n, key) == lib.parts("")
  {
  }
}
