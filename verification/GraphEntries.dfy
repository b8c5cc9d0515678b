/** The service graph read off the log entries themselves: their fields, levels and times. */
module GraphEntries {
  import opened Common
  import opened Model
  import opened Graph
  import opened GraphCounts
  import GraphFlush
  import opened GraphEvents
  import GraphSignals

  /** What happens to the extractor; `clock` is the time at which an entry arrives. */
  datatype Input = Logged(e: Entry, clock: Time) | Snapshot | Commit(ok: bool) | Evict(cutoff: Time)

  function Reduced(x: Input): GraphFlush.Event {
    match x
    case Logged(e, clock) => GraphFlush.Saw(Sight(e, clock))
    case Snapshot => GraphFlush.Snapshot
    case Commit(ok) => GraphFlush.Commit(ok)
    case Evict(cutoff) => GraphFlush.Evict(cutoff)
  }

  function ReducedAll(xs: seq<Input>): (es: seq<GraphFlush.Event>)
    ensures |es| == |xs| && forall i :: 0 <= i < |xs| ==> es[i] == Reduced(xs[i])
  {
    seq(|xs|, i requires 0 <= i < |xs| => Reduced(xs[i]))
  }

  lemma ReducedPrefix(xs: seq<Input>, n: nat)
    requires n <= |xs|
    ensures ReducedAll(xs)[..n] == ReducedAll(xs[..n])
  {
    hide Reduced;
  }

  // ---- what an entry says ----

  predicate IsSet(e: Entry, name: string) { name in e.fields && e.fields[name] != "" }

  /** `v` is the value of the first of `names` that is set. */
  ghost predicate Gives(e: Entry, names: seq<string>, v: string) {
    exists i :: 0 <= i < |names| && IsSet(e, names[i]) && e.fields[names[i]] == v
      && forall j :: 0 <= j < i ==> !IsSet(e, names[j])
  }

  ghost predicate TraceIs(e: Entry, id: string) { Gives(e, ["trace_id", "traceid", "trace-id"], id) }

  ghost predicate CorrelationIs(e: Entry, id: string) {
    Gives(e, ["correlation_id", "corr_id", "request_id", "x_request_id", "x-request-id"], id)
  }

  ghost predicate PeerIs(e: Entry, app: string) {
    Gives(e, ["peer.service", "peer_service", "target", "upstream", "callee"], app)
  }

  /** ERROR, SEVERE and PANIC. */
  predicate IsError(e: Entry) { e.lvl >= 4 }

  /** An entry without a time happened when it arrived. */
  function TimeOf(x: Input): Time
    requires x.Logged?
  {
    if x.e.ts != 0 then x.e.ts else x.clock
  }

  lemma GivesFirst(e: Entry, names: seq<string>, v: string)
    ensures FirstField(e.fields, names) == v && v != "" <==> Gives(e, names, v)
  {
    hide FirstField;
    var w := FirstField(e.fields, names);
    forall name ensures Unset(e.fields, name) <==> !IsSet(e, name) {}
    hide Unset, IsSet;
    if Gives(e, names, v) {
      var i :| 0 <= i < |names| && IsSet(e, names[i]) && e.fields[names[i]] == v
        && forall j :: 0 <= j < i ==> !IsSet(e, names[j]);
      assert w != "";
      var k :| 0 <= k < |names| && names[k] in e.fields && e.fields[names[k]] == w
        && forall j :: 0 <= j < k ==> Unset(e.fields, names[j]);
      SetHas(e, names[i]);
      SetHas(e, names[k]);
      assert k == i;
    }
    if w == v && v != "" {
      var k :| 0 <= k < |names| && names[k] in e.fields && e.fields[names[k]] == w
        && forall j :: 0 <= j < k ==> Unset(e.fields, names[j]);
      SetHas(e, names[k]);
    }
  }

  lemma SetHas(e: Entry, name: string)
    ensures IsSet(e, name) <==> name in e.fields && e.fields[name] != ""
  {
  }

  /** What the extractor takes from an entry, by the names of its fields. */
  lemma SightReads(e: Entry, clock: Time)
    ensures var s := Sight(e, clock);
      && s.tenant == e.tenant && s.app == e.app && s.isErr == IsError(e) && s.at == TimeOf(Logged(e, clock))
      && (forall id :: s.trace == id && id != "" <==> TraceIs(e, id))
      && (forall id :: s.corr == id && id != "" <==> CorrelationIs(e, id))
      && (forall app :: s.peer == app && app != "" <==> PeerIs(e, app))
  {
    hide FirstField, Gives;
    var s := Sight(e, clock);
    forall id ensures s.trace == id && id != "" <==> TraceIs(e, id) { GivesFirst(e, TRACE_FIELDS, id); }
    forall id ensures s.corr == id && id != "" <==> CorrelationIs(e, id) { GivesFirst(e, CORR_FIELDS, id); }
    forall app ensures s.peer == app && app != "" <==> PeerIs(e, app) { GivesFirst(e, PEER_FIELDS, app); }
  }

  // ---- who follows whom ----

  /** An entry of an application that carries the id of a trace or of a correlation. */
  ghost predicate Carries(x: Input, gk: GroupKey) {
    x.Logged? && x.e.app != "" && x.e.tenant == gk.tenant
    && if gk.kind == Trace then TraceIs(x.e, gk.id) else CorrelationIs(x.e, gk.id)
  }

  /** Entry `i` carries the id, no later one does before `n`, and no eviction since has a cutoff
      past its time. */
  ghost predicate Newest(xs: seq<Input>, gk: GroupKey, i: nat, n: nat) {
    i < n <= |xs| && Carries(xs[i], gk)
    && forall j :: i < j < n ==> !Carries(xs[j], gk) && !(xs[j].Evict? && TimeOf(xs[i]) < xs[j].cutoff)
  }

  /** Entry `n`, of `k.dst`, carries an id whose newest entry before it is one of `k.src`. */
  ghost predicate Follows(xs: seq<Input>, n: nat, kind: Kind, k: EdgeKey)
    requires n < |xs|
  {
    xs[n].Logged? && xs[n].e.app == k.dst &&
    exists id, i: nat :: FollowsBy(xs, n, GroupKey(k.tenant, kind, id), i, k.src)
  }

  ghost predicate FollowsBy(xs: seq<Input>, n: nat, gk: GroupKey, i: nat, src: string)
    requires n < |xs|
  {
    Carries(xs[n], gk) && Newest(xs, gk, i, n) && xs[i].e.app == src
  }

  /** Entry `n`, of `k.src`, names `k.dst` as its peer. */
  ghost predicate NamesPeer(xs: seq<Input>, n: nat, k: EdgeKey)
    requires n < |xs|
  {
    var x := xs[n];
    x.Logged? && x.e.app != "" && x.e.tenant == k.tenant && x.e.app == k.src && PeerIs(x.e, k.dst)
  }

  lemma CarriesJoins(x: Input, gk: GroupKey)
    ensures Carries(x, gk) <==> Joins(Reduced(x), gk)
  {
    if x.Logged? {
      SightReads(x.e, x.clock);
      hide Sight, TraceIs, CorrelationIs, PeerIs, TimeOf;
      var s := Sight(x.e, x.clock);
      assert s.trace == gk.id && gk.id != "" <==> TraceIs(x.e, gk.id);
      assert s.corr == gk.id && gk.id != "" <==> CorrelationIs(x.e, gk.id);
    }
  }

  lemma TimeForgets(x: Input, y: Input)
    requires x.Logged?
    ensures Forgets(Reduced(y), Sight(x.e, x.clock)) <==> y.Evict? && TimeOf(x) < y.cutoff
  {
    SightReads(x.e, x.clock);
    hide Sight, TraceIs, CorrelationIs, PeerIs, TimeOf;
  }

  lemma NewestKept(xs: seq<Input>, gk: GroupKey, i: nat, n: nat)
    requires n <= |xs|
    ensures Newest(xs, gk, i, n) <==> LastKept(ReducedAll(xs[..n]), gk, i)
  {
    hide Carries, Joins, Forgets, TimeOf, Sight;
    var es := ReducedAll(xs[..n]);
    forall j | 0 <= j < n ensures Carries(xs[j], gk) <==> Joins(es[j], gk) { CarriesJoins(xs[j], gk); }
    if i < n && Carries(xs[i], gk) {
      CarriesLogged(xs[i], gk);
      forall j | 0 <= j < n
        ensures Forgets(es[j], es[i].s) <==> xs[j].Evict? && TimeOf(xs[i]) < xs[j].cutoff
      {
        TimeForgets(xs[i], xs[j]);
      }
    }
  }

  lemma CarriesLogged(x: Input, gk: GroupKey)
    requires Carries(x, gk)
    ensures x.Logged? && x.e.app != ""
  {
  }

  lemma FollowsIs(xs: seq<Input>, n: nat, kind: Kind, k: EdgeKey)
    requires n < |xs|
    ensures Follows(xs, n, kind, k) <==>
      xs[n].Logged? && xs[n].e.app != "" && FollowsKept(ReducedAll(xs[..n]), Sight(xs[n].e, xs[n].clock), kind, k)
  {
    hide Remembered, Newest, LastKept, Sight, TraceIs, CorrelationIs, PeerIs, TimeOf, IsError;
    var es := ReducedAll(xs[..n]);
    if xs[n].Logged? {
      var s := Sight(xs[n].e, xs[n].clock);
      SightReads(xs[n].e, xs[n].clock);
      if id, i: nat :| xs[n].e.app == k.dst && FollowsBy(xs, n, GroupKey(k.tenant, kind, id), i, k.src) {
        var gk := GroupKey(k.tenant, kind, id);
        NewestKept(xs, gk, i, n);
        KeptInside(es, gk, i);
        ReducedIs(xs, n, i);
        RememberedReads(es, gk, es[i].s);
      }
      var gk := GroupKey(s.tenant, kind, if kind == Trace then s.trace else s.corr);
      if xs[n].e.app != "" && FollowsKept(es, s, kind, k) {
        var a := Remembered(es, gk).value;
        var i := KeptAs(es, gk, a);
        NewestKept(xs, gk, i, n);
        ReducedIs(xs, n, i);
        assert FollowsBy(xs, n, gk, i, k.src);
      }
    }
  }

  lemma KeptAs(es: seq<GraphFlush.Event>, gk: GroupKey, a: Sighting) returns (i: nat)
    requires Remembered(es, gk) == Some(a)
    ensures LastKept(es, gk, i) && i < |es| && es[i] == GraphFlush.Saw(a)
  {
    RememberedReads(es, gk, a);
    i :| LastKept(es, gk, i) && es[i].s == a;
  }

  /** A reduced entry keeps its application. */
  lemma ReducedIs(xs: seq<Input>, n: nat, i: nat)
    requires i < n <= |xs| && ReducedAll(xs[..n])[i].Saw?
    ensures xs[i].Logged? && ReducedAll(xs[..n])[i].s.app == xs[i].e.app
  {
    assert xs[..n][i] == xs[i];
    hide FirstField;
  }

  lemma NamesIs(xs: seq<Input>, n: nat, k: EdgeKey)
    requires n < |xs|
    ensures NamesPeer(xs, n, k) <==>
      xs[n].Logged? && xs[n].e.app != "" && Names(Sight(xs[n].e, xs[n].clock), k)
  {
    if xs[n].Logged? {
      SightReads(xs[n].e, xs[n].clock);
      hide Sight, TraceIs, CorrelationIs, PeerIs, TimeOf, IsError;
      var s := Sight(xs[n].e, xs[n].clock);
      assert s.peer == k.dst && k.dst != "" <==> PeerIs(xs[n].e, k.dst);
    }
  }

  // ---- edges ----

  ghost predicate Matters(x: Input, errorsOnly: bool) { x.Logged? && (errorsOnly ==> IsError(x.e)) }

  /** How often the entries show an edge. */
  ghost function Shown(xs: seq<Input>, k: EdgeKey, errorsOnly: bool): nat {
    if xs == [] then 0
    else
      var n := |xs| - 1;
      Shown(xs[..n], k, errorsOnly) +
      if Matters(xs[n], errorsOnly)
      then One(Follows(xs, n, Trace, k)) + One(Follows(xs, n, Corr, k)) + One(NamesPeer(xs, n, k))
      else 0
  }

  lemma {:induction false} ShownIsHits(xs: seq<Input>, k: EdgeKey, errorsOnly: bool)
    ensures Shown(xs, k, errorsOnly) == EventHits(ReducedAll(xs), k, errorsOnly)
  {
    if xs != [] {
      var n := |xs| - 1;
      ShownIsHits(xs[..n], k, errorsOnly);
      ReducedPrefix(xs, n);
      FollowsIs(xs, n, Trace, k);
      FollowsIs(xs, n, Corr, k);
      NamesIs(xs, n, k);
      if xs[n].Logged? { SightReads(xs[n].e, xs[n].clock); }
      hide FollowsKept, Follows, NamesPeer, Names, Sight, TimeOf, TraceIs, CorrelationIs, PeerIs;
    }
  }

  /** In every run in which no group was refused, evictions included: an edge counts the entries
      that follow one of its caller in a trace or under a correlation id, and those that name it;
      its errors are those at level ERROR and above. */
  lemma EdgeCounts(maxGroups: nat, xs: seq<Input>, k: EdgeKey, errorsOnly: bool)
    requires GraphFlush.Unflushed(maxGroups, ReducedAll(xs)).dropped == 0 && k.src != k.dst
    ensures Count(GraphFlush.Unflushed(maxGroups, ReducedAll(xs)).edges, k, errorsOnly) == Shown(xs, k, errorsOnly)
  {
    hide GraphFlush.Unflushed, EventHits, Shown, Count;
    CountsInEveryRun(maxGroups, ReducedAll(xs), k, errorsOnly);
    ShownIsHits(xs, k, errorsOnly);
  }

  ghost predicate FollowsSome(xs: seq<Input>, k: EdgeKey) { exists n: nat :: n < |xs| && Follows(xs, n, Trace, k) }

  ghost predicate InferredSome(xs: seq<Input>, k: EdgeKey) {
    exists n: nat :: n < |xs| && (Follows(xs, n, Corr, k) || NamesPeer(xs, n, k))
  }

  /** Entry `n` shows the edge at time `t`. */
  ghost predicate ShownAt(xs: seq<Input>, k: EdgeKey, n: nat, t: Time) {
    n < |xs| && (Follows(xs, n, Trace, k) || Follows(xs, n, Corr, k) || NamesPeer(xs, n, k)) && xs[n].Logged?
    && TimeOf(xs[n]) == t
  }

  /** The time of the latest entry that shows the edge; zero when none is later. */
  ghost predicate LatestShown(xs: seq<Input>, k: EdgeKey, t: Time) {
    && (forall n: nat, u: Time :: ShownAt(xs, k, n, u) ==> u <= t)
    && (t == 0 || exists n: nat :: ShownAt(xs, k, n, t))
  }

  lemma ShowsIs(xs: seq<Input>, n: nat, k: EdgeKey)
    requires n < |xs|
    ensures GraphSignals.ByTrace(ReducedAll(xs), n, k) <==> Follows(xs, n, Trace, k)
    ensures GraphSignals.ByField(ReducedAll(xs), n, k) <==> Follows(xs, n, Corr, k) || NamesPeer(xs, n, k)
    ensures forall t :: GraphSignals.ShowsAt(ReducedAll(xs), k, n, t) <==> ShownAt(xs, k, n, t)
  {
    ReducedPrefix(xs, n);
    FollowsIs(xs, n, Trace, k);
    FollowsIs(xs, n, Corr, k);
    NamesIs(xs, n, k);
    if xs[n].Logged? { SightReads(xs[n].e, xs[n].clock); }
    hide FollowsKept, Follows, NamesPeer, Names, Sight, TimeOf, TraceIs, CorrelationIs, PeerIs, IsError;
  }

  lemma SomeShown(xs: seq<Input>, k: EdgeKey)
    ensures GraphSignals.Traced(ReducedAll(xs), k) <==> FollowsSome(xs, k)
    ensures GraphSignals.Inferred(ReducedAll(xs), k) <==> InferredSome(xs, k)
  {
    hide GraphSignals.ByTrace, GraphSignals.ByField, Follows, NamesPeer, GraphSignals.ShowsAt, ShownAt;
    var es := ReducedAll(xs);
    forall n: nat | n < |xs|
      ensures GraphSignals.ByTrace(es, n, k) <==> Follows(xs, n, Trace, k)
      ensures GraphSignals.ByField(es, n, k) <==> Follows(xs, n, Corr, k) || NamesPeer(xs, n, k)
    {
      ShowsIs(xs, n, k);
    }
  }

  lemma LatestIs(xs: seq<Input>, k: EdgeKey, t: Time)
    requires GraphSignals.IsLatest(ReducedAll(xs), k, t)
    ensures LatestShown(xs, k, t)
  {
    hide GraphSignals.ByTrace, GraphSignals.ByField, Follows, NamesPeer, GraphSignals.Shows, TimeOf;
    var es := ReducedAll(xs);
    forall n: nat, u: Time ensures ShownAt(xs, k, n, u) <==> GraphSignals.ShowsAt(es, k, n, u) {
      if n < |xs| { ShowsIs(xs, n, k); }
    }
    hide GraphSignals.ShowsAt, ShownAt;
    if t != 0 {
      var n: nat :| GraphSignals.ShowsAt(es, k, n, t);
      assert ShownAt(xs, k, n, t);
    }
  }

  /** In every such run: the trace mark is set exactly if some entry of the callee follows one of
      the caller in a trace, the other mark exactly if one does under a correlation id or names
      the callee, and the last time is that of the latest of these. */
  lemma EdgeMarks(maxGroups: nat, xs: seq<Input>, k: EdgeKey)
    requires GraphFlush.Unflushed(maxGroups, ReducedAll(xs)).dropped == 0 && k.src != k.dst
    ensures var a := GraphSignals.Got(GraphFlush.Unflushed(maxGroups, ReducedAll(xs)).edges, k);
      && (a.origin.trace <==> FollowsSome(xs, k)) && (a.origin.inferred <==> InferredSome(xs, k))
      && LatestShown(xs, k, a.lastSeen)
  {
    hide GraphFlush.Unflushed, GraphSignals.Tally, GraphSignals.Traced, GraphSignals.Inferred, GraphSignals.IsLatest;
    hide FollowsSome, InferredSome, LatestShown, GraphSignals.Got;
    var es := ReducedAll(xs);
    GraphSignals.EdgesAreTallies(maxGroups, es, k);
    GraphSignals.TallyReads(es, k);
    SomeShown(xs, k);
    LatestIs(xs, k, GraphSignals.Tally(es, k).lastSeen);
  }

  // ---- services ----

  /** The entries of one application, or those of them at level ERROR and above. */
  ghost function WrittenBy(xs: seq<Input>, nk: NodeKey, errorsOnly: bool): nat {
    if xs == [] then 0
    else
      var x := xs[|xs| - 1];
      WrittenBy(xs[..|xs| - 1], nk, errorsOnly)
      + if Matters(x, errorsOnly) && x.e.app != "" && x.e.tenant == nk.tenant && x.e.app == nk.app then 1 else 0
  }

  lemma {:induction false} WrittenIs(xs: seq<Input>, nk: NodeKey, errorsOnly: bool)
    ensures WrittenBy(xs, nk, errorsOnly) == GraphSignals.Written(GraphFlush.Seen(ReducedAll(xs)), nk, errorsOnly)
  {
    if xs != [] {
      var n := |xs| - 1;
      var log := GraphFlush.Seen(ReducedAll(xs[..n]));
      WrittenIs(xs[..n], nk, errorsOnly);
      ReducedPrefix(xs, n);
      if xs[n].Logged? {
        SightReads(xs[n].e, xs[n].clock);
        assert (log + [Sight(xs[n].e, xs[n].clock)])[..|log|] == log;
      }
      hide Sight, TimeOf, TraceIs, CorrelationIs, PeerIs;
    }
  }

  /** In every run at all: a service counts its entries, and as errors those at level ERROR and
      above. */
  lemma NodeCounts(maxGroups: nat, xs: seq<Input>, nk: NodeKey, errorsOnly: bool)
    ensures GraphSignals.NodeCount(GraphFlush.Unflushed(maxGroups, ReducedAll(xs)).nodes, nk, errorsOnly)
         == WrittenBy(xs, nk, errorsOnly)
  {
    hide GraphFlush.Unflushed, GraphSignals.NodeCount, WrittenBy, GraphSignals.Written, GraphFlush.Seen;
    GraphSignals.NodesAreCounts(maxGroups, ReducedAll(xs), nk, errorsOnly);
    WrittenIs(xs, nk, errorsOnly);
  }

  /** What is stored after Close is what the entries say: for a service always, for an edge if no
      group was refused. */
  lemma StoredEntries(maxGroups: nat, xs: seq<Input>, k: EdgeKey, nk: NodeKey)
    requires GraphFlush.Drained(GraphFlush.Run(maxGroups, ReducedAll(xs)))
    requires GraphFlush.Run(maxGroups, ReducedAll(xs)).x.dropped == 0 && k.src != k.dst
    ensures var t := GraphFlush.Run(maxGroups, ReducedAll(xs)).edges;
      if k in t then
        var sum := t[k].sum;
        && sum.count == Shown(xs, k, false) && sum.errors == Shown(xs, k, true)
        && (sum.origin.trace <==> FollowsSome(xs, k)) && (sum.origin.inferred <==> InferredSome(xs, k))
        && exists t :: LatestShown(xs, k, t) && sum.last == GraphFlush.Millis(t)
      else Shown(xs, k, false) == 0
    ensures var t := GraphFlush.Run(maxGroups, ReducedAll(xs)).nodes;
      if nk in t then t[nk].sum.count == WrittenBy(xs, nk, false) && t[nk].sum.errors == WrittenBy(xs, nk, true)
      else WrittenBy(xs, nk, false) == 0
  {
    hide GraphFlush.Run, GraphFlush.Drained, EventHits, Shown, GraphSignals.Traced, GraphSignals.Inferred;
    hide GraphSignals.IsLatest, FollowsSome, InferredSome, LatestShown;
    hide WrittenBy, GraphSignals.Written, GraphFlush.Seen;
    var es := ReducedAll(xs);
    StoredEventHits(maxGroups, es, k);
    ShownIsHits(xs, k, false);
    ShownIsHits(xs, k, true);
    GraphSignals.StoredSignals(maxGroups, es, k);
    SomeShown(xs, k);
    GraphSignals.StoredNodes(maxGroups, es, nk);
    WrittenIs(xs, nk, false);
    WrittenIs(xs, nk, true);
    if k in GraphFlush.Run(maxGroups, es).edges {
      var sum := GraphFlush.Run(maxGroups, es).edges[k].sum;
      var t :| GraphSignals.IsLatest(es, k, t) && sum.last == GraphFlush.Millis(t);
      LatestIs(xs, k, t);
    }
  }
}
