/** From the extractor to the stored graph: snapshots, transactions that may fail, and
    why the flush schedule does not show in the totals. */
module GraphFlush {
  import opened Common
  import opened Model
  import opened Graph
  import GraphCounts

  // ---- rows ----

  /** Nanoseconds from the zero time to the Unix epoch. */
  const UNIX_EPOCH: Time := 62_135_596_800_000_000_000

  function Millis(t: Time): int { (t - UNIX_EPOCH) / 1_000_000 }

  datatype Sum = Sum(origin: Origin, count: nat, errors: nat, last: int)

  datatype Row = Row(first: int, sum: Sum)

  function SumOf(a: Agg): Sum { Sum(a.origin, a.count, a.errors, Millis(a.lastSeen)) }

  function Join(a: Sum, b: Sum): Sum {
    Sum(Both(a.origin, b.origin), a.count + b.count, a.errors + b.errors, if a.last >= b.last then a.last else b.last)
  }

  function JoinMaps<K>(a: map<K, Sum>, b: map<K, Sum>): map<K, Sum> {
    map k | k in a.Keys + b.Keys ::
      if k in a && k in b then Join(a[k], b[k]) else if k in a then a[k] else b[k]
  }

  function SumsOf<K>(m: map<K, Agg>): map<K, Sum> { map k | k in m :: SumOf(m[k]) }

  function RowSums<K>(t: map<K, Row>): map<K, Sum> { map k | k in t :: t[k].sum }

  /** The upsert of one aggregate: counters add, marks join, the last time advances; the
      first time is that of the insert. */
  function Upserted<K>(t: map<K, Row>, k: K, a: Agg): Row {
    if k in t then t[k].(sum := Join(t[k].sum, SumOf(a))) else Row(Millis(a.lastSeen), SumOf(a))
  }

  function Merged<K>(t: map<K, Row>, m: map<K, Agg>): map<K, Row> {
    map k | k in t.Keys + m.Keys :: if k in m then Upserted(t, k, m[k]) else t[k]
  }

  /** Whatever order a snapshot lists its keys in, the table ends up the same. */
  method UpsertAll<K(==, !new)>(t: map<K, Row>, list: seq<(K, Agg)>, ghost m: map<K, Agg>) returns (r: map<K, Row>)
    requires Lists(list, m)
    ensures r == Merged(t, m)
  {
    hide Lists, Upserted, Firsts;
    r := t;
    FirstsGrow(list, m, 0);
    for i := 0 to |list|
      invariant r.Keys == t.Keys + Firsts(list, i) && Firsts(list, i) <= m.Keys
      invariant forall k :: k in r ==> r[k] == if k in Firsts(list, i) then Upserted(t, k, m[k]) else t[k]
    {
      FirstsGrow(list, m, i);
      var (k, a) := list[i];
      UpsertedSame(r, t, k, a);
      r := r[k := Upserted(r, k, a)];
    }
    FirstsAll(list, m);
  }

  lemma UpsertedSame<K>(r: map<K, Row>, t: map<K, Row>, k: K, a: Agg)
    requires (k in r <==> k in t) && (k in t ==> r[k] == t[k])
    ensures Upserted(r, k, a) == Upserted(t, k, a)
  {
  }

  /** The keys of the first `i` entries of a list. */
  ghost function Firsts<K>(list: seq<(K, Agg)>, i: nat): set<K>
    requires i <= |list|
  {
    if i == 0 then {} else Firsts(list, i - 1) + {list[i - 1].0}
  }

  lemma {:induction false} FirstsAre<K>(list: seq<(K, Agg)>, i: nat, k: K)
    requires i <= |list|
    ensures k in Firsts(list, i) <==> exists j :: 0 <= j < i && list[j].0 == k
  {
    if i > 0 { FirstsAre(list, i - 1, k); }
  }

  lemma FirstsGrow<K(!new)>(list: seq<(K, Agg)>, m: map<K, Agg>, i: nat)
    requires Lists(list, m) && i <= |list|
    ensures i == 0 ==> Firsts(list, 0) == {}
    ensures i < |list| ==> Firsts(list, i + 1) == Firsts(list, i) + {list[i].0}
    ensures i < |list| ==> list[i].0 !in Firsts(list, i) && list[i].0 in m && m[list[i].0] == list[i].1
  {
    if i < |list| { FirstsAre(list, i, list[i].0); }
  }

  lemma FirstsAll<K(!new)>(list: seq<(K, Agg)>, m: map<K, Agg>)
    requires Lists(list, m)
    ensures m.Keys <= Firsts(list, |list|)
  {
    forall k | k in m ensures k in Firsts(list, |list|) {
      FirstsAre(list, |list|, k);
      assert (k, m[k]) in list;
    }
  }

  class Store {
    var nodes: map<NodeKey, Row>
    var edges: map<EdgeKey, Row>

    constructor ()
      ensures nodes == map[] && edges == map[]
    {
      nodes, edges := map[], map[];
    }

    /** One transaction; when it fails nothing is written. */
    method UpsertGraph(nodeAggs: seq<(NodeKey, Agg)>, edgeAggs: seq<(EdgeKey, Agg)>, commits: bool,
                       ghost ns: map<NodeKey, Agg>, ghost es: map<EdgeKey, Agg>)
      requires Lists(nodeAggs, ns) && Lists(edgeAggs, es)
      modifies this
      ensures commits ==> nodes == Merged(old(nodes), ns) && edges == Merged(old(edges), es)
      ensures !commits ==> nodes == old(nodes) && edges == old(edges)
    {
      var n := UpsertAll(nodes, nodeAggs, ns);
      var e := UpsertAll(edges, edgeAggs, es);
      if commits { nodes, edges := n, e; }
    }
  }

  // ---- joining sums ----

  lemma MergedSums<K>(t: map<K, Row>, m: map<K, Agg>)
    ensures RowSums(Merged(t, m)) == JoinMaps(RowSums(t), SumsOf(m))
  {
  }

  lemma JoinAssociative(a: Sum, b: Sum, c: Sum)
    ensures Join(Join(a, b), c) == Join(a, Join(b, c)) && Join(a, b) == Join(b, a)
  {
  }

  function At<K>(m: map<K, Sum>, k: K): Option<Sum> { if k in m then Some(m[k]) else None }

  function JoinOptions(a: Option<Sum>, b: Option<Sum>): Option<Sum> {
    if a.Some? && b.Some? then Some(Join(a.value, b.value)) else if a.Some? then a else b
  }

  lemma JoinMapsAt<K>(a: map<K, Sum>, b: map<K, Sum>, k: K)
    ensures At(JoinMaps(a, b), k) == JoinOptions(At(a, k), At(b, k))
  {
  }

  /** Maps with the same value, or none, at every key. */
  lemma SameMaps<K(!new)>(a: map<K, Sum>, b: map<K, Sum>)
    requires forall k :: At(a, k) == At(b, k)
    ensures a == b
  {
    forall k ensures k in a <==> k in b { assert At(a, k) == At(b, k); }
    forall k | k in a ensures a[k] == b[k] { assert At(a, k) == At(b, k); }
  }

  lemma JoinMapsAssociative<K(!new)>(a: map<K, Sum>, b: map<K, Sum>, c: map<K, Sum>)
    ensures JoinMaps(JoinMaps(a, b), c) == JoinMaps(a, JoinMaps(b, c))
  {
    hide JoinMaps, At, Join;
    forall k ensures At(JoinMaps(JoinMaps(a, b), c), k) == At(JoinMaps(a, JoinMaps(b, c)), k) {
      JoinMapsAt(a, b, k);
      JoinMapsAt(b, c, k);
      JoinMapsAt(JoinMaps(a, b), c, k);
      JoinMapsAt(a, JoinMaps(b, c), k);
      var x, y, z := At(a, k), At(b, k), At(c, k);
      if x.Some? && y.Some? && z.Some? { JoinAssociative(x.value, y.value, z.value); }
    }
    SameMaps(JoinMaps(JoinMaps(a, b), c), JoinMaps(a, JoinMaps(b, c)));
  }

  lemma JoinMapsCommutes<K(!new)>(a: map<K, Sum>, b: map<K, Sum>)
    ensures JoinMaps(a, b) == JoinMaps(b, a)
  {
    hide JoinMaps, At, Join;
    forall k ensures At(JoinMaps(a, b), k) == At(JoinMaps(b, a), k) {
      JoinMapsAt(a, b, k);
      JoinMapsAt(b, a, k);
      var x, y := At(a, k), At(b, k);
      if x.Some? && y.Some? { JoinAssociative(x.value, y.value, x.value); }
    }
    SameMaps(JoinMaps(a, b), JoinMaps(b, a));
  }

  lemma JoinMapsNothing<K>(a: map<K, Sum>)
    ensures JoinMaps(a, map[]) == a && JoinMaps(map[], a) == a
  {
  }

  // ---- observations add up ----

  /** Times start from zero and only grow. */
  ghost predicate Grown<K>(m: map<K, Agg>) { forall k :: k in m ==> m[k].lastSeen >= 0 }

  function One(origin: Origin, isErr: bool, at: Time): Sum {
    Sum(origin, 1, if isErr then 1 else 0, Millis(if at > 0 then at else 0))
  }

  lemma MillisMonotone(a: Time, b: Time)
    requires a <= b
    ensures Millis(a) <= Millis(b)
  {
  }

  lemma BumpSums<K>(m: map<K, Agg>, k: K, origin: Origin, isErr: bool, at: Time)
    requires Grown(m)
    ensures SumsOf(Bump(m, k, origin, isErr, at)) == JoinMaps(SumsOf(m), map[k := One(origin, isErr, at)])
    ensures Grown(Bump(m, k, origin, isErr, at))
  {
    hide Millis;
    var after := Bump(m, k, origin, isErr, at);
    if k in m {
      if at >= m[k].lastSeen { MillisMonotone(m[k].lastSeen, at); } else { MillisMonotone(at, m[k].lastSeen); }
      MillisMonotone(0, m[k].lastSeen);
      assert SumOf(after[k]) == Join(SumOf(m[k]), One(origin, isErr, at));
    }
    assert forall x :: x in m && x != k ==> after[x] == m[x];
  }

  /** Adding one observation to a part is adding it to the whole. */
  lemma BumpJoins<K(!new)>(rest: map<K, Sum>, m: map<K, Agg>, whole: map<K, Agg>, k: K, origin: Origin, isErr: bool,
      at: Time)
    requires JoinMaps(rest, SumsOf(m)) == SumsOf(whole) && Grown(m) && Grown(whole)
    ensures JoinMaps(rest, SumsOf(Bump(m, k, origin, isErr, at))) == SumsOf(Bump(whole, k, origin, isErr, at))
    ensures Grown(Bump(m, k, origin, isErr, at)) && Grown(Bump(whole, k, origin, isErr, at))
  {
    hide JoinMaps, SumsOf, Bump, Grown;
    BumpSums(m, k, origin, isErr, at);
    BumpSums(whole, k, origin, isErr, at);
    JoinMapsAssociative(rest, SumsOf(m), map[k := One(origin, isErr, at)]);
  }

  // ---- the pipeline ----

  /** What can happen: an entry, a snapshot by the flush loop, the end of its
      transaction, an eviction. */
  datatype Event = Saw(s: Sighting) | Snapshot | Commit(ok: bool) | Evict(cutoff: Time)

  datatype Batch = Batch(nodes: map<NodeKey, Agg>, edges: map<EdgeKey, Agg>)

  const NO_BATCH := Batch(map[], map[])

  datatype Lost = Lost(nodes: map<NodeKey, Sum>, edges: map<EdgeKey, Sum>)

  /** The extractor, the batch on its way, the tables, and what failed transactions lost. */
  datatype System = System(x: State, flight: Batch, nodes: map<NodeKey, Row>, edges: map<EdgeKey, Row>, lost: Lost)

  const FRESH := System(EMPTY, NO_BATCH, map[], map[], Lost(map[], map[]))

  function Evicted(groups: map<GroupKey, Group>, cutoff: Time): map<GroupKey, Group> {
    map gk | gk in groups && groups[gk].lastSeen >= cutoff :: groups[gk]
  }

  /** A snapshot waits for the batch before it. */
  function Next(maxGroups: nat, y: System, e: Event): System {
    match e
    case Saw(s) => y.(x := Noticed(maxGroups, y.x, s))
    case Snapshot =>
      if y.flight != NO_BATCH then y
      else y.(x := y.x.(nodes := map[], edges := map[]), flight := Batch(y.x.nodes, y.x.edges))
    case Commit(ok) =>
      if ok then y.(flight := NO_BATCH, nodes := Merged(y.nodes, y.flight.nodes),
                    edges := Merged(y.edges, y.flight.edges))
      else y.(flight := NO_BATCH, lost := Lost(JoinMaps(y.lost.nodes, SumsOf(y.flight.nodes)),
                                               JoinMaps(y.lost.edges, SumsOf(y.flight.edges))))
    case Evict(cutoff) => y.(x := y.x.(groups := Evicted(y.x.groups, cutoff)))
  }

  function Run(maxGroups: nat, es: seq<Event>): System {
    if es == [] then FRESH else Next(maxGroups, Run(maxGroups, es[..|es| - 1]), es[|es| - 1])
  }

  /** The same entries and evictions, seen by an extractor that is never flushed. */
  function Unflushed(maxGroups: nat, es: seq<Event>): State {
    if es == [] then EMPTY
    else
      var st := Unflushed(maxGroups, es[..|es| - 1]);
      match es[|es| - 1]
      case Saw(s) => Noticed(maxGroups, st, s)
      case Evict(cutoff) => st.(groups := Evicted(st.groups, cutoff))
      case _ => st
  }

  /** Stored, lost and in flight. */
  function NodesAway(y: System): map<NodeKey, Sum> {
    JoinMaps(JoinMaps(RowSums(y.nodes), y.lost.nodes), SumsOf(y.flight.nodes))
  }

  function EdgesAway(y: System): map<EdgeKey, Sum> {
    JoinMaps(JoinMaps(RowSums(y.edges), y.lost.edges), SumsOf(y.flight.edges))
  }

  /** Every part accounted for, the totals are those of the extractor never flushed. */
  ghost predicate Accounts(y: System, whole: State) {
    && JoinMaps(NodesAway(y), SumsOf(y.x.nodes)) == SumsOf(whole.nodes)
    && JoinMaps(EdgesAway(y), SumsOf(y.x.edges)) == SumsOf(whole.edges)
    && y.x.groups == whole.groups && y.x.dropped == whole.dropped
    && Grown(y.x.nodes) && Grown(y.x.edges) && Grown(whole.nodes) && Grown(whole.edges)
  }

  ghost predicate EdgesAccount(rest: map<EdgeKey, Sum>, st: State, whole: State) {
    && JoinMaps(rest, SumsOf(st.edges)) == SumsOf(whole.edges) && Grown(st.edges) && Grown(whole.edges)
    && st.groups == whole.groups && st.dropped == whole.dropped
  }

  lemma LinkedAccounts(maxGroups: nat, rest: map<EdgeKey, Sum>, st: State, whole: State, gk: GroupKey, s: Sighting,
      origin: Origin)
    requires EdgesAccount(rest, st, whole)
    ensures EdgesAccount(rest, Linked(maxGroups, st, gk, s, origin), Linked(maxGroups, whole, gk, s, origin))
  {
    hide JoinMaps, SumsOf, Bump, Grown;
    var last := if gk in st.groups then st.groups[gk].lastApp else "";
    BumpJoins(rest, st.edges, whole.edges, EdgeKey(gk.tenant, last, s.app), origin, s.isErr, s.at);
  }

  lemma LinkedByIdAccounts(maxGroups: nat, rest: map<EdgeKey, Sum>, st: State, whole: State, kind: Kind, id: string,
      s: Sighting, origin: Origin)
    requires EdgesAccount(rest, st, whole)
    ensures EdgesAccount(rest, LinkedById(maxGroups, st, kind, id, s, origin),
      LinkedById(maxGroups, whole, kind, id, s, origin))
    ensures LinkedById(maxGroups, st, kind, id, s, origin).nodes == st.nodes
    ensures LinkedById(maxGroups, whole, kind, id, s, origin).nodes == whole.nodes
  {
    if id != "" { LinkedAccounts(maxGroups, rest, st, whole, GroupKey(s.tenant, kind, id), s, origin); }
    hide EdgesAccount;
  }

  lemma NoticedAccounts(maxGroups: nat, y: System, whole: State, s: Sighting)
    requires Accounts(y, whole)
    ensures Accounts(y.(x := Noticed(maxGroups, y.x, s)), Noticed(maxGroups, whole, s))
  {
    hide JoinMaps, SumsOf, Bump, Grown, LinkedById;
    if s.app != "" {
      var rest, nk := EdgesAway(y), NodeKey(s.tenant, s.app);
      BumpJoins(NodesAway(y), y.x.nodes, whole.nodes, nk, NO_ORIGIN, s.isErr, s.at);
      var a1 := y.x.(nodes := Bump(y.x.nodes, nk, NO_ORIGIN, s.isErr, s.at));
      var b1 := whole.(nodes := Bump(whole.nodes, nk, NO_ORIGIN, s.isErr, s.at));
      LinkedByIdAccounts(maxGroups, rest, a1, b1, Trace, s.trace, s, BY_TRACE);
      var a2 := LinkedById(maxGroups, a1, Trace, s.trace, s, BY_TRACE);
      var b2 := LinkedById(maxGroups, b1, Trace, s.trace, s, BY_TRACE);
      LinkedByIdAccounts(maxGroups, rest, a2, b2, Corr, s.corr, s, BY_FIELD);
      var a3 := LinkedById(maxGroups, a2, Corr, s.corr, s, BY_FIELD);
      var b3 := LinkedById(maxGroups, b2, Corr, s.corr, s, BY_FIELD);
      BumpJoins(rest, a3.edges, b3.edges, EdgeKey(s.tenant, s.app, s.peer), BY_FIELD, s.isErr, s.at);
    }
  }

  lemma SnapshotAccounts(y: System, whole: State)
    requires Accounts(y, whole) && y.flight == NO_BATCH
    ensures Accounts(y.(x := y.x.(nodes := map[], edges := map[]), flight := Batch(y.x.nodes, y.x.edges)), whole)
  {
    hide JoinMaps;
    var n, e := JoinMaps(RowSums(y.nodes), y.lost.nodes), JoinMaps(RowSums(y.edges), y.lost.edges);
    JoinMapsNothing(n);
    JoinMapsNothing(e);
    JoinMapsNothing(JoinMaps(n, SumsOf(y.x.nodes)));
    JoinMapsNothing(JoinMaps(e, SumsOf(y.x.edges)));
    NoSums<NodeKey>();
    NoSums<EdgeKey>();
  }

  lemma NoSums<K>()
    ensures var none: map<K, Agg> := map[]; SumsOf(none) == map[]
  {
  }

  /** Moving a batch into the table, or into what is lost, keeps the sum. */
  lemma Moved<K(!new)>(t: map<K, Row>, lost: map<K, Sum>, m: map<K, Agg>)
    ensures JoinMaps(RowSums(Merged(t, m)), lost) == JoinMaps(JoinMaps(RowSums(t), lost), SumsOf(m))
    ensures JoinMaps(RowSums(t), JoinMaps(lost, SumsOf(m))) == JoinMaps(JoinMaps(RowSums(t), lost), SumsOf(m))
  {
    MergedSums(t, m);
    hide JoinMaps, Merged, RowSums, SumsOf;
    var a, b := RowSums(t), SumsOf(m);
    JoinMapsAssociative(a, b, lost);
    JoinMapsCommutes(b, lost);
    JoinMapsAssociative(a, lost, b);
  }

  lemma CommitAccounts(maxGroups: nat, y: System, whole: State, ok: bool)
    requires Accounts(y, whole)
    ensures Accounts(Next(maxGroups, y, Commit(ok)), whole)
  {
    hide JoinMaps, Merged, RowSums, SumsOf;
    Moved(y.nodes, y.lost.nodes, y.flight.nodes);
    Moved(y.edges, y.lost.edges, y.flight.edges);
    JoinMapsNothing(NodesAway(y));
    JoinMapsNothing(EdgesAway(y));
    NoSums<NodeKey>();
    NoSums<EdgeKey>();
  }

  /** For every interleaving of entries, snapshots, transactions that commit or fail, and
      evictions: stored, lost, in flight and in memory add up to what the extractor
      would hold had it never been flushed. */
  lemma {:induction false} FlushesDoNotShow(maxGroups: nat, es: seq<Event>)
    ensures Accounts(Run(maxGroups, es), Unflushed(maxGroups, es))
  {
    if es == [] {
      FreshAccounts();
    } else {
      var init, e := es[..|es| - 1], es[|es| - 1];
      FlushesDoNotShow(maxGroups, init);
      hide Accounts, Merged, Noticed;
      var y, whole := Run(maxGroups, init), Unflushed(maxGroups, init);
      match e {
        case Saw(s) => NoticedAccounts(maxGroups, y, whole, s);
        case Snapshot => if y.flight == NO_BATCH { SnapshotAccounts(y, whole); }
        case Commit(ok) => CommitAccounts(maxGroups, y, whole, ok);
        case Evict(cutoff) => EvictAccounts(y, whole, cutoff);
      }
    }
  }

  lemma FreshAccounts()
    ensures Accounts(FRESH, EMPTY)
  {
  }

  lemma EvictAccounts(y: System, whole: State, cutoff: Time)
    requires Accounts(y, whole)
    ensures Accounts(y.(x := y.x.(groups := Evicted(y.x.groups, cutoff))),
      whole.(groups := Evicted(whole.groups, cutoff)))
  {
    hide JoinMaps, SumsOf, Grown, RowSums;
  }

  /** Nothing in memory, in flight or lost: the state after Close. */
  predicate Drained(y: System) {
    y.x.nodes == map[] && y.x.edges == map[] && y.flight == NO_BATCH && y.lost == Lost(map[], map[])
  }

  /** After Close the tables hold the whole log, whenever the flushes happened. */
  lemma StoredIsWholeLog(maxGroups: nat, es: seq<Event>)
    requires Drained(Run(maxGroups, es))
    ensures RowSums(Run(maxGroups, es).nodes) == SumsOf(Unflushed(maxGroups, es).nodes)
    ensures RowSums(Run(maxGroups, es).edges) == SumsOf(Unflushed(maxGroups, es).edges)
  {
    FlushesDoNotShow(maxGroups, es);
    hide JoinMaps, RowSums, Run;
    var y := Run(maxGroups, es);
    JoinMapsNothing(RowSums(y.nodes));
    JoinMapsNothing(RowSums(y.edges));
    NoSums<NodeKey>();
    NoSums<EdgeKey>();
  }

  ghost predicate AllCommit(es: seq<Event>) { forall i :: 0 <= i < |es| && es[i].Commit? ==> es[i].ok }

  lemma {:induction false} NothingLost(maxGroups: nat, es: seq<Event>)
    requires AllCommit(es)
    ensures Run(maxGroups, es).lost == Lost(map[], map[])
  {
    hide Noticed, Merged;
    if es != [] { NothingLost(maxGroups, es[..|es| - 1]); }
  }

  /** Close: the batch on its way arrives, and one last snapshot is taken and stored. */
  function Closed(es: seq<Event>): seq<Event> { es + [Commit(true)] + [Snapshot] + [Commit(true)] }

  /** If no transaction failed, Close leaves the totals of the whole log in the tables. */
  lemma CloseStoresAll(maxGroups: nat, es: seq<Event>)
    requires AllCommit(es)
    ensures var y, whole := Run(maxGroups, Closed(es)), Unflushed(maxGroups, es);
      Drained(y) && RowSums(y.nodes) == SumsOf(whole.nodes) && RowSums(y.edges) == SumsOf(whole.edges)
  {
    NothingLost(maxGroups, es);
    var c1 := es + [Commit(true)];
    var c2 := c1 + [Snapshot];
    RunStep(maxGroups, es, Commit(true));
    RunStep(maxGroups, c1, Snapshot);
    RunStep(maxGroups, c2, Commit(true));
    UnflushedStep(maxGroups, es, Commit(true));
    UnflushedStep(maxGroups, c1, Snapshot);
    UnflushedStep(maxGroups, c2, Commit(true));
    hide Run, Unflushed, Merged, SumsOf, RowSums;
    StoredIsWholeLog(maxGroups, Closed(es));
  }

  lemma UnflushedStep(maxGroups: nat, es: seq<Event>, e: Event)
    requires !e.Saw? && !e.Evict?
    ensures Unflushed(maxGroups, es + [e]) == Unflushed(maxGroups, es)
  {
    assert (es + [e])[..|es|] == es;
  }

  /** What reaches the extractor, whatever the flush loop does meanwhile. */
  function Inputs(es: seq<Event>): seq<Event> {
    if es == [] then []
    else
      var e := es[|es| - 1];
      Inputs(es[..|es| - 1]) + if e.Saw? || e.Evict? then [e] else []
  }

  lemma {:induction false} UnflushedByInputs(maxGroups: nat, es: seq<Event>)
    ensures Unflushed(maxGroups, Inputs(es)) == Unflushed(maxGroups, es)
  {
    hide Noticed, Evicted;
    if es != [] {
      var init, e := es[..|es| - 1], es[|es| - 1];
      UnflushedByInputs(maxGroups, init);
      assert (Inputs(init) + [e])[..|Inputs(init)|] == Inputs(init);
      assert Inputs(init) + [] == Inputs(init);
    }
  }

  /** Two schedules over the same inputs leave the same totals in the tables. */
  lemma SchedulesAgree(maxGroups: nat, es: seq<Event>, fs: seq<Event>)
    requires Inputs(es) == Inputs(fs) && Drained(Run(maxGroups, es)) && Drained(Run(maxGroups, fs))
    ensures RowSums(Run(maxGroups, es).nodes) == RowSums(Run(maxGroups, fs).nodes)
    ensures RowSums(Run(maxGroups, es).edges) == RowSums(Run(maxGroups, fs).edges)
  {
    StoredIsWholeLog(maxGroups, es);
    StoredIsWholeLog(maxGroups, fs);
    UnflushedByInputs(maxGroups, es);
    UnflushedByInputs(maxGroups, fs);
    hide Run, RowSums, SumsOf, Unflushed, Inputs;
  }

  // ---- counts are those of the log ----

  function Seen(es: seq<Event>): seq<Sighting> {
    if es == [] then []
    else
      var log, e := Seen(es[..|es| - 1]), es[|es| - 1];
      if e.Saw? && e.s.app != "" then log + [e.s] else log
  }

  ghost predicate NoEviction(es: seq<Event>) { forall i :: 0 <= i < |es| ==> !es[i].Evict? }

  /** With room for all its groups and none evicted, the extractor counts exactly the
      interactions of the log, and refuses no group. */
  lemma {:induction false} CountsAreHits(maxGroups: nat, es: seq<Event>, k: EdgeKey, errorsOnly: bool)
    requires NoEviction(es) && |GraphCounts.Groups(Seen(es))| <= maxGroups && k.src != k.dst
    ensures var st := Unflushed(maxGroups, es);
      && GraphCounts.Count(st.edges, k, errorsOnly) == GraphCounts.Hits(Seen(es), k, errorsOnly)
      && GraphCounts.InStep(Seen(es), st.groups) && st.dropped == 0 && GraphCounts.Attributed(Seen(es))
  {
    hide GraphCounts.Count, GraphCounts.Hits, GraphCounts.InStep, GraphCounts.Groups, Noticed;
    if es == [] {
      NothingHit(k, errorsOnly);
    } else {
      var init, e := es[..|es| - 1], es[|es| - 1];
      var log := Seen(init);
      assert NoEviction(init) && !e.Evict?;
      if e.Saw? && e.s.app != "" {
        GraphCounts.GroupsGrow(log, e.s);
        SubsetSize(GraphCounts.Groups(log), GraphCounts.Groups(Seen(es)));
        CountsAreHits(maxGroups, init, k, errorsOnly);
        GraphCounts.NoticedCounts(maxGroups, log, Unflushed(maxGroups, init), e.s, k, errorsOnly);
      } else {
        CountsAreHits(maxGroups, init, k, errorsOnly);
        if e.Saw? { NothingNoticed(maxGroups, Unflushed(maxGroups, init), e.s); }
      }
    }
  }

  lemma NothingNoticed(maxGroups: nat, st: State, s: Sighting)
    requires s.app == ""
    ensures Noticed(maxGroups, st, s) == st
  {
  }

  lemma NothingHit(k: EdgeKey, errorsOnly: bool)
    ensures GraphCounts.Hits([], k, errorsOnly) == 0 && GraphCounts.Count(map[], k, errorsOnly) == 0
    ensures GraphCounts.InStep([], map[])
  {
  }

  /** The stored counters of an edge after Close, read off the log; an edge that is not
      stored was never hit. */
  lemma StoredCounts(maxGroups: nat, es: seq<Event>, k: EdgeKey)
    requires NoEviction(es) && |GraphCounts.Groups(Seen(es))| <= maxGroups && k.src != k.dst
    requires Drained(Run(maxGroups, es))
    ensures var t, log := Run(maxGroups, es).edges, Seen(es);
      if k in t then
        t[k].sum.count == GraphCounts.Hits(log, k, false) && t[k].sum.errors == GraphCounts.Hits(log, k, true)
      else GraphCounts.Hits(log, k, false) == 0
  {
    StoredIsWholeLog(maxGroups, es);
    CountsAreHits(maxGroups, es, k, false);
    CountsAreHits(maxGroups, es, k, true);
    hide Run, Unflushed, GraphCounts.Hits;
    assert k in Run(maxGroups, es).edges <==> k in RowSums(Run(maxGroups, es).edges);
    assert k in Unflushed(maxGroups, es).edges <==> k in SumsOf(Unflushed(maxGroups, es).edges);
  }

  // ---- what holds of every edge, everywhere ----

  ghost predicate SoundAggs(m: map<EdgeKey, Agg>) {
    forall k :: k in m ==> k.src != k.dst && k.src != "" && k.dst != "" && m[k].errors <= m[k].count
  }

  ghost predicate SoundRows(t: map<EdgeKey, Row>) {
    forall k :: k in t ==> k.src != k.dst && k.src != "" && k.dst != "" && t[k].sum.errors <= t[k].sum.count
  }

  lemma BumpSound(m: map<EdgeKey, Agg>, k: EdgeKey, origin: Origin, isErr: bool, at: Time)
    requires SoundAggs(m) && k.src != k.dst && k.src != "" && k.dst != ""
    ensures SoundAggs(Bump(m, k, origin, isErr, at))
  {
  }

  lemma LinkedSound(maxGroups: nat, st: State, gk: GroupKey, s: Sighting, origin: Origin)
    requires SoundAggs(st.edges) && s.app != ""
    ensures SoundAggs(Linked(maxGroups, st, gk, s, origin).edges)
  {
    hide Bump, SoundAggs;
    var last := if gk in st.groups then st.groups[gk].lastApp else "";
    if last != "" && last != s.app { BumpSound(st.edges, EdgeKey(gk.tenant, last, s.app), origin, s.isErr, s.at); }
  }

  lemma NoticedSound(maxGroups: nat, st: State, s: Sighting)
    requires SoundAggs(st.edges)
    ensures SoundAggs(Noticed(maxGroups, st, s).edges)
  {
    hide Bump, SoundAggs, Linked;
    if s.app != "" {
      var st1 := st.(nodes := Bump(st.nodes, NodeKey(s.tenant, s.app), NO_ORIGIN, s.isErr, s.at));
      LinkedSound(maxGroups, st1, GroupKey(s.tenant, Trace, s.trace), s, BY_TRACE);
      var st2 := LinkedById(maxGroups, st1, Trace, s.trace, s, BY_TRACE);
      LinkedSound(maxGroups, st2, GroupKey(s.tenant, Corr, s.corr), s, BY_FIELD);
      var st3 := LinkedById(maxGroups, st2, Corr, s.corr, s, BY_FIELD);
      if s.peer != "" && s.peer != s.app {
        BumpSound(st3.edges, EdgeKey(s.tenant, s.app, s.peer), BY_FIELD, s.isErr, s.at);
      }
    }
  }

  lemma MergedSound(t: map<EdgeKey, Row>, m: map<EdgeKey, Agg>)
    requires SoundRows(t) && SoundAggs(m)
    ensures SoundRows(Merged(t, m))
  {
  }

  ghost predicate Sound(y: System) { SoundAggs(y.x.edges) && SoundAggs(y.flight.edges) && SoundRows(y.edges) }

  lemma NextSound(maxGroups: nat, y: System, e: Event)
    requires Sound(y)
    ensures Sound(Next(maxGroups, y, e))
  {
    hide SoundAggs, SoundRows, Noticed, Merged, JoinMaps, SumsOf;
    NoneSound();
    if e.Saw? { NoticedSound(maxGroups, y.x, e.s); }
    if e.Commit? { MergedSound(y.edges, y.flight.edges); }
  }

  lemma NoneSound()
    ensures SoundAggs(map[]) && SoundRows(map[])
  {
  }

  /** In every run, in memory, in flight and stored: no edge from a service to itself or
      to no service, and never more errors than interactions. */
  lemma {:induction false} EdgesSound(maxGroups: nat, es: seq<Event>)
    ensures Sound(Run(maxGroups, es))
  {
    hide Next, Sound;
    if es == [] {
      FreshSound();
    } else {
      EdgesSound(maxGroups, es[..|es| - 1]);
      NextSound(maxGroups, Run(maxGroups, es[..|es| - 1]), es[|es| - 1]);
    }
  }

  lemma FreshSound()
    ensures Sound(FRESH)
  {
  }

  // ---- the one column that does depend on the schedule ----

  lemma RunStep(maxGroups: nat, es: seq<Event>, e: Event)
    ensures Run(maxGroups, es + [e]) == Next(maxGroups, Run(maxGroups, es), e)
  {
    assert (es + [e])[..|es|] == es;
  }

  /** `first_seen` is the last time of the first batch, so the same two entries, flushed
      between or not, leave different first times and equal totals. */
  lemma FirstSeenDependsOnFlush(maxGroups: nat, tenant: string, app: string, t1: Time, t2: Time)
    requires app != "" && 0 < t1 && Millis(t1) < Millis(t2)
    ensures var s1, s2 := Sighting(tenant, app, false, t1, "", "", ""), Sighting(tenant, app, false, t2, "", "", "");
      var k := NodeKey(tenant, app);
      var a := Run(maxGroups, [] + [Saw(s1)] + [Snapshot] + [Commit(true)] + [Saw(s2)] + [Snapshot] + [Commit(true)]);
      var b := Run(maxGroups, [] + [Saw(s1)] + [Saw(s2)] + [Snapshot] + [Commit(true)]);
      && Drained(a) && Drained(b) && k in a.nodes && k in b.nodes
      && a.nodes[k].first == Millis(t1) && b.nodes[k].first == Millis(t2) && a.nodes[k].sum == b.nodes[k].sum
  {
    var s1, s2 := Sighting(tenant, app, false, t1, "", "", ""), Sighting(tenant, app, false, t2, "", "", "");
    var k := NodeKey(tenant, app);
    hide Run;
    var es: seq<Event> := [];
    assert Run(maxGroups, es) == FRESH by { FreshRun(maxGroups); }
    RunStep(maxGroups, es, Saw(s1));
    var a1 := es + [Saw(s1)];
    assert Run(maxGroups, a1).x.nodes == map[k := Agg(NO_ORIGIN, 1, 0, t1)];
    RunStep(maxGroups, a1, Snapshot);
    var a2 := a1 + [Snapshot];
    RunStep(maxGroups, a2, Commit(true));
    var a3 := a2 + [Commit(true)];
    assert Run(maxGroups, a3).nodes == map[k := Row(Millis(t1), Sum(NO_ORIGIN, 1, 0, Millis(t1)))];
    RunStep(maxGroups, a3, Saw(s2));
    var a4 := a3 + [Saw(s2)];
    assert Run(maxGroups, a4).x.nodes == map[k := Agg(NO_ORIGIN, 1, 0, t2)] by {
      MillisMonotone(0, t1);
      if t2 <= 0 { MillisMonotone(t2, t1); }
    }
    RunStep(maxGroups, a4, Snapshot);
    var a5 := a4 + [Snapshot];
    RunStep(maxGroups, a5, Commit(true));
    RunStep(maxGroups, a1, Saw(s2));
    var b2 := a1 + [Saw(s2)];
    assert Run(maxGroups, b2).x.nodes == map[k := Agg(NO_ORIGIN, 2, 0, t2)] by {
      if t2 <= t1 { MillisMonotone(t2, t1); }
    }
    RunStep(maxGroups, b2, Snapshot);
    var b3 := b2 + [Snapshot];
    RunStep(maxGroups, b3, Commit(true));
  }

  lemma FreshRun(maxGroups: nat)
    ensures Run(maxGroups, []) == FRESH
  {
  }

  /** Stored times are whole milliseconds since the first of January 1970, 719162 days after
      that of the year 1, rounded down. */
  lemma MillisExactly(t: Time)
    ensures var since := t - 719_162 * 24 * 3600 * 1_000_000_000;
      Millis(t) * 1_000_000 <= since < (Millis(t) + 1) * 1_000_000
  {
  }
}
