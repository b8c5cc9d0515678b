/** Deploy markers: version changes noticed in the stream, flushed now and then, stored
    across restarts. */
module Deploys {
  import opened Common
  import opened Model
  import Graph
  import GraphFlush

  const MAX_TRACKED := 10_000

  datatype Deploy = Deploy(app: string, version: string, ts: Time)

  /** A stored marker, its time in Unix milliseconds. */
  datatype Row = Row(app: string, version: string, ms: int)

  function ToRow(d: Deploy): Row { Row(d.app, d.version, GraphFlush.Millis(d.ts)) }

  // ---- one tenant's table ----

  /** The row of `app` with the greatest time. */
  function LatestRow(rows: seq<Row>, app: string): (r: Option<Row>)
    ensures r.Some? ==> r.value in rows && r.value.app == app
    ensures r.None? ==> forall x :: x in rows ==> x.app != app
    ensures r.Some? ==> forall x :: x in rows && x.app == app ==> x.ms <= r.value.ms
  {
    if rows == [] then None
    else
      var r, x := LatestRow(rows[..|rows| - 1], app), rows[|rows| - 1];
      if x.app == app && (r.None? || x.ms > r.value.ms) then Some(x) else r
  }

  function Insert(rows: seq<Row>, d: Deploy): seq<Row> {
    var latest := LatestRow(rows, d.app);
    if latest.Some? && latest.value.version == d.version then rows else rows + [ToRow(d)]
  }

  function InsertAll(rows: seq<Row>, ds: seq<Deploy>): seq<Row> {
    if ds == [] then rows else Insert(InsertAll(rows, ds[..|ds| - 1]), ds[|ds| - 1])
  }

  // ---- the detector ----

  type Key = Graph.NodeKey

  function ListOf<T>(m: map<string, seq<T>>, tenant: string): seq<T> { if tenant in m then m[tenant] else [] }

  datatype State = State(last: map<Key, string>, pending: map<string, seq<Deploy>>)

  const NOTHING := State(map[], map[])

  /** The detector makes a marker of this sighting. */
  predicate Recorded(st: State, tenant: string, app: string, version: string) {
    var k := Graph.NodeKey(tenant, app);
    app != "" && version != "" && if k in st.last then st.last[k] != version else |st.last| < MAX_TRACKED
  }

  function Observed(st: State, tenant: string, app: string, version: string, ts: Time): State {
    if Recorded(st, tenant, app, version) then
      State(st.last[Graph.NodeKey(tenant, app) := version],
            st.pending[tenant := ListOf(st.pending, tenant) + [Deploy(app, version, ts)]])
    else st
  }

  /** The tables after a flush; the inserts of the tenants in `failing` write nothing. */
  function Flushed(tables: map<string, seq<Row>>, pending: map<string, seq<Deploy>>, failing: set<string>)
    : map<string, seq<Row>>
  {
    map t | t in tables.Keys + (pending.Keys - failing) ::
      InsertAll(ListOf(tables, t), if t in failing then [] else ListOf(pending, t))
  }

  // ---- the program ----

  class DeployStore {
    var tables: map<string, seq<Row>>

    constructor ()
      ensures tables == map[]
    {
      tables := map[];
    }

    /** The latest stored version of `app`, by time. */
    method Latest(rows: seq<Row>, app: string) returns (r: Option<Row>)
      ensures r == LatestRow(rows, app)
    {
      r := None;
      for i := 0 to |rows|
        invariant r == LatestRow(rows[..i], app)
      {
        assert rows[..i + 1][..i] == rows[..i];
        if rows[i].app == app && (r.None? || rows[i].ms > r.value.ms) { r := Some(rows[i]); }
      }
      assert rows[..|rows|] == rows;
    }

    /** Appends the markers of a tenant, skipping a version equal to the latest stored. When
        the transaction fails nothing is written. */
    method InsertDeploys(tenant: string, ds: seq<Deploy>, commits: bool)
      modifies this
      ensures tables == if commits then old(tables)[tenant := InsertAll(ListOf(old(tables), tenant), ds)]
        else old(tables)
    {
      hide LatestRow;
      var rows := ListOf(tables, tenant);
      for i := 0 to |ds|
        invariant rows == InsertAll(ListOf(tables, tenant), ds[..i]) && tables == old(tables)
      {
        assert ds[..i + 1][..i] == ds[..i];
        var latest := Latest(rows, ds[i].app);
        if latest.Some? && latest.value.version == ds[i].version { continue; }
        rows := rows + [ToRow(ds[i])];
      }
      assert ds[..|ds|] == ds;
      if commits { tables := tables[tenant := rows]; }
    }
  }

  class Detector {
    var last: map<Key, string>
    var pending: map<string, seq<Deploy>>

    ghost function Abstract(): State
      reads this
    {
      State(last, pending)
    }

    constructor ()
      ensures Abstract() == NOTHING
    {
      last, pending := map[], map[];
    }

    /** `version` is what the entry's fields or message say, empty for nothing. */
    method Append(tenant: string, app: string, version: string, ts: Time)
      modifies this
      ensures Abstract() == Observed(old(Abstract()), tenant, app, version, ts)
    {
      if app == "" || version == "" { return; }
      var k := Graph.NodeKey(tenant, app);
      if k in last && last[k] == version { return; }
      if k !in last && |last| >= MAX_TRACKED { return; }
      last := last[k := version];
      pending := pending[tenant := ListOf(pending, tenant) + [Deploy(app, version, ts)]];
    }

    /** Hands each tenant's pending markers to the store, whether it takes them or not. */
    method Flush(store: DeployStore, failing: set<string>)
      modifies this, store
      ensures Abstract() == old(Abstract()).(pending := map[])
      ensures store.tables == Flushed(old(store.tables), old(pending), failing)
    {
      hide InsertAll, Flushed;
      var taken := pending;
      pending := map[];
      var left := taken.Keys;
      while left != {}
        invariant left <= taken.Keys && Abstract() == old(Abstract()).(pending := map[])
        invariant store.tables.Keys == old(store.tables).Keys + (taken.Keys - left - failing)
        invariant forall t :: t in store.tables && t in taken.Keys - left - failing ==>
          store.tables[t] == InsertAll(ListOf(old(store.tables), t), taken[t])
        invariant forall t :: t in old(store.tables) && t !in taken.Keys - left - failing ==>
          store.tables[t] == old(store.tables)[t]
        decreases left
      {
        var t :| t in left;
        left := left - {t};
        store.InsertDeploys(t, taken[t], t !in failing);
      }
      FlushedIs(old(store.tables), taken, failing, store.tables);
    }
  }

  lemma FlushedIs(was: map<string, seq<Row>>, pending: map<string, seq<Deploy>>, failing: set<string>,
                  tables: map<string, seq<Row>>)
    requires tables.Keys == was.Keys + (pending.Keys - failing)
    requires forall t :: t in tables && t in pending.Keys - failing ==>
      tables[t] == InsertAll(ListOf(was, t), pending[t])
    requires forall t :: t in was && t !in pending.Keys - failing ==> tables[t] == was[t]
    ensures tables == Flushed(was, pending, failing)
  {
    hide InsertAll;
    InsertNothing(was);
  }

  lemma InsertNothingInto(rows: seq<Row>)
    ensures InsertAll(rows, []) == rows
  {
  }

  lemma InsertNothing(tables: map<string, seq<Row>>)
    ensures forall t :: t in tables ==> tables[t] == InsertAll(ListOf(tables, t), [])
  {
  }

  // ---- one application's rows ----

  /** The rows of one application, in order. */
  function Of(rows: seq<Row>, app: string): seq<Row> {
    if rows == [] then []
    else Of(rows[..|rows| - 1], app) + if rows[|rows| - 1].app == app then [rows[|rows| - 1]] else []
  }

  function Pending(ds: seq<Deploy>, app: string): seq<Row> {
    if ds == [] then []
    else Pending(ds[..|ds| - 1], app) + if ds[|ds| - 1].app == app then [ToRow(ds[|ds| - 1])] else []
  }

  /** `x` unless the row with the greatest time has its version: the guard of the insert. */
  function Put(rs: seq<Row>, x: Row): seq<Row> {
    var latest := LatestRow(rs, x.app);
    if latest.Some? && latest.value.version == x.version then rs else rs + [x]
  }

  function PutAll(rs: seq<Row>, xs: seq<Row>): seq<Row> {
    if xs == [] then rs else Put(PutAll(rs, xs[..|xs| - 1]), xs[|xs| - 1])
  }

  /** Other applications' rows do not matter to the guard. */
  lemma {:induction false} LatestOf(rows: seq<Row>, app: string)
    ensures LatestRow(Of(rows, app), app) == LatestRow(rows, app)
  {
    if rows != [] {
      var init, x := rows[..|rows| - 1], rows[|rows| - 1];
      LatestOf(init, app);
      if x.app == app {
        assert Of(rows, app)[..|Of(init, app)|] == Of(init, app);
      } else {
        assert Of(rows, app) == Of(init, app);
      }
    }
  }

  lemma OfAppend(rows: seq<Row>, x: Row, app: string)
    ensures Of(rows + [x], app) == if x.app == app then Of(rows, app) + [x] else Of(rows, app)
  {
    assert (rows + [x])[..|rows|] == rows;
  }

  lemma InsertOf(rows: seq<Row>, d: Deploy, app: string)
    ensures Of(Insert(rows, d), app) == if d.app == app then Put(Of(rows, app), ToRow(d)) else Of(rows, app)
  {
    hide LatestRow, Of;
    LatestOf(rows, d.app);
    OfAppend(rows, ToRow(d), app);
  }

  lemma PendingMore(ds: seq<Deploy>, d: Deploy, app: string)
    ensures Pending(ds + [d], app) == if d.app == app then Pending(ds, app) + [ToRow(d)] else Pending(ds, app)
  {
    assert (ds + [d])[..|ds|] == ds;
    assert Pending(ds, app) + [] == Pending(ds, app);
  }

  lemma PutMore(rs: seq<Row>, xs: seq<Row>, x: Row)
    ensures PutAll(rs, xs + [x]) == Put(PutAll(rs, xs), x)
  {
    assert (xs + [x])[..|xs|] == xs;
  }

  /** A batch of markers does to each application's rows what putting its own markers one
      by one does, whatever their times. */
  lemma {:induction false} InsertAllOf(rows: seq<Row>, ds: seq<Deploy>, app: string)
    ensures Of(InsertAll(rows, ds), app) == PutAll(Of(rows, app), Pending(ds, app))
    decreases |ds|
  {
    hide Of, Insert, Put, Pending, ToRow;
    if ds == [] {
      NonePending(app);
    } else {
      var init, d := ds[..|ds| - 1], ds[|ds| - 1];
      assert ds == init + [d];
      InsertAllOf(rows, init, app);
      InsertOf(InsertAll(rows, init), d, app);
      PendingMore(init, d, app);
      PutMore(Of(rows, app), Pending(init, app), ToRow(d));
    }
  }

  lemma NonePending(app: string)
    ensures Pending([], app) == []
  {
  }

  lemma {:induction false} PutConcat(rs: seq<Row>, xs: seq<Row>, ys: seq<Row>)
    ensures PutAll(rs, xs + ys) == PutAll(PutAll(rs, xs), ys)
    decreases |ys|
  {
    hide Put;
    if ys == [] {
      assert xs + ys == xs;
    } else {
      var init, y := ys[..|ys| - 1], ys[|ys| - 1];
      PutConcat(rs, xs, init);
      assert xs + ys == xs + init + [y];
      PutMore(rs, xs + init, y);
    }
  }

  // ---- runs ----

  /** A sighting; a flush, in which some tenants' inserts may fail; or a graceful restart:
      a last flush, and then a detector that remembers nothing. */
  datatype Event =
    | Saw(tenant: string, app: string, version: string, ts: Time)
    | Flush(failing: set<string>)
    | Restart(failing: set<string>)

  datatype System = System(st: State, tables: map<string, seq<Row>>)

  function Next(y: System, e: Event): System {
    match e
    case Saw(tenant, app, version, ts) => y.(st := Observed(y.st, tenant, app, version, ts))
    case Flush(failing) => System(y.st.(pending := map[]), Flushed(y.tables, y.st.pending, failing))
    case Restart(failing) => System(NOTHING, Flushed(y.tables, y.st.pending, failing))
  }

  function Run(es: seq<Event>): System {
    if es == [] then System(NOTHING, map[]) else Next(Run(es[..|es| - 1]), es[|es| - 1])
  }

  function Stored(y: System, k: Key): seq<Row> { Of(ListOf(y.tables, k.tenant), k.app) }

  function Waiting(y: System, k: Key): seq<Row> { Pending(ListOf(y.st.pending, k.tenant), k.app) }

  /** The markers of `k` that flushes have handed to the store successfully, in order. */
  function Delivered(es: seq<Event>, k: Key): seq<Row> {
    if es == [] then []
    else
      var init, e := es[..|es| - 1], es[|es| - 1];
      Delivered(init, k) + if e.Saw? || k.tenant in e.failing then [] else Waiting(Run(init), k)
  }

  lemma FlushedOf(y: System, failing: set<string>, k: Key)
    ensures Of(ListOf(Flushed(y.tables, y.st.pending, failing), k.tenant), k.app)
         == PutAll(Stored(y, k), if k.tenant in failing then [] else Waiting(y, k))
  {
    InsertAllOf(ListOf(y.tables, k.tenant), ListOf(y.st.pending, k.tenant), k.app);
    InsertAllOf(ListOf(y.tables, k.tenant), [], k.app);
    NonePending(k.app);
    InsertNothingInto([]);
    hide InsertAll, Of, PutAll, Pending;
    if k.tenant !in y.tables && (k.tenant in failing || k.tenant !in y.st.pending) { PutNone(k.app); }
  }

  lemma PutNone(app: string)
    ensures Of([], app) == [] && PutAll([], []) == [] && Pending([], app) == []
  {
  }

  /** In every run, failed inserts, a full detector and disordered times included: what is
      stored of an application is its delivered markers, each put in unless the row with
      the greatest time before it has its version. */
  lemma {:induction false} StoredIsPut(es: seq<Event>, k: Key)
    ensures Stored(Run(es), k) == PutAll([], Delivered(es, k))
  {
    if es == [] {
      PutNone(k.app);
    } else {
      hide Of, PutAll, Flushed, Observed, Waiting;
      var init, e := es[..|es| - 1], es[|es| - 1];
      StoredIsPut(init, k);
      if e.Saw? {
        assert Delivered(init, k) + [] == Delivered(init, k);
      } else {
        FlushedOf(Run(init), e.failing, k);
        PutConcat([], Delivered(init, k), if k.tenant in e.failing then [] else Waiting(Run(init), k));
      }
    }
  }

  // ---- the versions seen and the markers made of them ----

  predicate IsSighting(e: Event, k: Key) {
    e.Saw? && e.tenant == k.tenant && e.app == k.app && e.app != "" && e.version != ""
  }

  function Sighted(e: Event): Row
    requires e.Saw?
  {
    Row(e.app, e.version, GraphFlush.Millis(e.ts))
  }

  /** The versions seen of one application, in order. */
  function Seen(es: seq<Event>, k: Key): seq<Row> {
    if es == [] then []
    else
      var e := es[|es| - 1];
      Seen(es[..|es| - 1], k) + if IsSighting(e, k) then [Sighted(e)] else []
  }

  /** Whether `k` was seen since the last restart. */
  predicate SeenLately(es: seq<Event>, k: Key) {
    es != [] && !es[|es| - 1].Restart? && (IsSighting(es[|es| - 1], k) || SeenLately(es[..|es| - 1], k))
  }

  predicate EndsWith(xs: seq<Row>, version: string) { xs != [] && xs[|xs| - 1].version == version }

  /** The detector makes a marker of a sighting that differs from the one before, and of the
      first after a restart. */
  predicate Marked(es: seq<Event>, e: Event, k: Key) {
    IsSighting(e, k) && !(SeenLately(es, k) && EndsWith(Seen(es, k), e.version))
  }

  function Marks(es: seq<Event>, k: Key): seq<Row> {
    if es == [] then []
    else
      var init, e := es[..|es| - 1], es[|es| - 1];
      Marks(init, k) + if Marked(init, e, k) then [Sighted(e)] else []
  }

  /** The sightings that differ in version from the one just before. */
  function Destutter(xs: seq<Row>): seq<Row> {
    if xs == [] then []
    else
      var n := |xs| - 1;
      Destutter(xs[..n]) + if EndsWith(xs[..n], xs[n].version) then [] else [xs[n]]
  }

  function Keys(es: seq<Event>): set<Key> {
    if es == [] then {}
    else
      var e := es[|es| - 1];
      Keys(es[..|es| - 1])
      + if e.Saw? && e.app != "" && e.version != "" then {Graph.NodeKey(e.tenant, e.app)} else {}
  }

  ghost predicate AllWritten(es: seq<Event>) { forall i :: 0 <= i < |es| && !es[i].Saw? ==> es[i].failing == {} }

  /** The detector remembers the last version of what it saw since the restart. */
  ghost predicate Remembers(y: System, es: seq<Event>, k: Key) {
    && (k in y.st.last <==> SeenLately(es, k))
    && (k in y.st.last ==> EndsWith(Seen(es, k), y.st.last[k]))
  }

  lemma {:induction false} SeenBefore(es: seq<Event>, k: Key)
    ensures SeenLately(es, k) ==> Seen(es, k) != []
  {
    if es != [] { SeenBefore(es[..|es| - 1], k); }
  }

  lemma {:induction false} TrackedKeys(es: seq<Event>)
    ensures Run(es).st.last.Keys <= Keys(es)
  {
    if es != [] { TrackedKeys(es[..|es| - 1]); }
  }

  lemma RoomToTrack(es: seq<Event>, k: Key)
    requires es != [] && |Keys(es)| <= 10_000 && IsSighting(es[|es| - 1], k)
    ensures var last := Run(es[..|es| - 1]).st.last; k in last || |last| < MAX_TRACKED
  {
    TrackedKeys(es[..|es| - 1]);
    hide Run;
    var last := Run(es[..|es| - 1]).st.last;
    if k !in last {
      SubsetSize(last.Keys + {k}, Keys(es));
      assert |last.Keys + {k}| == |last.Keys| + 1 && |last| == |last.Keys|;
    }
  }

  lemma {:induction false} RunRemembers(es: seq<Event>, k: Key)
    requires |Keys(es)| <= 10_000
    ensures Remembers(Run(es), es, k)
  {
    hide Keys, Run, Next, Remembers, Seen, SeenLately;
    if es == [] {
      NothingRemembered(k);
    } else {
      var init, e := es[..|es| - 1], es[|es| - 1];
      FewerKeys(es);
      RunRemembers(init, k);
      if IsSighting(e, k) { RoomToTrack(es, k); }
      RunStep(es);
      assert es == init + [e];
      StepRemembers(Run(init), init, e, k);
    }
  }

  lemma NothingRemembered(k: Key)
    ensures Remembers(Run([]), [], k)
  {
  }

  lemma FewerKeys(es: seq<Event>)
    requires es != []
    ensures |Keys(es[..|es| - 1])| <= |Keys(es)|
  {
    SubsetSize(Keys(es[..|es| - 1]), Keys(es));
  }

  lemma StepRemembers(y: System, es: seq<Event>, e: Event, k: Key)
    requires Remembers(y, es, k) && (IsSighting(e, k) ==> k in y.st.last || |y.st.last| < MAX_TRACKED)
    ensures Remembers(Next(y, e), es + [e], k)
  {
    hide Flushed, Seen, SeenLately;
    MoreSeen(es, e, k);
  }

  lemma MoreSeen(es: seq<Event>, e: Event, k: Key)
    ensures Seen(es + [e], k) == Seen(es, k) + if IsSighting(e, k) then [Sighted(e)] else []
    ensures SeenLately(es + [e], k) <==> !e.Restart? && (IsSighting(e, k) || SeenLately(es, k))
  {
    assert (es + [e])[..|es|] == es;
  }

  lemma RunStep(es: seq<Event>)
    requires es != []
    ensures Run(es) == Next(Run(es[..|es| - 1]), es[|es| - 1])
  {
  }

  lemma WaitingMore(st: State, tenant: string, d: Deploy, k: Key)
    ensures var p := st.pending[tenant := ListOf(st.pending, tenant) + [d]];
      Pending(ListOf(p, k.tenant), k.app)
      == Pending(ListOf(st.pending, k.tenant), k.app) + if k.tenant == tenant && k.app == d.app then [ToRow(d)] else []
  {
    PendingMore(ListOf(st.pending, tenant), d, k.app);
    hide Pending;
    assert Pending(ListOf(st.pending, k.tenant), k.app) + [] == Pending(ListOf(st.pending, k.tenant), k.app);
  }

  /** Under the cap and with no failing insert, delivered and waiting markers together are
      the changes of version and the first sightings after restarts. */
  lemma {:induction false} MarksAreMade(es: seq<Event>, k: Key)
    requires |Keys(es)| <= 10_000 && AllWritten(es)
    ensures Delivered(es, k) + Waiting(Run(es), k) == Marks(es, k)
  {
    if es == [] {
      NonePending(k.app);
    } else {
      var init, e := es[..|es| - 1], es[|es| - 1];
      FewerKeys(es);
      MarksAreMade(init, k);
      hide Flushed, Keys, Run, SeenLately, Seen, Pending;
      RunStep(es);
      var y := Run(init);
      if e.Saw? {
        RunRemembers(init, k);
        if IsSighting(e, k) { RoomToTrack(es, k); }
        SawMakes(y, init, e, k);
        assert Delivered(init, k) + [] == Delivered(init, k);
        assert Marks(init, k) + [] == Marks(init, k);
        Regroup(Delivered(init, k), Waiting(y, k), if Marked(init, e, k) then [Sighted(e)] else []);
      } else {
        assert e.failing == {};
        NonePending(k.app);
        assert Delivered(es, k) + [] == Delivered(es, k);
      }
    }
  }

  /** One sighting adds its marker to what waits, or nothing. */
  lemma SawMakes(y: System, es: seq<Event>, e: Event, k: Key)
    requires e.Saw? && Remembers(y, es, k)
    requires IsSighting(e, k) ==> k in y.st.last || |y.st.last| < MAX_TRACKED
    ensures Waiting(Next(y, e), k) == Waiting(y, k) + if Marked(es, e, k) then [Sighted(e)] else []
  {
    ObservedPending(y.st, e.tenant, e.app, e.version, e.ts, k);
    hide Pending, SeenLately, Seen, ListOf, Observed;
  }

  lemma ObservedPending(st: State, tenant: string, app: string, version: string, ts: Time, k: Key)
    ensures Pending(ListOf(Observed(st, tenant, app, version, ts).pending, k.tenant), k.app)
         == Pending(ListOf(st.pending, k.tenant), k.app)
            + if Recorded(st, tenant, app, version) && k.tenant == tenant && k.app == app
              then [Row(app, version, GraphFlush.Millis(ts))] else []
  {
    WaitingMore(st, tenant, Deploy(app, version, ts), k);
    hide Pending, ListOf;
    var ps := Pending(ListOf(st.pending, k.tenant), k.app);
    assert ps + [] == ps;
  }

  // ---- repetitions dropped ----

  lemma DestutterMore(xs: seq<Row>, x: Row)
    ensures Destutter(xs + [x]) == Destutter(xs) + if EndsWith(xs, x.version) then [] else [x]
  {
    assert (xs + [x])[..|xs|] == xs;
  }

  lemma {:induction false} DestutterEnds(xs: seq<Row>, version: string)
    ensures EndsWith(Destutter(xs), version) <==> EndsWith(xs, version)
  {
    if xs != [] {
      var init, x := xs[..|xs| - 1], xs[|xs| - 1];
      if EndsWith(init, x.version) {
        DestutterEnds(init, x.version);
        assert Destutter(xs) == Destutter(init);
      }
    }
  }

  /** Markers repeat a version only across restarts, so they say the same as the sightings. */
  lemma {:induction false} MarksDestutter(es: seq<Event>, k: Key)
    ensures Destutter(Marks(es, k)) == Destutter(Seen(es, k))
    ensures forall v :: EndsWith(Marks(es, k), v) <==> EndsWith(Seen(es, k), v)
  {
    if es != [] {
      var init, e := es[..|es| - 1], es[|es| - 1];
      MarksDestutter(init, k);
      hide Destutter, SeenLately;
      assert Marks(init, k) + [] == Marks(init, k) && Seen(init, k) + [] == Seen(init, k);
      if IsSighting(e, k) {
        DestutterMore(Marks(init, k), Sighted(e));
        DestutterMore(Seen(init, k), Sighted(e));
        assert Destutter(Seen(init, k)) + [] == Destutter(Seen(init, k));
      }
    }
  }

  // ---- exactly when the store keeps the history ----

  predicate GuardSkips(rs: seq<Row>, x: Row) {
    var latest := LatestRow(rs, x.app);
    latest.Some? && latest.value.version == x.version
  }

  /** For a marker `x` after the history `d`: the version with the greatest time is that of
      `x` exactly if the version just before is. */
  predicate GuardRight(d: seq<Row>, x: Row) { GuardSkips(d, x) <==> EndsWith(d, x.version) }

  predicate GuardsRight(xs: seq<Row>) {
    forall i :: 0 <= i < |xs| ==> GuardRight(Destutter(xs[..i]), xs[i])
  }

  ghost predicate SameApp(xs: seq<Row>, app: string) { forall i :: 0 <= i < |xs| ==> xs[i].app == app }

  predicate RepeatAt(ps: seq<Row>, n: nat) { n + 1 < |ps| && ps[n].version == ps[n + 1].version }

  /** The store lacks the version `ds[n]`: the guard keeps it out, or another has its place. */
  predicate MissingAt(ps: seq<Row>, ds: seq<Row>, n: nat) {
    n < |ds| && n <= |ps| && if n == |ps| then GuardSkips(ps, ds[n]) else ps[n].version != ds[n].version
  }

  /** Once a repetition was stored or a version kept out, the store stays wrong. */
  ghost predicate Wrong(ps: seq<Row>, ds: seq<Row>) {
    (exists n: nat :: RepeatAt(ps, n)) || (exists n: nat :: MissingAt(ps, ds, n))
  }

  lemma StaysWrong(ps: seq<Row>, ds: seq<Row>, x: Row, app: string)
    requires Wrong(ps, ds) && SameApp(ds, app) && x.app == app
    ensures Wrong(Put(ps, x), ds) && Wrong(Put(ps, x), ds + [x])
  {
    hide LatestRow;
    if n: nat :| RepeatAt(ps, n) {
      assert RepeatAt(Put(ps, x), n);
    } else {
      var n: nat :| MissingAt(ps, ds, n);
      assert MissingAt(Put(ps, x), ds, n) && MissingAt(Put(ps, x), ds + [x], n);
    }
  }

  lemma {:induction false} NoRepetition(xs: seq<Row>, n: nat)
    ensures !RepeatAt(Destutter(xs), n)
  {
    if xs != [] {
      var init, x := xs[..|xs| - 1], xs[|xs| - 1];
      NoRepetition(init, n);
      DestutterEnds(init, x.version);
      hide Destutter;
      assert xs == init + [x];
      DestutterMore(init, x);
    }
  }

  lemma WrongIsDifferent(ps: seq<Row>, xs: seq<Row>)
    requires Wrong(ps, Destutter(xs))
    ensures ps != Destutter(xs)
  {
    hide Destutter, LatestRow;
    if ps == Destutter(xs) {
      forall n: nat ensures !RepeatAt(ps, n) { NoRepetition(xs, n); }
      assert false;
    }
  }

  lemma GuardsMore(xs: seq<Row>, x: Row)
    ensures GuardsRight(xs + [x]) <==> GuardsRight(xs) && GuardRight(Destutter(xs), x)
  {
    hide GuardRight, Destutter;
    var ys := xs + [x];
    assert ys[..|xs|] == xs && forall i :: 0 <= i < |xs| ==> ys[..i] == xs[..i] && ys[i] == xs[i];
    if GuardsRight(ys) {
      forall i | 0 <= i < |xs| ensures GuardRight(Destutter(xs[..i]), xs[i]) {
        assert GuardRight(Destutter(ys[..i]), ys[i]);
      }
      assert GuardRight(Destutter(ys[..|xs|]), ys[|xs|]);
    }
  }

  /** Putting markers in one by one drops exactly the repetitions if every guard is right;
      if one is wrong, the result is wrong for good. */
  lemma {:induction false} PutExactly(xs: seq<Row>, app: string)
    requires SameApp(xs, app)
    ensures GuardsRight(xs) ==> PutAll([], xs) == Destutter(xs)
    ensures !GuardsRight(xs) ==> Wrong(PutAll([], xs), Destutter(xs))
  {
    if xs != [] {
      var init, x := xs[..|xs| - 1], xs[|xs| - 1];
      assert xs == init + [x];
      PutExactly(init, app);
      GuardsMore(init, x);
      PutMore([], init, x);
      DestutterMore(init, x);
      DestutterEnds(init, x.version);
      DestutterSameApp(init, app);
      hide Destutter, PutAll, GuardsRight, Wrong;
      var ps, ds := PutAll([], init), Destutter(init);
      assert ds + [] == ds;
      if !GuardsRight(init) {
        StaysWrong(ps, ds, x, app);
      } else if !GuardRight(ds, x) {
        GoesWrong(ds, x);
      }
    }
  }

  lemma GoesWrong(ds: seq<Row>, x: Row)
    requires !GuardRight(ds, x)
    ensures Wrong(Put(ds, x), ds + if EndsWith(ds, x.version) then [] else [x])
  {
    hide LatestRow;
    if EndsWith(ds, x.version) {
      assert RepeatAt(Put(ds, x), |ds| - 1);
    } else {
      assert MissingAt(Put(ds, x), ds + [x], |ds|);
    }
  }

  lemma {:induction false} DestutterSameApp(xs: seq<Row>, app: string)
    requires SameApp(xs, app)
    ensures SameApp(Destutter(xs), app)
  {
    if xs != [] { DestutterSameApp(xs[..|xs| - 1], app); }
  }

  lemma {:induction false} MarksSameApp(es: seq<Event>, k: Key)
    ensures SameApp(Marks(es, k), k.app)
  {
    if es != [] { MarksSameApp(es[..|es| - 1], k); }
  }

  /** For every placement of flushes and graceful restarts, under the cap and with no failing
      insert: what is stored of an application, and then what waits, amounts to the versions
      seen without consecutive repetitions, if and only if every marker finds the guard
      right. */
  lemma HistoryIsKeptExactly(es: seq<Event>, k: Key)
    requires |Keys(es)| <= 10_000 && AllWritten(es)
    ensures PutAll(Stored(Run(es), k), Waiting(Run(es), k)) == Destutter(Seen(es, k)) <==> GuardsRight(Marks(es, k))
  {
    StoredIsPut(es, k);
    MarksAreMade(es, k);
    MarksDestutter(es, k);
    MarksSameApp(es, k);
    hide Run, Stored, Waiting, Delivered, Marks, Destutter, PutAll, Wrong, GuardsRight, Keys;
    var xs := Marks(es, k);
    PutConcat([], Delivered(es, k), Waiting(Run(es), k));
    PutExactly(xs, k.app);
    if !GuardsRight(xs) { WrongIsDifferent(PutAll([], xs), xs); }
  }

  /** After a flush or a graceful restart nothing waits: the stored rows of an application
      are the versions seen, without repetitions, each with the time it was first seen, if
      and only if every marker finds the guard right. */
  lemma StoredIsDestuttered(es: seq<Event>, k: Key)
    requires es != [] && !es[|es| - 1].Saw? && |Keys(es)| <= 10_000 && AllWritten(es)
    ensures Stored(Run(es), k) == Destutter(Seen(es, k)) <==> GuardsRight(Marks(es, k))
  {
    HistoryIsKeptExactly(es, k);
    hide Run, Stored, Destutter, Seen, Keys, GuardsRight, Marks, Waiting;
    NothingWaits(es, k);
  }

  /** In every run at all, inserts that fail and a full detector included: the stored rows
      are the delivered markers without repetitions exactly if each found the guard right. */
  lemma DeliveredIsKeptExactly(es: seq<Event>, k: Key)
    ensures Stored(Run(es), k) == Destutter(Delivered(es, k)) <==> GuardsRight(Delivered(es, k))
  {
    StoredIsPut(es, k);
    DeliveredSameApp(es, k);
    hide Run, Stored, Delivered, Destutter, PutAll, Wrong, GuardsRight;
    var xs := Delivered(es, k);
    PutExactly(xs, k.app);
    if !GuardsRight(xs) { WrongIsDifferent(PutAll([], xs), xs); }
  }

  lemma {:induction false} DeliveredSameApp(es: seq<Event>, k: Key)
    ensures SameApp(Delivered(es, k), k.app)
  {
    if es != [] {
      hide Run, Waiting;
      DeliveredSameApp(es[..|es| - 1], k);
      WaitingSameApp(Run(es[..|es| - 1]), k);
    }
  }

  lemma WaitingSameApp(y: System, k: Key)
    ensures SameApp(Waiting(y, k), k.app)
  {
    PendingSameApp(ListOf(y.st.pending, k.tenant), k.app);
  }

  lemma {:induction false} PendingSameApp(ds: seq<Deploy>, app: string)
    ensures SameApp(Pending(ds, app), app)
  {
    if ds != [] { PendingSameApp(ds[..|ds| - 1], app); }
  }

  // ---- times that make the guard right ----

  ghost predicate Increasing(rs: seq<Row>) { forall i, j :: 0 <= i < j < |rs| ==> rs[i].ms < rs[j].ms }

  /** With increasing times the greatest is the last. */
  lemma LatestIsLast(rs: seq<Row>, app: string)
    requires SameApp(rs, app) && Increasing(rs)
    ensures LatestRow(rs, app) == if rs == [] then None else Some(rs[|rs| - 1])
  {
    hide LatestRow;
    var r := LatestRow(rs, app);
    if rs != [] {
      assert rs[|rs| - 1] in rs && r.Some?;
      var i :| 0 <= i < |rs| && rs[i] == r.value;
      assert rs[|rs| - 1].ms <= rs[i].ms;
    }
  }

  lemma {:induction false} IncreasingGuards(xs: seq<Row>, app: string)
    requires SameApp(xs, app) && Increasing(Destutter(xs))
    ensures GuardsRight(xs)
  {
    if xs != [] {
      var init, x := xs[..|xs| - 1], xs[|xs| - 1];
      assert xs == init + [x];
      DestutterMore(init, x);
      DestutterSameApp(init, app);
      GuardsMore(init, x);
      hide Destutter, GuardsRight, GuardRight, Increasing, EndsWith;
      var ds := Destutter(init);
      IncreasingFront(ds, if EndsWith(init, x.version) then [] else [x]);
      IncreasingGuards(init, app);
      IncreasingGuard(ds, x);
    }
  }

  lemma IncreasingFront(rs: seq<Row>, more: seq<Row>)
    requires Increasing(rs + more)
    ensures Increasing(rs)
  {
    forall i, j | 0 <= i < j < |rs| ensures rs[i].ms < rs[j].ms {
      assert (rs + more)[i] == rs[i] && (rs + more)[j] == rs[j];
    }
  }

  lemma IncreasingGuard(ds: seq<Row>, x: Row)
    requires SameApp(ds, x.app) && Increasing(ds)
    ensures GuardRight(ds, x)
  {
    LatestIsLast(ds, x.app);
    hide LatestRow, Increasing;
  }

  /** So it is enough that each change of version carries a later millisecond than the one
      before it; the sightings in between may carry any time. */
  lemma InOrderIsKept(es: seq<Event>, k: Key)
    requires es != [] && !es[|es| - 1].Saw? && |Keys(es)| <= 10_000 && AllWritten(es)
    requires Increasing(Destutter(Seen(es, k)))
    ensures Stored(Run(es), k) == Destutter(Seen(es, k))
  {
    StoredIsDestuttered(es, k);
    MarksDestutter(es, k);
    MarksSameApp(es, k);
    hide Run, Stored, Destutter, Seen, Keys, GuardsRight, Marks;
    IncreasingGuards(Marks(es, k), k.app);
  }

  /** Two versions alternate, and the middle sighting carries an older time: the guard takes
      the first for the latest and the third is not stored. */
  lemma OutOfOrderDropsAMarker(k: Key, v1: string, v2: string, t1: Time, t2: Time, t3: Time, es: seq<Event>)
    requires k.app != "" && v1 != "" && v2 != "" && v1 != v2 && GraphFlush.Millis(t2) < GraphFlush.Millis(t1)
    requires es == [Saw(k.tenant, k.app, v1, t1), Saw(k.tenant, k.app, v2, t2), Saw(k.tenant, k.app, v1, t3), Flush({})]
    ensures Destutter(Seen(es, k)) == [Row(k.app, v1, GraphFlush.Millis(t1)), Row(k.app, v2, GraphFlush.Millis(t2)),
                                       Row(k.app, v1, GraphFlush.Millis(t3))]
    ensures Stored(Run(es), k) == Destutter(Seen(es, k))[..2]
  {
    hide Marks, Destutter, Seen, Stored, Run, PutAll, Keys;
    var a, b, c := Sighted(es[0]), Sighted(es[1]), Sighted(es[2]);
    ThreeSightings(k, v1, v2, t1, t2, t3, es);
    ThreeMarkers(a, b, c);
    FewKeys(es, k);
    AllMarksPut(es, k);
  }

  /** When nothing waits, every marker made has been put in. */
  lemma AllMarksPut(es: seq<Event>, k: Key)
    requires es != [] && !es[|es| - 1].Saw? && |Keys(es)| <= 10_000 && AllWritten(es)
    ensures Stored(Run(es), k) == PutAll([], Marks(es, k))
  {
    hide Marks, Stored, Run, PutAll, Keys, Waiting, Delivered;
    MarksAreMade(es, k);
    StoredIsPut(es, k);
    NothingWaits(es, k);
    assert Delivered(es, k) + [] == Delivered(es, k);
  }

  lemma NothingWaits(es: seq<Event>, k: Key)
    requires es != [] && !es[|es| - 1].Saw?
    ensures Waiting(Run(es), k) == []
  {
    RunStep(es);
    NonePending(k.app);
    hide Run, Flushed;
  }

  lemma ThreeSightings(k: Key, v1: string, v2: string, t1: Time, t2: Time, t3: Time, es: seq<Event>)
    requires k.app != "" && v1 != "" && v2 != "" && v1 != v2
    requires es == [Saw(k.tenant, k.app, v1, t1), Saw(k.tenant, k.app, v2, t2), Saw(k.tenant, k.app, v1, t3), Flush({})]
    ensures var rows := [Sighted(es[0]), Sighted(es[1]), Sighted(es[2])]; Seen(es, k) == rows && Marks(es, k) == rows
  {
    hide Marks, Seen, SeenLately;
    var e0: seq<Event> := [];
    var e1, e2, e3 := e0 + [es[0]], e0 + [es[0]] + [es[1]], e0 + [es[0]] + [es[1]] + [es[2]];
    assert es == e3 + [es[3]];
    MoreEvents(e0, es[0], k);
    MoreEvents(e1, es[1], k);
    MoreEvents(e2, es[2], k);
    MoreEvents(e3, es[3], k);
    NoEvents(k);
    var a, b, c := Sighted(es[0]), Sighted(es[1]), Sighted(es[2]);
    assert [] + [a] == [a] && [a] + [b] == [a, b] && [a, b] + [c] == [a, b, c] && [a, b, c] + [] == [a, b, c];
  }

  lemma NoEvents(k: Key)
    ensures Seen([], k) == [] && Marks([], k) == [] && !SeenLately([], k)
  {
  }

  lemma MoreEvents(es: seq<Event>, e: Event, k: Key)
    ensures Seen(es + [e], k) == Seen(es, k) + if IsSighting(e, k) then [Sighted(e)] else []
    ensures SeenLately(es + [e], k) <==> !e.Restart? && (IsSighting(e, k) || SeenLately(es, k))
    ensures Marks(es + [e], k) == Marks(es, k) + if Marked(es, e, k) then [Sighted(e)] else []
  {
    MoreSeen(es, e, k);
    assert (es + [e])[..|es|] == es;
  }

  lemma {:induction false} FewKeys(es: seq<Event>, k: Key)
    requires forall i :: 0 <= i < |es| && es[i].Saw? ==> es[i].tenant == k.tenant && es[i].app == k.app
    ensures |Keys(es)| <= 1
  {
    KeysAre(es, k);
    SubsetSize(Keys(es), {k});
  }

  lemma {:induction false} KeysAre(es: seq<Event>, k: Key)
    requires forall i :: 0 <= i < |es| && es[i].Saw? ==> es[i].tenant == k.tenant && es[i].app == k.app
    ensures Keys(es) <= {k}
  {
    if es != [] { KeysAre(es[..|es| - 1], k); }
  }

  lemma ThreeMarkers(a: Row, b: Row, c: Row)
    requires a.app == b.app == c.app && a.version == c.version != b.version && b.ms < a.ms
    ensures Destutter([a, b, c]) == [a, b, c] && PutAll([], [a, b, c]) == [a, b]
  {
    hide LatestRow, Destutter, PutAll;
    var none: seq<Row> := [];
    assert none + [a] == [a] && [a] + [b] == [a, b] && [a, b] + [c] == [a, b, c];
    NoMarkers(a.app);
    DestutterMore(none, a);
    DestutterMore([a], b);
    DestutterMore([a, b], c);
    PutMore([], none, a);
    PutMore([], [a], b);
    PutMore([], [a, b], c);
    LatestOfTwo(a, b);
  }

  lemma NoMarkers(app: string)
    ensures Destutter([]) == [] && PutAll([], []) == [] && LatestRow([], app) == None
  {
  }

  lemma LatestOfTwo(a: Row, b: Row)
    requires a.app == b.app && b.ms < a.ms
    ensures LatestRow([a], a.app) == Some(a) && LatestRow([a, b], a.app) == Some(a)
  {
    assert [a][..0] == [] && [a, b][..1] == [a];
  }

  /** A detector that tracks 10,000 applications takes no other; one it tracks it goes on with. */
  lemma FullDetector(st: State, tenant: string, app: string, version: string, ts: Time)
    requires app != "" && version != ""
    ensures var k := Graph.NodeKey(tenant, app);
      Observed(st, tenant, app, version, ts) != st <==>
        if k in st.last then st.last[k] != version else |st.last| < 10_000
  {
    var st' := Observed(st, tenant, app, version, ts);
    if Recorded(st, tenant, app, version) {
      assert st'.last[Graph.NodeKey(tenant, app)] == version;
    }
  }
}
