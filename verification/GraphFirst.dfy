/** The stored first time of a node or an edge, read off the run: the latest of the batch
    it was first stored with. */
module GraphFirst {
  import opened Common
  import opened Model
  import opened Graph
  import opened GraphFlush

  // ---- the events that touch a key ----

  /** For every event, the time it gives the key, if it touches it. */
  type Touches = seq<Option<Time>>

  function NodeTouch(e: Event, nk: NodeKey): Option<Time> {
    if e.Saw? && e.s.app != "" && e.s.tenant == nk.tenant && e.s.app == nk.app then Some(e.s.at) else None
  }

  function NodeTouches(es: seq<Event>, nk: NodeKey): (ts: Touches)
    ensures |ts| == |es| && forall i :: 0 <= i < |es| ==> ts[i] == NodeTouch(es[i], nk)
  {
    seq(|es|, i requires 0 <= i < |es| => NodeTouch(es[i], nk))
  }

  /** `s` joins a group in which the caller of `k` was last. */
  predicate Follows(groups: map<GroupKey, Group>, gk: GroupKey, s: Sighting, k: EdgeKey) {
    gk.id != "" && gk in groups && groups[gk].lastApp == k.src && k.src != ""
    && k.src != s.app && s.app == k.dst && gk.tenant == k.tenant
  }

  predicate NamesPeer(s: Sighting, k: EdgeKey) {
    s.tenant == k.tenant && s.app == k.src && s.peer == k.dst && s.peer != "" && s.peer != s.app
  }

  predicate Touched(groups: map<GroupKey, Group>, s: Sighting, k: EdgeKey) {
    s.app != "" && (Follows(groups, GroupKey(s.tenant, Trace, s.trace), s, k)
                    || Follows(groups, GroupKey(s.tenant, Corr, s.corr), s, k) || NamesPeer(s, k))
  }

  /** The groups as the entries and evictions before leave them: flushes do not show. */
  function EdgeTouch(maxGroups: nat, es: seq<Event>, e: Event, k: EdgeKey): Option<Time> {
    if e.Saw? && Touched(Unflushed(maxGroups, es).groups, e.s, k) then Some(e.s.at) else None
  }

  function EdgeTouches(maxGroups: nat, es: seq<Event>, k: EdgeKey): (ts: Touches)
    ensures |ts| == |es| && forall i :: 0 <= i < |es| ==> ts[i] == EdgeTouch(maxGroups, es[..i], es[i], k)
  {
    seq(|es|, i requires 0 <= i < |es| => EdgeTouch(maxGroups, es[..i], es[i], k))
  }

  // ---- the latest of some times ----

  function Later(d: Option<Time>, t: Time): Option<Time> {
    Some(if d.Some? && d.value >= t then d.value else t)
  }

  /** The latest touch, not counting below the zero time; None when there is no touch. */
  function Latest(ts: Touches): Option<Time> {
    if ts == [] then None
    else
      var d, t := Latest(ts[..|ts| - 1]), ts[|ts| - 1];
      if t.None? then d else Later(Later(d, 0), t.value)
  }

  lemma {:induction false} LatestReads(ts: Touches)
    ensures Latest(ts).Some? <==> exists i :: 0 <= i < |ts| && ts[i].Some?
    ensures Latest(ts).Some? ==> Latest(ts).value >= 0
    ensures forall i :: 0 <= i < |ts| && ts[i].Some? ==> ts[i].value <= Latest(ts).value
    ensures Latest(ts).Some? && Latest(ts).value > 0 ==>
      exists i :: 0 <= i < |ts| && ts[i] == Latest(ts)
  {
    if ts != [] {
      var init := ts[..|ts| - 1];
      LatestReads(init);
      assert ts[|ts| - 1].Some? || forall i :: 0 <= i < |ts| && ts[i].Some? ==> ts[i] == init[i];
      assert forall i :: 0 <= i < |init| ==> ts[i] == init[i];
    }
  }

  lemma LatestMore(ts: Touches, lo: nat, hi: nat)
    requires lo <= hi < |ts|
    ensures Latest(ts[lo..hi + 1]) == if ts[hi].None? then Latest(ts[lo..hi])
      else Later(Later(Latest(ts[lo..hi]), 0), ts[hi].value)
  {
    assert ts[lo..hi + 1][..hi - lo] == ts[lo..hi];
  }

  // ---- batches ----

  /** The events from `from` up to the snapshot at `to`, gathered into one batch. */
  datatype Cut = Cut(from: nat, to: nat)

  /** A snapshot is taken only when no batch is on its way. */
  predicate Taken(maxGroups: nat, es: seq<Event>)
    requires es != []
  {
    es[|es| - 1].Snapshot? && Run(maxGroups, es[..|es| - 1]).flight == NO_BATCH
  }

  /** The events since the last snapshot taken start here. */
  function MemoryFrom(maxGroups: nat, es: seq<Event>): (n: nat)
    ensures n <= |es|
  {
    if es == [] then 0
    else if Taken(maxGroups, es) then |es|
    else MemoryFrom(maxGroups, es[..|es| - 1])
  }

  function InFlight(maxGroups: nat, es: seq<Event>): (c: Cut)
    ensures c.from <= c.to <= |es|
  {
    if es == [] then Cut(0, 0)
    else if Taken(maxGroups, es) then Cut(MemoryFrom(maxGroups, es[..|es| - 1]), |es| - 1)
    else if es[|es| - 1].Commit? then Cut(|es|, |es|)
    else InFlight(maxGroups, es[..|es| - 1])
  }

  /** The batch with which the key that `ts` belongs to was first committed. */
  function FirstCut(maxGroups: nat, es: seq<Event>, ts: Touches): (c: Option<Cut>)
    requires |ts| == |es|
    ensures c.Some? ==> c.value.from <= c.value.to <= |es|
  {
    if es == [] then None
    else
      var n := |es| - 1;
      var c, batch := FirstCut(maxGroups, es[..n], ts[..n]), InFlight(maxGroups, es[..n]);
      if c.Some? then c
      else if es[n] == Commit(true) && Latest(ts[batch.from..batch.to]).Some? then Some(batch)
      else None
  }

  // ---- the maps hold the latest touches ----

  function Dated<K>(m: map<K, Agg>, k: K): Option<Time> { if k in m then Some(m[k].lastSeen) else None }

  /** One key in memory, in flight and stored, against the events that touched it. */
  ghost predicate Dates<K>(mem: map<K, Agg>, flight: map<K, Agg>, table: map<K, Row>, k: K,
                           maxGroups: nat, es: seq<Event>, ts: Touches)
    requires |ts| == |es|
  {
    var c, first := InFlight(maxGroups, es), FirstCut(maxGroups, es, ts);
    && Dated(mem, k) == Latest(ts[MemoryFrom(maxGroups, es)..])
    && Dated(flight, k) == Latest(ts[c.from..c.to])
    && (k in table <==> first.Some?)
    && (first.Some? ==>
        var latest := Latest(ts[first.value.from..first.value.to]);
        latest.Some? && table[k].first == Millis(latest.value))
  }

  lemma SnapshotDates<K>(mem: map<K, Agg>, flight: map<K, Agg>, table: map<K, Row>, k: K,
                         maxGroups: nat, es: seq<Event>, ts: Touches)
    requires |ts| == |es| != 0 && Taken(maxGroups, es)
    requires Dates(mem, flight, table, k, maxGroups, es[..|es| - 1], ts[..|es| - 1])
    ensures Dates(map[], mem, table, k, maxGroups, es, ts)
  {
    hide Run, Latest, FirstCut, MemoryFrom;
    var n := |es| - 1;
    var from := MemoryFrom(maxGroups, es[..n]);
    assert ts[..n][from..] == ts[from..n];
    MemoryAfter(maxGroups, es);
    NoTouch(ts[n + 1..]);
    SameFirst(maxGroups, es, ts);
    var c := FirstCut(maxGroups, es, ts);
    if c.Some? { EarlierSlice(ts, c.value); }
  }

  lemma MemoryAfter(maxGroups: nat, es: seq<Event>)
    requires es != [] && Taken(maxGroups, es)
    ensures MemoryFrom(maxGroups, es) == |es|
  {
  }

  lemma EarlierSlice(ts: Touches, c: Cut)
    requires c.from <= c.to < |ts|
    ensures ts[..|ts| - 1][c.from..c.to] == ts[c.from..c.to]
  {
  }

  /** What was first stays first. */
  lemma SameFirst(maxGroups: nat, es: seq<Event>, ts: Touches)
    requires |ts| == |es| != 0
    ensures var n := |es| - 1;
      var c := FirstCut(maxGroups, es[..n], ts[..n]);
      c.Some? || es[n] != Commit(true) ==> FirstCut(maxGroups, es, ts) == c
  {
    hide Latest, InFlight, Run;
  }

  lemma CommitDates<K>(mem: map<K, Agg>, flight: map<K, Agg>, table: map<K, Row>, k: K,
                       maxGroups: nat, es: seq<Event>, ts: Touches)
    requires |ts| == |es| != 0 && es[|es| - 1].Commit? && ts[|es| - 1].None?
    requires Dates(mem, flight, table, k, maxGroups, es[..|es| - 1], ts[..|es| - 1])
    ensures Dates(mem, map[], if es[|es| - 1].ok then Merged(table, flight) else table, k, maxGroups, es, ts)
  {
    var n := |es| - 1;
    hide Run, Latest, MemoryFrom;
    MemoryMore(maxGroups, es, ts);
    SameFirst(maxGroups, es, ts);
    EarlierSlice(ts, InFlight(maxGroups, es[..n]));
    var c := FirstCut(maxGroups, es[..n], ts[..n]);
    if c.Some? { EarlierSlice(ts, c.value); }
    NoTouch(ts[n + 1..n + 1]);
  }

  lemma NoTouch(ts: Touches)
    ensures ts == [] ==> Latest(ts) == None
  {
  }

  /** An event other than a snapshot taken adds its touch to what is in memory. */
  lemma MemoryMore(maxGroups: nat, es: seq<Event>, ts: Touches)
    requires |ts| == |es| != 0 && !Taken(maxGroups, es)
    ensures var n, from := |es| - 1, MemoryFrom(maxGroups, es);
      && from == MemoryFrom(maxGroups, es[..n]) && from <= n
      && Latest(ts[from..]) == if ts[n].None? then Latest(ts[..n][from..])
         else Later(Later(Latest(ts[..n][from..]), 0), ts[n].value)
  {
    hide Run, Latest, Taken;
    var n, from := |es| - 1, MemoryFrom(maxGroups, es);
    assert from == MemoryFrom(maxGroups, es[..n]);
    LatestMore(ts, from, n);
    assert ts[from..n + 1] == ts[from..] && ts[..n][from..] == ts[from..n];
  }

  /** Any other event changes the maps in memory at most. */
  lemma OtherDates<K>(mem: map<K, Agg>, flight: map<K, Agg>, table: map<K, Row>, k: K,
                      maxGroups: nat, es: seq<Event>, ts: Touches, mem': map<K, Agg>)
    requires |ts| == |es| != 0 && !Taken(maxGroups, es) && !es[|es| - 1].Commit?
    requires Dates(mem, flight, table, k, maxGroups, es[..|es| - 1], ts[..|es| - 1])
    requires Dated(mem', k) == if ts[|es| - 1].None? then Dated(mem, k)
      else Later(Later(Dated(mem, k), 0), ts[|es| - 1].value)
    ensures Dates(mem', flight, table, k, maxGroups, es, ts)
  {
    var n := |es| - 1;
    MemoryMore(maxGroups, es, ts);
    SameFirst(maxGroups, es, ts);
    hide Run, Latest, MemoryFrom, Taken, FirstCut;
    assert InFlight(maxGroups, es) == InFlight(maxGroups, es[..n]);
    EarlierSlice(ts, InFlight(maxGroups, es[..n]));
    var c := FirstCut(maxGroups, es[..n], ts[..n]);
    if c.Some? { EarlierSlice(ts, c.value); }
  }

  // ---- one entry ----

  lemma BumpDated<K>(m: map<K, Agg>, x: K, origin: Origin, isErr: bool, at: Time, k: K)
    requires Grown(m)
    ensures Dated(Bump(m, x, origin, isErr, at), k) == if x == k then Later(Later(Dated(m, k), 0), at) else Dated(m, k)
    ensures Grown(Bump(m, x, origin, isErr, at))
  {
  }

  lemma LinkDated(maxGroups: nat, st: State, kind: Kind, id: string, s: Sighting, origin: Origin, k: EdgeKey)
    requires Grown(st.edges) && s.app != ""
    ensures var gk, st' := GroupKey(s.tenant, kind, id), LinkedById(maxGroups, st, kind, id, s, origin);
      && Dated(st'.edges, k)
         == (if Follows(st.groups, gk, s, k) then Later(Later(Dated(st.edges, k), 0), s.at) else Dated(st.edges, k))
      && Grown(st'.edges)
      && (forall x :: x != gk ==> (x in st'.groups <==> x in st.groups))
      && (forall x :: x != gk && x in st.groups ==> st'.groups[x] == st.groups[x])
  {
    hide Bump, Grown, Dated, Later;
    var gk := GroupKey(s.tenant, kind, id);
    var last := if gk in st.groups then st.groups[gk].lastApp else "";
    BumpDated(st.edges, EdgeKey(s.tenant, last, s.app), origin, s.isErr, s.at, k);
  }

  /** Two signals of one entry give the edge one time. */
  lemma LaterTwice(d: Option<Time>, t: Time)
    ensures Later(Later(Later(Later(d, 0), t), 0), t) == Later(Later(d, 0), t)
  {
  }

  lemma NoticedEdge(maxGroups: nat, st: State, s: Sighting, k: EdgeKey)
    requires Grown(st.edges)
    ensures Dated(Noticed(maxGroups, st, s).edges, k)
         == if Touched(st.groups, s, k) then Later(Later(Dated(st.edges, k), 0), s.at) else Dated(st.edges, k)
  {
    hide Bump, Grown, Dated, Later, LinkedById;
    if s.app != "" {
      var st1 := st.(nodes := Bump(st.nodes, NodeKey(s.tenant, s.app), NO_ORIGIN, s.isErr, s.at));
      var st2 := LinkedById(maxGroups, st1, Trace, s.trace, s, BY_TRACE);
      var st3 := LinkedById(maxGroups, st2, Corr, s.corr, s, BY_FIELD);
      LinkDated(maxGroups, st1, Trace, s.trace, s, BY_TRACE, k);
      LinkDated(maxGroups, st2, Corr, s.corr, s, BY_FIELD, k);
      BumpDated(st3.edges, EdgeKey(s.tenant, s.app, s.peer), BY_FIELD, s.isErr, s.at, k);
      LaterTwice(Dated(st.edges, k), s.at);
      assert Follows(st2.groups, GroupKey(s.tenant, Corr, s.corr), s, k)
          == Follows(st.groups, GroupKey(s.tenant, Corr, s.corr), s, k);
    }
  }

  lemma NoticedNode(maxGroups: nat, st: State, s: Sighting, nk: NodeKey)
    requires Grown(st.nodes)
    ensures var t := NodeTouch(Saw(s), nk);
      Dated(Noticed(maxGroups, st, s).nodes, nk)
      == if t.None? then Dated(st.nodes, nk) else Later(Later(Dated(st.nodes, nk), 0), t.value)
  {
    hide Bump, Grown, Dated, Later, LinkedById;
    if s.app != "" {
      var st1 := st.(nodes := Bump(st.nodes, NodeKey(s.tenant, s.app), NO_ORIGIN, s.isErr, s.at));
      BumpDated(st.nodes, NodeKey(s.tenant, s.app), NO_ORIGIN, s.isErr, s.at, nk);
      LinksKeepNodes(maxGroups, st1, Trace, s.trace, s, BY_TRACE);
      LinksKeepNodes(maxGroups, LinkedById(maxGroups, st1, Trace, s.trace, s, BY_TRACE), Corr, s.corr, s, BY_FIELD);
    }
  }

  // ---- whole runs ----

  lemma {:induction false} RunDatesNode(maxGroups: nat, es: seq<Event>, nk: NodeKey)
    ensures var y := Run(maxGroups, es);
      Dates(y.x.nodes, y.flight.nodes, y.nodes, nk, maxGroups, es, NodeTouches(es, nk))
  {
    hide Noticed, Merged, Latest;
    var ts := NodeTouches(es, nk);
    if es == [] {
      NoTouch([]);
    } else {
      var n, e := |es| - 1, es[|es| - 1];
      var init, y := es[..n], Run(maxGroups, es[..n]);
      assert ts[..n] == NodeTouches(init, nk);
      RunDatesNode(maxGroups, init, nk);
      FlushesDoNotShow(maxGroups, init);
      hide Dates, Dated, Accounts, Later, NodeTouches;
      GrownNow(maxGroups, init);
      if Taken(maxGroups, es) {
        SnapshotDates(y.x.nodes, y.flight.nodes, y.nodes, nk, maxGroups, es, ts);
      } else if e.Commit? {
        CommitDates(y.x.nodes, y.flight.nodes, y.nodes, nk, maxGroups, es, ts);
      } else {
        if e.Saw? { NoticedNode(maxGroups, y.x, e.s, nk); }
        OtherDates(y.x.nodes, y.flight.nodes, y.nodes, nk, maxGroups, es, ts, Run(maxGroups, es).x.nodes);
      }
    }
  }

  lemma GrownNow(maxGroups: nat, es: seq<Event>)
    ensures Grown(Run(maxGroups, es).x.nodes) && Grown(Run(maxGroups, es).x.edges)
    ensures Run(maxGroups, es).x.groups == Unflushed(maxGroups, es).groups
  {
    FlushesDoNotShow(maxGroups, es);
    hide Run, Unflushed;
  }

  lemma {:induction false} RunDatesEdge(maxGroups: nat, es: seq<Event>, k: EdgeKey)
    ensures var y := Run(maxGroups, es);
      Dates(y.x.edges, y.flight.edges, y.edges, k, maxGroups, es, EdgeTouches(maxGroups, es, k))
  {
    hide Noticed, Merged, Latest;
    var ts := EdgeTouches(maxGroups, es, k);
    if es == [] {
      NoTouch([]);
    } else {
      var n, e := |es| - 1, es[|es| - 1];
      var init, y := es[..n], Run(maxGroups, es[..n]);
      SameTouches(maxGroups, es, k);
      RunDatesEdge(maxGroups, init, k);
      hide Dates, Dated, Accounts, Later, EdgeTouches, Touched, Unflushed;
      GrownNow(maxGroups, init);
      if Taken(maxGroups, es) {
        SnapshotDates(y.x.edges, y.flight.edges, y.edges, k, maxGroups, es, ts);
      } else if e.Commit? {
        CommitDates(y.x.edges, y.flight.edges, y.edges, k, maxGroups, es, ts);
      } else {
        if e.Saw? { NoticedEdge(maxGroups, y.x, e.s, k); }
        OtherDates(y.x.edges, y.flight.edges, y.edges, k, maxGroups, es, ts, Run(maxGroups, es).x.edges);
      }
    }
  }

  lemma SameTouches(maxGroups: nat, es: seq<Event>, k: EdgeKey)
    requires es != []
    ensures EdgeTouches(maxGroups, es, k)[..|es| - 1] == EdgeTouches(maxGroups, es[..|es| - 1], k)
  {
    hide EdgeTouch;
    forall i | 0 <= i < |es| - 1
      ensures EdgeTouches(maxGroups, es, k)[i] == EdgeTouches(maxGroups, es[..|es| - 1], k)[i]
    {
      assert es[..|es| - 1][..i] == es[..i];
    }
  }

  // ---- what a cut is ----

  ghost predicate NoCommit(es: seq<Event>, i: nat, j: nat) {
    forall l :: i < l < j && l < |es| ==> !es[l].Commit?
  }

  /** The snapshot at `to` was taken, of all events since `from`, where the one before it
      was taken or the run started. */
  ghost predicate IsCut(maxGroups: nat, es: seq<Event>, c: Cut) {
    c.from <= c.to < |es| && Taken(maxGroups, es[..c.to + 1]) && MemoryFrom(maxGroups, es[..c.to]) == c.from
  }

  /** And the first transaction after it stored the batch. */
  ghost predicate StoredAt(maxGroups: nat, es: seq<Event>, c: Cut, j: nat) {
    IsCut(maxGroups, es, c) && c.to < j < |es| && es[j] == Commit(true) && NoCommit(es, c.to, j)
  }

  lemma IsCutLater(maxGroups: nat, es: seq<Event>, c: Cut)
    requires es != [] && IsCut(maxGroups, es[..|es| - 1], c)
    ensures IsCut(maxGroups, es, c)
  {
    hide Taken, MemoryFrom;
    var init := es[..|es| - 1];
    assert init[..c.to + 1] == es[..c.to + 1] && init[..c.to] == es[..c.to];
  }

  lemma {:induction false} InFlightReads(maxGroups: nat, es: seq<Event>)
    ensures var c := InFlight(maxGroups, es);
      c.from < c.to ==> IsCut(maxGroups, es, c) && NoCommit(es, c.to, |es|)
  {
    if es != [] {
      var n := |es| - 1;
      InFlightReads(maxGroups, es[..n]);
      hide Taken, MemoryFrom, IsCut, NoCommit;
      var c := InFlight(maxGroups, es);
      if c.from < c.to {
        if Taken(maxGroups, es) {
          CutNow(maxGroups, es);
          NoneAfterEnd(es);
        } else {
          IsCutLater(maxGroups, es, c);
          NoCommitMore(es, c.to);
        }
      }
    }
  }

  lemma NoneAfterEnd(es: seq<Event>)
    requires es != []
    ensures NoCommit(es, |es| - 1, |es|)
  {
  }

  lemma NoCommitMore(es: seq<Event>, i: nat)
    requires es != [] && NoCommit(es[..|es| - 1], i, |es| - 1) && !es[|es| - 1].Commit?
    ensures NoCommit(es, i, |es|)
  {
    forall l | i < l < |es| - 1 ensures !es[l].Commit? {
      assert es[l] == es[..|es| - 1][l];
    }
  }

  lemma CutNow(maxGroups: nat, es: seq<Event>)
    requires es != [] && Taken(maxGroups, es)
    ensures IsCut(maxGroups, es, Cut(MemoryFrom(maxGroups, es[..|es| - 1]), |es| - 1))
  {
    hide Taken;
    assert es[..|es| - 1 + 1] == es;
  }

  lemma {:induction false} FirstCutReads(maxGroups: nat, es: seq<Event>, ts: Touches)
    requires |ts| == |es|
    ensures var c := FirstCut(maxGroups, es, ts);
      c.Some? ==> (exists j :: StoredAt(maxGroups, es, c.value, j)) && Latest(ts[c.value.from..c.value.to]).Some?
  {
    if es != [] {
      var n := |es| - 1;
      FirstCutReads(maxGroups, es[..n], ts[..n]);
      InFlightReads(maxGroups, es[..n]);
      SameFirst(maxGroups, es, ts);
      CutFound(maxGroups, es, ts);
      hide Run, InFlight, IsCut, FirstCut, StoredAt, Latest;
      var c, d := FirstCut(maxGroups, es[..n], ts[..n]), FirstCut(maxGroups, es, ts);
      if c.Some? {
        var j :| StoredAt(maxGroups, es[..n], c.value, j);
        EarlierSlice(ts, c.value);
        StoredLater(maxGroups, es, c.value, j);
      } else if d.Some? {
        EarlierSlice(ts, d.value);
        LatestReads(ts[d.value.from..d.value.to]);
        StoredNow(maxGroups, es, d.value);
      }
    }
  }

  /** A cut is found by the commit of the batch on its way. */
  lemma CutFound(maxGroups: nat, es: seq<Event>, ts: Touches)
    requires |ts| == |es| != 0
    ensures var n := |es| - 1;
      var d := FirstCut(maxGroups, es, ts);
      FirstCut(maxGroups, es[..n], ts[..n]).None? && d.Some? ==>
        d.value == InFlight(maxGroups, es[..n]) && es[n] == Commit(true) && Latest(ts[d.value.from..d.value.to]).Some?
  {
    hide Latest, InFlight;
  }

  lemma StoredLater(maxGroups: nat, es: seq<Event>, c: Cut, j: nat)
    requires es != [] && StoredAt(maxGroups, es[..|es| - 1], c, j)
    ensures StoredAt(maxGroups, es, c, j)
  {
    IsCutLater(maxGroups, es, c);
    hide IsCut;
  }

  lemma StoredNow(maxGroups: nat, es: seq<Event>, c: Cut)
    requires es != [] && es[|es| - 1] == Commit(true) && c == InFlight(maxGroups, es[..|es| - 1]) && c.from < c.to
    ensures StoredAt(maxGroups, es, c, |es| - 1)
  {
    InFlightReads(maxGroups, es[..|es| - 1]);
    IsCutLater(maxGroups, es, c);
    hide InFlight, MemoryFrom, Taken;
  }

  /** For every run, failed transactions included: a node is stored exactly when some batch
      with its entries was committed, and its first time is that of the latest entry of the
      first such batch. */
  lemma FirstTimeOfNode(maxGroups: nat, es: seq<Event>, nk: NodeKey)
    ensures var t, ts := Run(maxGroups, es).nodes, NodeTouches(es, nk);
      var c := FirstCut(maxGroups, es, ts);
      && (nk in t <==> c.Some?)
      && (nk in t ==>
          var latest := Latest(ts[c.value.from..c.value.to]);
          && latest.Some? && t[nk].first == Millis(latest.value)
          && exists j :: StoredAt(maxGroups, es, c.value, j))
  {
    RunDatesNode(maxGroups, es, nk);
    FirstCutReads(maxGroups, es, NodeTouches(es, nk));
    hide Run, FirstCut, StoredAt, Latest, NodeTouches;
  }

  /** The same for an edge and the entries that show it. */
  lemma FirstTimeOfEdge(maxGroups: nat, es: seq<Event>, k: EdgeKey)
    ensures var t, ts := Run(maxGroups, es).edges, EdgeTouches(maxGroups, es, k);
      var c := FirstCut(maxGroups, es, ts);
      && (k in t <==> c.Some?)
      && (k in t ==>
          var latest := Latest(ts[c.value.from..c.value.to]);
          && latest.Some? && t[k].first == Millis(latest.value)
          && exists j :: StoredAt(maxGroups, es, c.value, j))
  {
    RunDatesEdge(maxGroups, es, k);
    FirstCutReads(maxGroups, es, EdgeTouches(maxGroups, es, k));
    hide Run, FirstCut, StoredAt, Latest, EdgeTouches;
  }

  // ---- exactly when it is the time of the first entry ----

  /** While no batch is on its way, the last one held no touch. */
  ghost predicate Honest(maxGroups: nat, es: seq<Event>, ts: Touches)
    requires |ts| == |es|
  {
    forall n :: 0 <= n <= |es| && Run(maxGroups, es[..n]).flight == NO_BATCH ==>
      Latest(FlightTouches(maxGroups, es[..n], ts[..n])) == None
  }

  function FlightTouches(maxGroups: nat, es: seq<Event>, ts: Touches): Touches
    requires |ts| == |es|
  {
    var c := InFlight(maxGroups, es);
    ts[c.from..c.to]
  }

  predicate InCut(c: Cut, i: int) { c.from <= i < c.to }

  /** With no failed transaction no touch comes before the first batch stored; until then
      every touch is on its way or in memory. */
  ghost predicate NoneBefore(maxGroups: nat, es: seq<Event>, ts: Touches)
    requires |ts| == |es|
  {
    var c, first, from := InFlight(maxGroups, es), FirstCut(maxGroups, es, ts), MemoryFrom(maxGroups, es);
    && (c.from < c.to ==> c.to <= from)
    && (first.Some? ==> forall i :: 0 <= i < first.value.from ==> ts[i].None?)
    && (first.None? ==> forall i :: 0 <= i < |ts| && ts[i].Some? ==> InCut(c, i) || from <= i)
  }

  lemma {:induction false} NothingBefore(maxGroups: nat, es: seq<Event>, ts: Touches)
    requires |ts| == |es| && AllCommit(es) && Honest(maxGroups, es, ts)
    requires forall i :: 0 <= i < |es| && !es[i].Saw? ==> ts[i].None?
    ensures NoneBefore(maxGroups, es, ts)
  {
    if es != [] {
      var n := |es| - 1;
      var init, us := es[..n], ts[..n];
      HonestBefore(maxGroups, es, ts);
      NothingBefore(maxGroups, init, us);
      hide Run, Latest, NoneBefore;
      if Taken(maxGroups, es) {
        assert init == es[..n] && us == ts[..n];
        NoneAfterSnapshot(maxGroups, es, ts);
      } else {
        NoneAfterOther(maxGroups, es, ts);
      }
    }
  }

  lemma HonestBefore(maxGroups: nat, es: seq<Event>, ts: Touches)
    requires |ts| == |es| != 0 && Honest(maxGroups, es, ts)
    ensures Honest(maxGroups, es[..|es| - 1], ts[..|es| - 1])
  {
    hide Run, Latest, FlightTouches;
    var init, us := es[..|es| - 1], ts[..|es| - 1];
    forall n | 0 <= n <= |init| ensures init[..n] == es[..n] && us[..n] == ts[..n] {}
  }

  lemma NoneAfterSnapshot(maxGroups: nat, es: seq<Event>, ts: Touches)
    requires |ts| == |es| != 0 && Taken(maxGroups, es) && Honest(maxGroups, es, ts) && ts[|es| - 1].None?
    requires NoneBefore(maxGroups, es[..|es| - 1], ts[..|es| - 1])
    ensures NoneBefore(maxGroups, es, ts)
  {
    hide Run, Latest;
    var n := |es| - 1;
    var c := InFlight(maxGroups, es[..n]);
    assert Latest(ts[..n][c.from..c.to]) == None by {
      assert FlightTouches(maxGroups, es[..n], ts[..n]) == ts[..n][c.from..c.to];
    }
    LatestReads(ts[..n][c.from..c.to]);
    forall i | InCut(c, i) ensures ts[i].None? { assert ts[..n][c.from..c.to][i - c.from] == ts[i]; }
    SameFirst(maxGroups, es, ts);
    hide FirstCut, MemoryFrom;
    MemoryAfter(maxGroups, es);
    assert forall i :: 0 <= i < n ==> ts[..n][i] == ts[i];
  }

  lemma NoneAfterOther(maxGroups: nat, es: seq<Event>, ts: Touches)
    requires |ts| == |es| != 0 && !Taken(maxGroups, es) && (es[|es| - 1].Commit? ==> es[|es| - 1].ok)
    requires NoneBefore(maxGroups, es[..|es| - 1], ts[..|es| - 1])
    ensures NoneBefore(maxGroups, es, ts)
  {
    hide Run, Latest;
    var n := |es| - 1;
    var c := InFlight(maxGroups, es[..n]);
    EarlierSlice(ts, c);
    LatestReads(ts[c.from..c.to]);
    SameFirst(maxGroups, es, ts);
    assert forall i :: 0 <= i < n ==> ts[..n][i] == ts[i];
    if FirstCut(maxGroups, es, ts).None? {
      forall i | InCut(c, i) && es[n].Commit? ensures ts[i].None? { assert ts[c.from..c.to][i - c.from] == ts[i]; }
    }
    hide FirstCut;
  }

  /** `t` is the time of the first touch, at `i`. */
  ghost predicate FirstTouch(ts: Touches, i: nat, t: Time) {
    i < |ts| && ts[i] == Some(t) && forall j :: 0 <= j < i ==> ts[j].None?
  }

  /** No touch before position `n` is at a later millisecond than `t`, nor is the zero time. */
  ghost predicate NoneLater(ts: Touches, n: nat, t: Time) {
    Millis(0) <= Millis(t) && forall i :: 0 <= i < n && i < |ts| && ts[i].Some? ==> Millis(ts[i].value) <= Millis(t)
  }

  lemma LatestIsFirst(ts: Touches, c: Cut, i: nat, t: Time)
    requires c.from <= c.to <= |ts| && FirstTouch(ts, i, t) && Latest(ts[c.from..c.to]).Some?
    requires forall j :: 0 <= j < c.from ==> ts[j].None?
    ensures Millis(Latest(ts[c.from..c.to]).value) == Millis(t) <==> NoneLater(ts, c.to, t)
  {
    var us := ts[c.from..c.to];
    LatestReads(us);
    hide Latest, Millis;
    var l := Latest(us).value;
    var x :| 0 <= x < |us| && us[x].Some?;
    assert us[x] == ts[c.from + x] && i <= c.from + x;
    assert us[i - c.from] == ts[i];
    MillisMonotone(t, l);
    MillisMonotone(0, l);
    forall j | 0 <= j < c.to && ts[j].Some? ensures Millis(ts[j].value) <= Millis(l) {
      assert us[j - c.from] == ts[j];
      MillisMonotone(ts[j].value, l);
    }
    if l > 0 {
      var y :| 0 <= y < |us| && us[y] == Some(l);
      assert ts[c.from + y] == Some(l);
    }
  }

  lemma {:induction false} HonestNode(maxGroups: nat, es: seq<Event>, nk: NodeKey)
    ensures Honest(maxGroups, es, NodeTouches(es, nk))
  {
    hide Run, Latest;
    var ts := NodeTouches(es, nk);
    forall n | 0 <= n <= |es| && Run(maxGroups, es[..n]).flight == NO_BATCH
      ensures Latest(FlightTouches(maxGroups, es[..n], ts[..n])) == None
    {
      assert ts[..n] == NodeTouches(es[..n], nk);
      RunDatesNode(maxGroups, es[..n], nk);
    }
  }

  lemma {:induction false} HonestEdge(maxGroups: nat, es: seq<Event>, k: EdgeKey)
    ensures Honest(maxGroups, es, EdgeTouches(maxGroups, es, k))
  {
    hide Run, Latest, EdgeTouch;
    var ts := EdgeTouches(maxGroups, es, k);
    forall n | 0 <= n <= |es| && Run(maxGroups, es[..n]).flight == NO_BATCH
      ensures Latest(FlightTouches(maxGroups, es[..n], ts[..n])) == None
    {
      forall i | 0 <= i < n ensures ts[i] == EdgeTouches(maxGroups, es[..n], k)[i] { assert es[..n][..i] == es[..i]; }
      assert ts[..n] == EdgeTouches(maxGroups, es[..n], k);
      RunDatesEdge(maxGroups, es[..n], k);
    }
  }

  /** If no transaction failed: the stored first time of a node is that of its first entry,
      at `i`, if and only if no entry of it with a later millisecond precedes the snapshot
      with which it was first stored. */
  lemma FirstSeenOfNode(maxGroups: nat, es: seq<Event>, nk: NodeKey, i: nat, t: Time)
    requires AllCommit(es) && FirstTouch(NodeTouches(es, nk), i, t) && nk in Run(maxGroups, es).nodes
    ensures var ts := NodeTouches(es, nk);
      var c := FirstCut(maxGroups, es, ts);
      && c.Some? && (exists j :: StoredAt(maxGroups, es, c.value, j))
      && (Run(maxGroups, es).nodes[nk].first == Millis(t) <==> NoneLater(ts, c.value.to, t))
  {
    var ts := NodeTouches(es, nk);
    FirstTimeOfNode(maxGroups, es, nk);
    HonestNode(maxGroups, es, nk);
    hide Run, Latest, FirstCut, Honest, NodeTouches, StoredAt, FirstTouch, NoneLater;
    NothingBefore(maxGroups, es, ts);
    LatestIsFirst(ts, FirstCut(maxGroups, es, ts).value, i, t);
  }

  /** The same for an edge and the first entry that shows it. */
  lemma FirstSeenOfEdge(maxGroups: nat, es: seq<Event>, k: EdgeKey, i: nat, t: Time)
    requires AllCommit(es) && FirstTouch(EdgeTouches(maxGroups, es, k), i, t) && k in Run(maxGroups, es).edges
    ensures var ts := EdgeTouches(maxGroups, es, k);
      var c := FirstCut(maxGroups, es, ts);
      && c.Some? && (exists j :: StoredAt(maxGroups, es, c.value, j))
      && (Run(maxGroups, es).edges[k].first == Millis(t) <==> NoneLater(ts, c.value.to, t))
  {
    var ts := EdgeTouches(maxGroups, es, k);
    FirstTimeOfEdge(maxGroups, es, k);
    HonestEdge(maxGroups, es, k);
    hide Run, Latest, FirstCut, Honest, EdgeTouches, StoredAt, FirstTouch, NoneLater, Unflushed;
    NothingBefore(maxGroups, es, ts);
    LatestIsFirst(ts, FirstCut(maxGroups, es, ts).value, i, t);
  }
}
