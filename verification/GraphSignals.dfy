/** What the marks and the last time of an edge, and the counters of a node, say about a
    run. */
module GraphSignals {
  import opened Common
  import opened Model
  import opened Graph
  import opened GraphCounts
  import opened GraphFlush
  import opened GraphEvents

  predicate Enters(e: Event) { e.Saw? && e.s.app != "" }

  /** Event `i` is an entry that follows `k.src` in a trace which still remembers it. */
  predicate ByTrace(es: seq<Event>, i: nat, k: EdgeKey)
    requires i < |es|
  {
    Enters(es[i]) && FollowsKept(es[..i], es[i].s, Trace, k)
  }

  /** Event `i` is an entry that follows `k.src` under a correlation id, or names `k.dst`. */
  predicate ByField(es: seq<Event>, i: nat, k: EdgeKey)
    requires i < |es|
  {
    Enters(es[i]) && (FollowsKept(es[..i], es[i].s, Corr, k) || Names(es[i].s, k))
  }

  predicate Shows(es: seq<Event>, i: nat, k: EdgeKey)
    requires i < |es|
  {
    ByTrace(es, i, k) || ByField(es, i, k)
  }

  // ---- one signal after the other ----

  function Got(edges: map<EdgeKey, Agg>, k: EdgeKey): Agg { if k in edges then edges[k] else ZERO }

  function Add(a: Agg, hit: bool, origin: Origin, s: Sighting): Agg {
    if !hit then a
    else Agg(Both(a.origin, origin), a.count + 1, a.errors + (if s.isErr then 1 else 0),
             if s.at > a.lastSeen then s.at else a.lastSeen)
  }

  /** The signals of one entry, `s`, after `es`. */
  function Step(a: Agg, es: seq<Event>, s: Sighting, k: EdgeKey): Agg {
    var a1 := Add(a, FollowsKept(es, s, Trace, k), BY_TRACE, s);
    var a2 := Add(a1, FollowsKept(es, s, Corr, k), BY_FIELD, s);
    Add(a2, Names(s, k), BY_FIELD, s)
  }

  function Tally(es: seq<Event>, k: EdgeKey): Agg {
    if es == [] then ZERO
    else
      var init, e := es[..|es| - 1], es[|es| - 1];
      if Enters(e) then Step(Tally(init, k), init, e.s, k) else Tally(init, k)
  }

  lemma BumpGot(edges: map<EdgeKey, Agg>, x: EdgeKey, origin: Origin, s: Sighting, k: EdgeKey)
    ensures Got(Bump(edges, x, origin, s.isErr, s.at), k) == Add(Got(edges, k), x == k, origin, s)
  {
  }

  lemma LinkGot(maxGroups: nat, es: seq<Event>, st: State, kind: Kind, s: Sighting, k: EdgeKey, origin: Origin)
    requires s.app != "" && k.src != k.dst
    requires var id := if kind == Trace then s.trace else s.corr; id != "" ==>
      HoldsOne(es, st.groups, GroupKey(s.tenant, kind, id))
    ensures var st' := LinkedById(maxGroups, st, kind, if kind == Trace then s.trace else s.corr, s, origin);
      st'.dropped == st.dropped ==> Got(st'.edges, k) == Add(Got(st.edges, k), FollowsKept(es, s, kind, k), origin, s)
  {
    hide Bump, Got, Add, Remembered;
    var id := if kind == Trace then s.trace else s.corr;
    NoHit(Got(st.edges, k), origin, s);
    if id != "" {
      var gk := GroupKey(s.tenant, kind, id);
      RememberedNamed(es, gk);
      var last := if gk in st.groups then st.groups[gk].lastApp else "";
      BumpGot(st.edges, EdgeKey(s.tenant, last, s.app), origin, s, k);
    }
  }

  lemma NoHit(a: Agg, origin: Origin, s: Sighting)
    ensures Add(a, false, origin, s) == a
  {
  }

  /** The two kinds of id, one after the other. */
  lemma LinksGot(maxGroups: nat, es: seq<Event>, st: State, s: Sighting, k: EdgeKey)
    requires s.app != "" && k.src != k.dst && Holds(es, st.groups)
    ensures var st2 := LinkedById(maxGroups, st, Trace, s.trace, s, BY_TRACE);
      var st3 := LinkedById(maxGroups, st2, Corr, s.corr, s, BY_FIELD);
      && st.dropped <= st3.dropped
      && (st3.dropped == st.dropped ==>
          Got(st3.edges, k) == Add(Add(Got(st.edges, k), FollowsKept(es, s, Trace, k), BY_TRACE, s),
                                   FollowsKept(es, s, Corr, k), BY_FIELD, s))
  {
    hide Got, Add, FollowsKept, LinkedById, HoldsOne, Count, Counted;
    var st2 := LinkedById(maxGroups, st, Trace, s.trace, s, BY_TRACE);
    LinkRefuses(maxGroups, st, Trace, s.trace, s, BY_TRACE);
    LinkRefuses(maxGroups, st2, Corr, s.corr, s, BY_FIELD);
    if st2.dropped == st.dropped {
      LinkGot(maxGroups, es, st, Trace, s, k, BY_TRACE);
      LinkKept(maxGroups, es, st, Trace, s, BY_TRACE, k, false);
      if s.corr != "" { SameOne(es, st.groups, st2.groups, GroupKey(s.tenant, Corr, s.corr)); }
      LinkGot(maxGroups, es, st2, Corr, s, k, BY_FIELD);
    }
  }

  lemma NoticedGot(maxGroups: nat, es: seq<Event>, st: State, s: Sighting, k: EdgeKey)
    requires s.app != "" && k.src != k.dst && Holds(es, st.groups)
    requires Noticed(maxGroups, st, s).dropped == st.dropped
    ensures Got(Noticed(maxGroups, st, s).edges, k) == Step(Got(st.edges, k), es, s, k)
  {
    hide Bump, Got, Add, FollowsKept, LinkedById, Holds, Names;
    var st1 := st.(nodes := Bump(st.nodes, NodeKey(s.tenant, s.app), NO_ORIGIN, s.isErr, s.at));
    var st3 := LinkedById(maxGroups, LinkedById(maxGroups, st1, Trace, s.trace, s, BY_TRACE),
      Corr, s.corr, s, BY_FIELD);
    LinksGot(maxGroups, es, st1, s, k);
    BumpGot(st3.edges, EdgeKey(s.tenant, s.app, s.peer), BY_FIELD, s, k);
    NoHit(Got(st3.edges, k), BY_FIELD, s);
    NamesPeer(s, k);
  }

  lemma NamesPeer(s: Sighting, k: EdgeKey)
    requires k.src != k.dst
    ensures Names(s, k) <==> s.peer != "" && s.peer != s.app && EdgeKey(s.tenant, s.app, s.peer) == k
  {
  }

  /** In every run in which no group was refused, evictions included, each edge holds the
      tally of its signals. */
  lemma {:induction false} EdgesAreTallies(maxGroups: nat, es: seq<Event>, k: EdgeKey)
    requires Unflushed(maxGroups, es).dropped == 0 && k.src != k.dst
    ensures Got(Unflushed(maxGroups, es).edges, k) == Tally(es, k)
  {
    hide Noticed, Step, Holds, EventHits, Count;
    if es != [] {
      var init, e := es[..|es| - 1], es[|es| - 1];
      var st := Unflushed(maxGroups, init);
      if Enters(e) {
        DroppedGrows(maxGroups, st, e.s);
        EdgesAreTallies(maxGroups, init, k);
        CountsInEveryRun(maxGroups, init, k, false);
        NoticedGot(maxGroups, init, st, e.s, k);
      } else {
        if e.Saw? { NothingNoticed(maxGroups, st, e.s); }
        EdgesAreTallies(maxGroups, init, k);
      }
    }
  }

  // ---- what a tally says ----

  /** `k.dst` came right after `k.src` in some trace. */
  ghost predicate Traced(es: seq<Event>, k: EdgeKey) { exists i: nat :: i < |es| && ByTrace(es, i, k) }

  /** It did so under some correlation id, or an entry of `k.src` named it. */
  ghost predicate Inferred(es: seq<Event>, k: EdgeKey) { exists i: nat :: i < |es| && ByField(es, i, k) }

  /** Event `i` shows the edge at time `t`. */
  ghost predicate ShowsAt(es: seq<Event>, k: EdgeKey, i: nat, t: Time) {
    i < |es| && Shows(es, i, k) && es[i].s.at == t
  }

  /** `t` is the time of the latest entry that shows the edge; zero when none is later. */
  ghost predicate IsLatest(es: seq<Event>, k: EdgeKey, t: Time) {
    && (forall i: nat, u: Time :: ShowsAt(es, k, i, u) ==> u <= t)
    && (t == 0 || exists i: nat :: ShowsAt(es, k, i, t))
  }

  lemma EarlierSame(es: seq<Event>, i: nat, k: EdgeKey)
    requires i < |es| - 1
    ensures var init := es[..|es| - 1];
      && ByTrace(init, i, k) == ByTrace(es, i, k) && ByField(init, i, k) == ByField(es, i, k)
      && Shows(init, i, k) == Shows(es, i, k)
  {
    hide FollowsKept, Names;
    assert es[..|es| - 1][..i] == es[..i];
  }

  lemma TracedMore(es: seq<Event>, k: EdgeKey)
    requires es != []
    ensures Traced(es, k) <==> Traced(es[..|es| - 1], k) || ByTrace(es, |es| - 1, k)
  {
    hide ByTrace, ByField, Shows;
    var init, n := es[..|es| - 1], |es| - 1;
    if i: nat :| i < n && ByTrace(es, i, k) {
      EarlierSame(es, i, k);
      assert Traced(init, k);
    }
    if i: nat :| i < |init| && ByTrace(init, i, k) { EarlierSame(es, i, k); }
  }

  lemma InferredMore(es: seq<Event>, k: EdgeKey)
    requires es != []
    ensures Inferred(es, k) <==> Inferred(es[..|es| - 1], k) || ByField(es, |es| - 1, k)
  {
    hide ByTrace, ByField, Shows;
    var init, n := es[..|es| - 1], |es| - 1;
    if i: nat :| i < n && ByField(es, i, k) {
      EarlierSame(es, i, k);
      assert Inferred(init, k);
    }
    if i: nat :| i < |init| && ByField(init, i, k) { EarlierSame(es, i, k); }
  }

  lemma LatestMore(es: seq<Event>, k: EdgeKey, t: Time)
    requires es != [] && IsLatest(es[..|es| - 1], k, t)
    ensures var n := |es| - 1;
      IsLatest(es, k, if Shows(es, n, k) && es[n].s.at > t then es[n].s.at else t)
  {
    var init, n := es[..|es| - 1], |es| - 1;
    var u := if Shows(es, n, k) && es[n].s.at > t then es[n].s.at else t;
    hide Shows, ByTrace, ByField;
    forall i: nat, v: Time | ShowsAt(es, k, i, v) ensures v <= u {
      if i < n {
        EarlierSame(es, i, k);
        assert ShowsAt(init, k, i, v);
      }
    }
    if u != t {
      assert ShowsAt(es, k, n, u);
    } else if t != 0 {
      var i: nat :| ShowsAt(init, k, i, t);
      EarlierSame(es, i, k);
      assert ShowsAt(es, k, i, t);
    }
  }

  lemma StepReads(a: Agg, es: seq<Event>, k: EdgeKey)
    requires es != []
    ensures var n := |es| - 1;
      var b := if Enters(es[n]) then Step(a, es[..n], es[n].s, k) else a;
      && b.origin.trace == (a.origin.trace || ByTrace(es, n, k))
      && b.origin.inferred == (a.origin.inferred || ByField(es, n, k))
      && b.lastSeen == if Shows(es, n, k) && es[n].s.at > a.lastSeen then es[n].s.at else a.lastSeen
  {
    hide FollowsKept, Names;
  }

  /** The trace mark is set exactly when the edge was seen in a trace, the other mark when it
      was seen by correlation id or named, and the last time is the latest of all these. */
  lemma {:induction false} TallyReads(es: seq<Event>, k: EdgeKey)
    ensures var a := Tally(es, k);
      && (a.origin.trace <==> Traced(es, k)) && (a.origin.inferred <==> Inferred(es, k))
      && IsLatest(es, k, a.lastSeen)
  {
    if es != [] {
      hide Step, Traced, Inferred, IsLatest, ByTrace, ByField, Shows;
      var init := es[..|es| - 1];
      TallyReads(init, k);
      TracedMore(es, k);
      InferredMore(es, k);
      LatestMore(es, k, Tally(init, k).lastSeen);
      StepReads(Tally(init, k), es, k);
    }
  }

  /** After Close the stored marks and last time of an edge are those of the whole run. */
  lemma StoredSignals(maxGroups: nat, es: seq<Event>, k: EdgeKey)
    requires Drained(Run(maxGroups, es)) && Run(maxGroups, es).x.dropped == 0 && k.src != k.dst
    ensures var t := Run(maxGroups, es).edges;
      k in t ==>
      var sum := t[k].sum;
      && (sum.origin.trace <==> Traced(es, k)) && (sum.origin.inferred <==> Inferred(es, k))
      && exists t :: IsLatest(es, k, t) && sum.last == Millis(t)
  {
    StoredIsWholeLog(maxGroups, es);
    FlushesDoNotShow(maxGroups, es);
    EdgesAreTallies(maxGroups, es, k);
    TallyReads(es, k);
    hide Run, Unflushed, Tally, Traced, Inferred, IsLatest;
    var t := Run(maxGroups, es).edges;
    if k in t {
      assert k in RowSums(t);
      assert RowSums(t)[k] == SumsOf(Unflushed(maxGroups, es).edges)[k];
    }
  }

  /** Without evictions nothing is forgotten: an entry follows `k.src` in its group just when
      the member before it in the whole log is one of `k.src`. */
  lemma KeptIsFollowed(es: seq<Event>, s: Sighting, kind: Kind, k: EdgeKey)
    requires NoEviction(es)
    ensures FollowsKept(es, s, kind, k) <==> HitOf(Seen(es), s, kind, k, false) > 0
  {
    RememberedIsLast(es, GroupKey(s.tenant, kind, if kind == Trace then s.trace else s.corr));
    hide Remembered, Members, Seen, NoEviction;
  }

  lemma {:induction false} RememberedIsLast(es: seq<Event>, gk: GroupKey)
    requires NoEviction(es)
    ensures var r, ms := Remembered(es, gk), Members(Seen(es), gk);
      if ms == [] then r == None else r == Some(ms[|ms| - 1])
  {
    if es != [] {
      var init, e := es[..|es| - 1], es[|es| - 1];
      assert NoEviction(init);
      RememberedIsLast(init, gk);
      if Enters(e) { MembersSame(Seen(init), e.s, gk); }
    }
  }

  // ---- nodes ----

  predicate Wrote(s: Sighting, nk: NodeKey) { s.tenant == nk.tenant && s.app == nk.app }

  /** The entries of one application, or its errors. */
  function Written(log: seq<Sighting>, nk: NodeKey, errorsOnly: bool): nat {
    if log == [] then 0
    else
      var s := log[|log| - 1];
      Written(log[..|log| - 1], nk, errorsOnly) + if Wrote(s, nk) && Counted(s, errorsOnly) then 1 else 0
  }

  function NodeCount(nodes: map<NodeKey, Agg>, nk: NodeKey, errorsOnly: bool): nat {
    if nk !in nodes then 0 else if errorsOnly then nodes[nk].errors else nodes[nk].count
  }

  lemma NoticedNode(maxGroups: nat, st: State, s: Sighting, nk: NodeKey, errorsOnly: bool)
    requires s.app != ""
    ensures NodeCount(Noticed(maxGroups, st, s).nodes, nk, errorsOnly)
         == NodeCount(st.nodes, nk, errorsOnly) + if Wrote(s, nk) && Counted(s, errorsOnly) then 1 else 0
  {
    hide LinkedById;
    var st1 := st.(nodes := Bump(st.nodes, NodeKey(s.tenant, s.app), NO_ORIGIN, s.isErr, s.at));
    LinksKeepNodes(maxGroups, st1, Trace, s.trace, s, BY_TRACE);
    LinksKeepNodes(maxGroups, LinkedById(maxGroups, st1, Trace, s.trace, s, BY_TRACE), Corr, s.corr, s, BY_FIELD);
  }

  /** In every run, evictions and refused groups included, a node counts exactly the entries
      of its application. */
  lemma {:induction false} NodesAreCounts(maxGroups: nat, es: seq<Event>, nk: NodeKey, errorsOnly: bool)
    ensures NodeCount(Unflushed(maxGroups, es).nodes, nk, errorsOnly) == Written(Seen(es), nk, errorsOnly)
  {
    hide Noticed, NodeCount;
    if es == [] {
      NoNodes(nk, errorsOnly);
    } else {
      var init, e := es[..|es| - 1], es[|es| - 1];
      var log := Seen(init);
      NodesAreCounts(maxGroups, init, nk, errorsOnly);
      if e.Saw? && e.s.app != "" {
        assert (log + [e.s])[..|log|] == log;
        NoticedNode(maxGroups, Unflushed(maxGroups, init), e.s, nk, errorsOnly);
      } else if e.Saw? {
        NothingNoticed(maxGroups, Unflushed(maxGroups, init), e.s);
      }
    }
  }

  lemma NoNodes(nk: NodeKey, errorsOnly: bool)
    ensures NodeCount(map[], nk, errorsOnly) == 0
  {
  }

  /** After Close a service is on the map with the number of its entries and errors, or it
      never wrote any. */
  lemma StoredNodes(maxGroups: nat, es: seq<Event>, nk: NodeKey)
    requires Drained(Run(maxGroups, es))
    ensures var t, log := Run(maxGroups, es).nodes, Seen(es);
      if nk in t then t[nk].sum.count == Written(log, nk, false) && t[nk].sum.errors == Written(log, nk, true)
      else Written(log, nk, false) == 0
  {
    StoredIsWholeLog(maxGroups, es);
    NodesAreCounts(maxGroups, es, nk, false);
    NodesAreCounts(maxGroups, es, nk, true);
    hide Run, Unflushed, Written, Seen;
    assert nk in Run(maxGroups, es).nodes <==> nk in RowSums(Run(maxGroups, es).nodes);
    assert nk in Unflushed(maxGroups, es).nodes <==> nk in SumsOf(Unflushed(maxGroups, es).nodes);
  }
}
