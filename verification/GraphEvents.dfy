/** The edge counters as a declarative reading of a run with evictions. */
module GraphEvents {
  import opened Common
  import opened Model
  import opened Graph
  import opened GraphCounts
  import opened GraphFlush

  predicate Joins(e: Event, gk: GroupKey) { e.Saw? && e.s.app != "" && InGroup(e.s, gk) }

  predicate Forgets(e: Event, a: Sighting) { e.Evict? && a.at < e.cutoff }

  /** The last member of a group, unless it was evicted since. */
  function Remembered(es: seq<Event>, gk: GroupKey): Option<Sighting> {
    if es == [] then None
    else
      var e, r := es[|es| - 1], Remembered(es[..|es| - 1], gk);
      if Joins(e, gk) then Some(e.s)
      else if r.Some? && Forgets(e, r.value) then None
      else r
  }

  /** Entry `i` is in the group, none joins after it, and no eviction after it has a cutoff
      past its time. */
  ghost predicate LastKept(es: seq<Event>, gk: GroupKey, i: nat) {
    i < |es| && Joins(es[i], gk) && forall j :: i < j < |es| ==> !Joins(es[j], gk) && !Forgets(es[j], es[i].s)
  }

  lemma KeptEarlier(es: seq<Event>, gk: GroupKey, i: nat)
    requires i < |es| - 1
    ensures var init, e := es[..|es| - 1], es[|es| - 1];
      LastKept(es, gk, i) <==> LastKept(init, gk, i) && !Joins(e, gk) && !Forgets(e, es[i].s)
  {
    hide Joins, Forgets;
    var init, n := es[..|es| - 1], |es| - 1;
    assert forall j :: i <= j < n ==> init[j] == es[j];
  }

  lemma {:induction false} RememberedReads(es: seq<Event>, gk: GroupKey, a: Sighting)
    ensures Remembered(es, gk) == Some(a) <==> exists i: nat :: LastKept(es, gk, i) && es[i].s == a
  {
    if es != [] {
      hide Joins, Forgets, LastKept;
      var init, n := es[..|es| - 1], |es| - 1;
      RememberedReads(init, gk, a);
      KeptAtEnd(es, gk);
      if Remembered(es, gk) == Some(a) && !Joins(es[n], gk) {
        var i: nat :| LastKept(init, gk, i) && init[i].s == a;
        KeptInside(init, gk, i);
        KeptEarlier(es, gk, i);
        assert LastKept(es, gk, i) && es[i].s == a;
      }
      if i: nat :| LastKept(es, gk, i) && es[i].s == a {
        KeptInside(es, gk, i);
        if i < n {
          KeptEarlier(es, gk, i);
          assert init[i].s == a;
        }
      }
    }
  }

  lemma KeptInside(es: seq<Event>, gk: GroupKey, i: nat)
    requires LastKept(es, gk, i)
    ensures i < |es| && es[i].Saw?
  {
  }

  lemma KeptAtEnd(es: seq<Event>, gk: GroupKey)
    requires es != []
    ensures LastKept(es, gk, |es| - 1) <==> Joins(es[|es| - 1], gk)
  {
  }

  /** `s`, after `es`, follows an entry of `k.src` that its group still remembers. */
  predicate FollowsKept(es: seq<Event>, s: Sighting, kind: Kind, k: EdgeKey) {
    var id := if kind == Trace then s.trace else s.corr;
    id != "" && s.tenant == k.tenant && s.app == k.dst &&
    var r := Remembered(es, GroupKey(s.tenant, kind, id));
    r.Some? && r.value.app == k.src
  }

  function One(b: bool): nat { if b then 1 else 0 }

  /** How often the entries of a run show the edge. */
  function EventHits(es: seq<Event>, k: EdgeKey, errorsOnly: bool): nat {
    if es == [] then 0
    else
      var init, e := es[..|es| - 1], es[|es| - 1];
      EventHits(init, k, errorsOnly) +
      if e.Saw? && e.s.app != "" && Counted(e.s, errorsOnly)
      then One(FollowsKept(init, e.s, Trace, k)) + One(FollowsKept(init, e.s, Corr, k)) + One(Names(e.s, k))
      else 0
  }

  /** The groups hold exactly what is remembered. */
  ghost predicate Holds(es: seq<Event>, groups: map<GroupKey, Group>) {
    forall gk: GroupKey :: gk.id != "" ==> HoldsOne(es, groups, gk)
  }

  ghost predicate HoldsOne(es: seq<Event>, groups: map<GroupKey, Group>, gk: GroupKey) {
    var r := Remembered(es, gk);
    if r.None? then gk !in groups else gk in groups && groups[gk] == Group(r.value.app, r.value.at)
  }

  lemma {:induction false} RememberedNamed(es: seq<Event>, gk: GroupKey)
    ensures var r := Remembered(es, gk); r.Some? ==> r.value.app != ""
  {
    if es != [] { RememberedNamed(es[..|es| - 1], gk); }
  }

  /** Linking by one kind of id: the group takes the entry, and the edge counts it if the
      group remembers its caller. */
  lemma LinkKept(maxGroups: nat, es: seq<Event>, st: State, kind: Kind, s: Sighting, origin: Origin, k: EdgeKey,
      errorsOnly: bool)
    requires s.app != "" && k.src != k.dst
    requires var id := if kind == Trace then s.trace else s.corr; id != "" ==>
      HoldsOne(es, st.groups, GroupKey(s.tenant, kind, id))
    ensures var id := if kind == Trace then s.trace else s.corr;
      var st' := LinkedById(maxGroups, st, kind, id, s, origin);
      && st.dropped <= st'.dropped && st'.nodes == st.nodes
      && (st'.dropped == st.dropped ==>
          && Count(st'.edges, k, errorsOnly)
             == Count(st.edges, k, errorsOnly)
               + (if Counted(s, errorsOnly) then One(FollowsKept(es, s, kind, k)) else 0)
          && st'.groups == if id == "" then st.groups
             else st.groups[GroupKey(s.tenant, kind, id) := Group(s.app, s.at)])
  {
    hide Bump, Count, Remembered, Counted;
    var gk := GroupKey(s.tenant, kind, if kind == Trace then s.trace else s.corr);
    RememberedNamed(es, gk);
    var last := if gk in st.groups then st.groups[gk].lastApp else "";
    BumpCounts(st.edges, EdgeKey(s.tenant, last, s.app), origin, s, k, errorsOnly);
  }

  lemma NoticedKept(maxGroups: nat, es: seq<Event>, st: State, s: Sighting, k: EdgeKey, errorsOnly: bool)
    requires s.app != "" && k.src != k.dst && Holds(es, st.groups)
    ensures var st' := Noticed(maxGroups, st, s);
      && st.dropped <= st'.dropped
      && (st'.dropped == st.dropped ==>
          && Count(st'.edges, k, errorsOnly) == Count(st.edges, k, errorsOnly) +
             (if Counted(s, errorsOnly)
              then One(FollowsKept(es, s, Trace, k)) + One(FollowsKept(es, s, Corr, k)) + One(Names(s, k)) else 0)
          && Holds(es + [Saw(s)], st'.groups))
  {
    hide Bump, Count, LinkedById, Counted, Remembered, FollowsKept, HoldsOne;
    var st1 := st.(nodes := Bump(st.nodes, NodeKey(s.tenant, s.app), NO_ORIGIN, s.isErr, s.at));
    var st2 := LinkedById(maxGroups, st1, Trace, s.trace, s, BY_TRACE);
    var st3 := LinkedById(maxGroups, st2, Corr, s.corr, s, BY_FIELD);
    var gk := GroupKey(s.tenant, Corr, s.corr);
    LinkKept(maxGroups, es, st1, Trace, s, BY_TRACE, k, errorsOnly);
    LinkRefuses(maxGroups, st2, Corr, s.corr, s, BY_FIELD);
    if st3.dropped == st.dropped {
      if s.corr != "" { SameOne(es, st1.groups, st2.groups, gk); }
      LinkKept(maxGroups, es, st2, Corr, s, BY_FIELD, k, errorsOnly);
      BumpCounts(st3.edges, EdgeKey(s.tenant, s.app, s.peer), BY_FIELD, s, k, errorsOnly);
      HoldsMore(es, st.groups, s, st3.groups);
    }
  }

  lemma LinkRefuses(maxGroups: nat, st: State, kind: Kind, id: string, s: Sighting, origin: Origin)
    ensures st.dropped <= LinkedById(maxGroups, st, kind, id, s, origin).dropped
  {
    hide Bump;
  }

  lemma SameOne(es: seq<Event>, groups: map<GroupKey, Group>, groups': map<GroupKey, Group>, gk: GroupKey)
    requires HoldsOne(es, groups, gk) && (gk in groups <==> gk in groups')
      && (gk in groups ==> groups[gk] == groups'[gk])
    ensures HoldsOne(es, groups', gk)
  {
  }

  lemma HoldsMore(es: seq<Event>, groups: map<GroupKey, Group>, s: Sighting, groups': map<GroupKey, Group>)
    requires Holds(es, groups) && s.app != ""
    requires var g := if s.trace == "" then groups
      else groups[GroupKey(s.tenant, Trace, s.trace) := Group(s.app, s.at)];
      groups' == if s.corr == "" then g else g[GroupKey(s.tenant, Corr, s.corr) := Group(s.app, s.at)]
    ensures Holds(es + [Saw(s)], groups')
  {
    assert (es + [Saw(s)])[..|es|] == es;
    forall gk: GroupKey | gk.id != "" ensures HoldsOne(es + [Saw(s)], groups', gk) {
      assert HoldsOne(es, groups, gk);
    }
  }

  lemma EvictHolds(es: seq<Event>, groups: map<GroupKey, Group>, cutoff: Time)
    requires Holds(es, groups)
    ensures Holds(es + [Evict(cutoff)], Evicted(groups, cutoff))
  {
    assert (es + [Evict(cutoff)])[..|es|] == es;
    forall gk: GroupKey | gk.id != "" ensures HoldsOne(es + [Evict(cutoff)], Evicted(groups, cutoff), gk) {
      assert HoldsOne(es, groups, gk);
    }
  }

  lemma OtherHolds(es: seq<Event>, groups: map<GroupKey, Group>, e: Event)
    requires Holds(es, groups) && !e.Evict? && (e.Saw? ==> e.s.app == "")
    ensures Holds(es + [e], groups)
  {
    assert (es + [e])[..|es|] == es;
    forall gk: GroupKey | gk.id != "" ensures HoldsOne(es + [e], groups, gk) {
      assert HoldsOne(es, groups, gk);
    }
  }

  /** In every run in which no group was refused, evictions included: an edge counts the
      entries that follow one of its caller in a trace or correlation group which no
      eviction made the group forget, and the entries that name it. */
  lemma {:induction false} CountsInEveryRun(maxGroups: nat, es: seq<Event>, k: EdgeKey, errorsOnly: bool)
    requires Unflushed(maxGroups, es).dropped == 0 && k.src != k.dst
    ensures Count(Unflushed(maxGroups, es).edges, k, errorsOnly) == EventHits(es, k, errorsOnly)
    ensures Holds(es, Unflushed(maxGroups, es).groups)
  {
    hide Noticed, Count, Holds, FollowsKept, Names, Counted;
    if es == [] {
      NothingHeld(k, errorsOnly);
    } else {
      var init, e := es[..|es| - 1], es[|es| - 1];
      assert es == init + [e];
      var st := Unflushed(maxGroups, init);
      if e.Saw? && e.s.app != "" {
        DroppedGrows(maxGroups, st, e.s);
        CountsInEveryRun(maxGroups, init, k, errorsOnly);
        NoticedKept(maxGroups, init, st, e.s, k, errorsOnly);
      } else {
        if e.Saw? { NothingNoticed(maxGroups, st, e.s); }
        CountsInEveryRun(maxGroups, init, k, errorsOnly);
        if e.Evict? { EvictHolds(init, st.groups, e.cutoff); } else { OtherHolds(init, st.groups, e); }
      }
    }
  }

  lemma NothingHeld(k: EdgeKey, errorsOnly: bool)
    ensures Count(map[], k, errorsOnly) == 0 && Holds([], map[])
  {
  }

  lemma DroppedGrows(maxGroups: nat, st: State, s: Sighting)
    ensures st.dropped <= Noticed(maxGroups, st, s).dropped
  {
    hide Bump;
  }

  /** What is stored after Close, for every such run. */
  lemma StoredEventHits(maxGroups: nat, es: seq<Event>, k: EdgeKey)
    requires Drained(Run(maxGroups, es)) && Run(maxGroups, es).x.dropped == 0 && k.src != k.dst
    ensures var t := Run(maxGroups, es).edges;
      if k in t then
        t[k].sum.count == EventHits(es, k, false) && t[k].sum.errors == EventHits(es, k, true)
      else EventHits(es, k, false) == 0
  {
    StoredIsWholeLog(maxGroups, es);
    FlushesDoNotShow(maxGroups, es);
    CountsInEveryRun(maxGroups, es, k, false);
    CountsInEveryRun(maxGroups, es, k, true);
    hide Run, Unflushed, EventHits, Holds;
    assert k in Run(maxGroups, es).edges <==> k in RowSums(Run(maxGroups, es).edges);
    assert k in Unflushed(maxGroups, es).edges <==> k in SumsOf(Unflushed(maxGroups, es).edges);
  }
}
