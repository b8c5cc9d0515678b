/** What the edge counters count: a declarative reading of the log. */
module GraphCounts {
  import opened Common
  import opened Graph

  // ---- the log, read group by group ----

  predicate InGroup(s: Sighting, gk: GroupKey) {
    s.tenant == gk.tenant && gk.id != "" && (if gk.kind == Trace then s.trace else s.corr) == gk.id
  }

  /** The entries of one group, in order. */
  function Members(log: seq<Sighting>, gk: GroupKey): seq<Sighting> {
    if log == [] then []
    else
      var s := log[|log| - 1];
      Members(log[..|log| - 1], gk) + if InGroup(s, gk) then [s] else []
  }

  /** Which hits to count: all, or those whose later entry is an error. */
  predicate Counted(s: Sighting, errorsOnly: bool) { errorsOnly ==> s.isErr }

  /** How often `b` comes right after `a`. */
  function Adjacent(ms: seq<Sighting>, a: string, b: string, errorsOnly: bool): nat {
    if |ms| < 2 then 0
    else
      var s := ms[|ms| - 1];
      Adjacent(ms[..|ms| - 1], a, b, errorsOnly)
      + if ms[|ms| - 2].app == a && s.app == b && Counted(s, errorsOnly) then 1 else 0
  }

  predicate Names(s: Sighting, k: EdgeKey) {
    s.tenant == k.tenant && s.app == k.src && s.peer != "" && s.peer == k.dst
  }

  /** How often an entry of `k.src` names `k.dst` as its peer. */
  function Named(log: seq<Sighting>, k: EdgeKey, errorsOnly: bool): nat {
    if log == [] then 0
    else
      var s := log[|log| - 1];
      Named(log[..|log| - 1], k, errorsOnly)
      + if Names(s, k) && Counted(s, errorsOnly) then 1 else 0
  }

  function GroupOf(s: Sighting, kind: Kind): set<GroupKey> {
    var id := if kind == Trace then s.trace else s.corr;
    if id == "" then {} else {GroupKey(s.tenant, kind, id)}
  }

  function Groups(log: seq<Sighting>): set<GroupKey> {
    if log == [] then {}
    else Groups(log[..|log| - 1]) + GroupOf(log[|log| - 1], Trace) + GroupOf(log[|log| - 1], Corr)
  }

  /** Adjacent hits in one group, if it is of the edge's tenant. */
  function GroupHits(log: seq<Sighting>, gk: GroupKey, k: EdgeKey, errorsOnly: bool): nat {
    if gk.tenant == k.tenant then Adjacent(Members(log, gk), k.src, k.dst, errorsOnly) else 0
  }

  ghost function HitsOver(groups: set<GroupKey>, log: seq<Sighting>, k: EdgeKey, errorsOnly: bool): nat
    decreases |groups|
  {
    if groups == {} then 0
    else
      var gk :| gk in groups;
      GroupHits(log, gk, k, errorsOnly) + HitsOver(groups - {gk}, log, k, errorsOnly)
  }

  /** The interactions from `k.src` to `k.dst` in a log. */
  ghost function Hits(log: seq<Sighting>, k: EdgeKey, errorsOnly: bool): nat {
    HitsOver(Groups(log), log, k, errorsOnly) + Named(log, k, errorsOnly)
  }

  /** Only entries with an application reach the graph. */
  ghost predicate Attributed(log: seq<Sighting>) { forall i :: 0 <= i < |log| ==> log[i].app != "" }

  // ---- sums over groups ----

  /** The order of summation does not matter. */
  lemma {:induction false} HitsWithout(groups: set<GroupKey>, x: GroupKey, log: seq<Sighting>, k: EdgeKey,
      errorsOnly: bool)
    requires x in groups
    ensures HitsOver(groups, log, k, errorsOnly)
         == GroupHits(log, x, k, errorsOnly) + HitsOver(groups - {x}, log, k, errorsOnly)
    decreases |groups|
  {
    hide GroupHits;
    var gk :| gk in groups && HitsOver(groups, log, k, errorsOnly)
      == GroupHits(log, gk, k, errorsOnly) + HitsOver(groups - {gk}, log, k, errorsOnly);
    if gk != x {
      HitsWithout(groups - {gk}, x, log, k, errorsOnly);
      HitsWithout(groups - {x}, gk, log, k, errorsOnly);
      assert groups - {gk} - {x} == groups - {x} - {gk};
    }
  }

  lemma NoHits(log: seq<Sighting>, k: EdgeKey, errorsOnly: bool)
    ensures HitsOver({}, log, k, errorsOnly) == 0
  {
  }

  lemma MembersSame(log: seq<Sighting>, s: Sighting, gk: GroupKey)
    ensures Members(log + [s], gk) == if InGroup(s, gk) then Members(log, gk) + [s] else Members(log, gk)
  {
    assert (log + [s])[..|log|] == log;
  }

  /** A group that gains no member keeps its hits. */
  lemma {:induction false} HitsUnchanged(groups: set<GroupKey>, log: seq<Sighting>, s: Sighting, k: EdgeKey,
      errorsOnly: bool)
    requires forall gk :: gk in groups ==> !InGroup(s, gk)
    ensures HitsOver(groups, log + [s], k, errorsOnly) == HitsOver(groups, log, k, errorsOnly)
    decreases |groups|
  {
    hide Adjacent, InGroup, Members, HitsOver;
    NoHits(log, k, errorsOnly);
    NoHits(log + [s], k, errorsOnly);
    if groups != {} {
      var gk :| gk in groups;
      HitsWithout(groups, gk, log, k, errorsOnly);
      HitsWithout(groups, gk, log + [s], k, errorsOnly);
      HitsUnchanged(groups - {gk}, log, s, k, errorsOnly);
      MembersSame(log, s, gk);
    }
  }

  lemma {:induction false} NoMembers(log: seq<Sighting>, gk: GroupKey)
    ensures gk !in Groups(log) ==> Members(log, gk) == []
    ensures gk in Groups(log) ==> Members(log, gk) != []
  {
    if log != [] { NoMembers(log[..|log| - 1], gk); }
  }

  function HitAt(log: seq<Sighting>, gk: GroupKey, s: Sighting, k: EdgeKey, errorsOnly: bool): nat {
    var ms := Members(log, gk);
    if gk.tenant == k.tenant && ms != [] && LastApp(ms) == k.src && s.app == k.dst && Counted(s, errorsOnly)
    then 1 else 0
  }

  /** A group that gains `s`. */
  lemma HitsGain(log: seq<Sighting>, gk: GroupKey, s: Sighting, k: EdgeKey, errorsOnly: bool)
    requires InGroup(s, gk)
    ensures GroupHits(log + [s], gk, k, errorsOnly)
      == GroupHits(log, gk, k, errorsOnly) + HitAt(log, gk, s, k, errorsOnly)
  {
    MembersSame(log, s, gk);
    var ms := Members(log, gk);
    assert (ms + [s])[..|ms|] == ms;
  }

  /** A group not yet in the log adds nothing to the sum. */
  lemma HitsEnlarge(groups: set<GroupKey>, gk: GroupKey, log: seq<Sighting>, k: EdgeKey, errorsOnly: bool)
    requires gk !in groups ==> Members(log, gk) == []
    ensures HitsOver(groups + {gk}, log, k, errorsOnly) == HitsOver(groups, log, k, errorsOnly)
  {
    if gk in groups {
      assert groups + {gk} == groups;
    } else {
      HitsWithout(groups + {gk}, gk, log, k, errorsOnly);
      assert groups + {gk} - {gk} == groups;
    }
  }

  function HitOf(log: seq<Sighting>, s: Sighting, kind: Kind, k: EdgeKey, errorsOnly: bool): nat {
    var id := if kind == Trace then s.trace else s.corr;
    if id == "" then 0 else HitAt(log, GroupKey(s.tenant, kind, id), s, k, errorsOnly)
  }

  /** The sum over a log with one more entry: what it hits in its trace and its
      correlation group is all that is new. */
  lemma HitsStep(groups: set<GroupKey>, log: seq<Sighting>, s: Sighting, k: EdgeKey, errorsOnly: bool)
    requires GroupOf(s, Trace) + GroupOf(s, Corr) <= groups
    ensures HitsOver(groups, log + [s], k, errorsOnly) == HitsOver(groups, log, k, errorsOnly)
         + HitOf(log, s, Trace, k, errorsOnly) + HitOf(log, s, Corr, k, errorsOnly)
  {
    hide GroupHits, HitAt, Members;
    var rest := groups;
    if s.trace != "" {
      var gk := GroupKey(s.tenant, Trace, s.trace);
      HitsGain(log, gk, s, k, errorsOnly);
      HitsWithout(rest, gk, log, k, errorsOnly);
      HitsWithout(rest, gk, log + [s], k, errorsOnly);
      rest := rest - {gk};
    }
    if s.corr != "" {
      var gk := GroupKey(s.tenant, Corr, s.corr);
      HitsGain(log, gk, s, k, errorsOnly);
      HitsWithout(rest, gk, log, k, errorsOnly);
      HitsWithout(rest, gk, log + [s], k, errorsOnly);
      rest := rest - {gk};
    }
    HitsUnchanged(rest, log, s, k, errorsOnly);
  }

  lemma HitsGrow(log: seq<Sighting>, s: Sighting, k: EdgeKey, errorsOnly: bool)
    ensures HitsOver(Groups(log + [s]), log, k, errorsOnly) == HitsOver(Groups(log), log, k, errorsOnly)
  {
    hide Members, HitsOver;
    assert (log + [s])[..|log|] == log;
    var gs := Groups(log);
    if s.trace != "" {
      var gk := GroupKey(s.tenant, Trace, s.trace);
      NoMembers(log, gk);
      HitsEnlarge(gs, gk, log, k, errorsOnly);
      gs := gs + {gk};
    }
    if s.corr != "" {
      var gk := GroupKey(s.tenant, Corr, s.corr);
      NoMembers(log, gk);
      HitsEnlarge(gs, gk, log, k, errorsOnly);
      gs := gs + {gk};
    }
    assert gs == Groups(log + [s]);
  }

  /** The declarative count, entry by entry. */
  lemma HitsAppend(log: seq<Sighting>, s: Sighting, k: EdgeKey, errorsOnly: bool)
    ensures Hits(log + [s], k, errorsOnly) == Hits(log, k, errorsOnly)
      + HitOf(log, s, Trace, k, errorsOnly) + HitOf(log, s, Corr, k, errorsOnly) + Named([s], k, errorsOnly)
  {
    hide HitsOver, HitOf;
    assert (log + [s])[..|log|] == log && [s][..0] == [];
    HitsGrow(log, s, k, errorsOnly);
    HitsStep(Groups(log + [s]), log, s, k, errorsOnly);
  }

  // ---- the extractor keeps that count ----

  function Count(edges: map<EdgeKey, Agg>, k: EdgeKey, errorsOnly: bool): nat {
    if k !in edges then 0 else if errorsOnly then edges[k].errors else edges[k].count
  }

  /** The groups remember the last member of every group of the log. */
  ghost predicate InStep(log: seq<Sighting>, groups: map<GroupKey, Group>) {
    groups.Keys == Groups(log) &&
    forall gk :: gk in groups ==> groups[gk].lastApp == LastApp(Members(log, gk))
  }

  function LastApp(ms: seq<Sighting>): string { if ms == [] then "" else ms[|ms| - 1].app }

  lemma BumpCounts(edges: map<EdgeKey, Agg>, x: EdgeKey, origin: Origin, s: Sighting, k: EdgeKey, errorsOnly: bool)
    ensures Count(Bump(edges, x, origin, s.isErr, s.at), k, errorsOnly)
         == Count(edges, k, errorsOnly) + if x == k && Counted(s, errorsOnly) then 1 else 0
  {
  }

  /** The groups once `s` has joined one of them. */
  function Joined(groups: map<GroupKey, Group>, s: Sighting, kind: Kind): map<GroupKey, Group> {
    var id := if kind == Trace then s.trace else s.corr;
    if id == "" then groups else groups[GroupKey(s.tenant, kind, id) := Group(s.app, s.at)]
  }

  lemma JoinedKeys(groups: map<GroupKey, Group>, s: Sighting, kind: Kind)
    ensures Joined(groups, s, kind).Keys == groups.Keys + GroupOf(s, kind)
    ensures forall gk :: gk in groups && gk !in GroupOf(s, kind) ==> Joined(groups, s, kind)[gk] == groups[gk]
  {
  }

  /** Linking by one kind of id, with `groups` still those of the log before `s`
      for that kind. */
  lemma LinkCounts(maxGroups: nat, log: seq<Sighting>, st: State, kind: Kind, s: Sighting, k: EdgeKey,
      errorsOnly: bool, origin: Origin)
    requires s.app != "" && k.src != k.dst && Attributed(log)
    requires forall gk :: gk in GroupOf(s, kind) ==>
      && (gk in st.groups <==> gk in Groups(log))
      && (gk in st.groups ==> st.groups[gk].lastApp == LastApp(Members(log, gk)))
      && (gk !in st.groups ==> |st.groups| < maxGroups)
    ensures var st' := LinkedById(maxGroups, st, kind, if kind == Trace then s.trace else s.corr, s, origin);
      && Count(st'.edges, k, errorsOnly) == Count(st.edges, k, errorsOnly) + HitOf(log, s, kind, k, errorsOnly)
      && st'.groups == Joined(st.groups, s, kind) && st'.dropped == st.dropped
  {
    hide Bump, Count, Members, Groups, LastApp, Linked, Attributed, Counted;
    var id := if kind == Trace then s.trace else s.corr;
    if id != "" {
      var gk := GroupKey(s.tenant, kind, id);
      assert gk in GroupOf(s, kind);
      NoMembers(log, gk);
      LastAttributed(log, gk);
      LinkCount(maxGroups, st, gk, s, k, errorsOnly, origin);
    }
  }

  /** Linking to one group which has room. */
  lemma LinkCount(maxGroups: nat, st: State, gk: GroupKey, s: Sighting, k: EdgeKey, errorsOnly: bool, origin: Origin)
    requires k.src != k.dst && (gk !in st.groups ==> |st.groups| < maxGroups)
    ensures var last := if gk in st.groups then st.groups[gk].lastApp else "";
      var st' := Linked(maxGroups, st, gk, s, origin);
      && st'.groups == st.groups[gk := Group(s.app, s.at)] && st'.dropped == st.dropped
      && Count(st'.edges, k, errorsOnly) == Count(st.edges, k, errorsOnly)
         + if last != "" && EdgeKey(gk.tenant, last, s.app) == k && Counted(s, errorsOnly) then 1 else 0
  {
    hide Bump, Count, Counted;
    var last := if gk in st.groups then st.groups[gk].lastApp else "";
    BumpCounts(st.edges, EdgeKey(gk.tenant, last, s.app), origin, s, k, errorsOnly);
  }

  lemma LastAttributed(log: seq<Sighting>, gk: GroupKey)
    requires Attributed(log)
    ensures Members(log, gk) != [] ==> LastApp(Members(log, gk)) != ""
  {
    MembersAttributed(log, gk);
  }

  lemma {:induction false} MembersAttributed(log: seq<Sighting>, gk: GroupKey)
    requires Attributed(log)
    ensures Attributed(Members(log, gk))
  {
    if log != [] {
      assert Attributed(log[..|log| - 1]);
      MembersAttributed(log[..|log| - 1], gk);
    }
  }

  /** The two kinds of id, one after the other. */
  lemma LinksCount(maxGroups: nat, log: seq<Sighting>, st: State, s: Sighting, k: EdgeKey, errorsOnly: bool)
    requires Attributed(log) && s.app != "" && k.src != k.dst
    requires InStep(log, st.groups) && |Groups(log + [s])| <= maxGroups
    ensures var st2 := LinkedById(maxGroups, st, Trace, s.trace, s, BY_TRACE);
      var st3 := LinkedById(maxGroups, st2, Corr, s.corr, s, BY_FIELD);
      && Count(st3.edges, k, errorsOnly)
         == Count(st.edges, k, errorsOnly) + HitOf(log, s, Trace, k, errorsOnly) + HitOf(log, s, Corr, k, errorsOnly)
      && InStep(log + [s], st3.groups) && st3.dropped == st.dropped
  {
    hide Count, Members, HitOf, LinkedById, LastApp, Groups, Attributed, Joined;
    GroupsGrow(log, s);
    JoinedKeys(st.groups, s, Trace);
    var st2 := LinkedById(maxGroups, st, Trace, s.trace, s, BY_TRACE);
    RoomFor(st.groups, GroupOf(s, Trace), log, s, maxGroups);
    LinkCounts(maxGroups, log, st, Trace, s, k, errorsOnly, BY_TRACE);
    RoomFor(st2.groups, GroupOf(s, Corr), log, s, maxGroups);
    LinkCounts(maxGroups, log, st2, Corr, s, k, errorsOnly, BY_FIELD);
    StaysInStep(log, s, st.groups, LinkedById(maxGroups, st2, Corr, s.corr, s, BY_FIELD).groups);
  }

  /** One entry adds to each edge's counters exactly what it adds to the declarative
      count, whatever was counted or flushed before. */
  lemma NoticedCounts(maxGroups: nat, log: seq<Sighting>, st: State, s: Sighting, k: EdgeKey, errorsOnly: bool)
    requires Attributed(log) && s.app != "" && k.src != k.dst
    requires InStep(log, st.groups) && |Groups(log + [s])| <= maxGroups
    ensures var st' := Noticed(maxGroups, st, s);
      && Count(st'.edges, k, errorsOnly) + Hits(log, k, errorsOnly)
         == Count(st.edges, k, errorsOnly) + Hits(log + [s], k, errorsOnly)
      && InStep(log + [s], st'.groups) && st'.dropped == st.dropped
  {
    hide Bump, Count, HitOf, Hits, LinkedById, Groups, Named, InStep;
    var st1 := st.(nodes := Bump(st.nodes, NodeKey(s.tenant, s.app), NO_ORIGIN, s.isErr, s.at));
    LinksCount(maxGroups, log, st1, s, k, errorsOnly);
    var st3 := LinkedById(maxGroups, LinkedById(maxGroups, st1, Trace, s.trace, s, BY_TRACE),
      Corr, s.corr, s, BY_FIELD);
    HitsAppend(log, s, k, errorsOnly);
    NamedOne(s, k, errorsOnly);
    BumpCounts(st3.edges, EdgeKey(s.tenant, s.app, s.peer), BY_FIELD, s, k, errorsOnly);
  }

  lemma NamedOne(s: Sighting, k: EdgeKey, errorsOnly: bool)
    ensures Named([s], k, errorsOnly)
         == if Names(s, k) && Counted(s, errorsOnly) then 1 else 0
  {
    assert [s][..0] == [];
  }

  lemma GroupsGrow(log: seq<Sighting>, s: Sighting)
    ensures Groups(log + [s]) == Groups(log) + GroupOf(s, Trace) + GroupOf(s, Corr)
  {
    assert (log + [s])[..|log|] == log;
  }

  /** A group that is new to the map still fits under the cap. */
  lemma RoomFor(groups: map<GroupKey, Group>, more: set<GroupKey>, log: seq<Sighting>, s: Sighting, maxGroups: nat)
    requires groups.Keys + more <= Groups(log + [s]) && |Groups(log + [s])| <= maxGroups
    ensures forall gk :: gk in more && gk !in groups ==> |groups| < maxGroups
  {
    hide Groups;
    forall gk | gk in more && gk !in groups ensures |groups| < maxGroups {
      SubsetSize(groups.Keys + {gk}, Groups(log + [s]));
      assert |groups.Keys + {gk}| == |groups.Keys| + 1 && |groups.Keys| == |groups|;
    }
  }

  lemma StaysInStep(log: seq<Sighting>, s: Sighting, groups: map<GroupKey, Group>, groups': map<GroupKey, Group>)
    requires InStep(log, groups) && groups' == Joined(Joined(groups, s, Trace), s, Corr)
    ensures InStep(log + [s], groups')
  {
    hide Members, Groups;
    GroupsGrow(log, s);
    forall gk | gk in groups' ensures groups'[gk].lastApp == LastApp(Members(log + [s], gk))
    {
      MembersSame(log, s, gk);
      NoMembers(log, gk);
    }
  }
}
