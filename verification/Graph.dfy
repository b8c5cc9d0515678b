/** The edge extractor: services linked by shared ids and by fields that name a peer. */
module Graph {
  import opened Model

  datatype NodeKey = NodeKey(tenant: string, app: string)
  datatype EdgeKey = EdgeKey(tenant: string, src: string, dst: string)

  datatype Kind = Trace | Corr
  datatype GroupKey = GroupKey(tenant: string, kind: Kind, id: string)

  /** How an edge was found; both marks may be set. */
  datatype Origin = Origin(trace: bool, inferred: bool)

  const NO_ORIGIN := Origin(false, false)
  const BY_TRACE := Origin(true, false)
  const BY_FIELD := Origin(false, true)

  function Both(a: Origin, b: Origin): Origin { Origin(a.trace || b.trace, a.inferred || b.inferred) }

  /** The counters of a node or an edge; time 0 is the zero time. */
  datatype Agg = Agg(origin: Origin, count: nat, errors: nat, lastSeen: Time)

  const ZERO := Agg(NO_ORIGIN, 0, 0, 0)

  datatype Group = Group(lastApp: string, lastSeen: Time)

  const TRACE_FIELDS := ["trace_id", "traceid", "trace-id"]
  const CORR_FIELDS := ["correlation_id", "corr_id", "request_id", "x_request_id", "x-request-id"]
  const PEER_FIELDS := ["peer.service", "peer_service", "target", "upstream", "callee"]

  /** The first of `names` that is set to something. */
  function FirstField(fields: map<string, string>, names: seq<string>): (v: string)
    ensures v != "" ==> exists i :: (0 <= i < |names| && names[i] in fields && fields[names[i]] == v
      && forall j :: 0 <= j < i ==> Unset(fields, names[j]))
    ensures v == "" ==> forall i :: 0 <= i < |names| ==> Unset(fields, names[i])
  {
    if names == [] then ""
    else if !Unset(fields, names[0]) then fields[names[0]]
    else
      var v := FirstField(fields, names[1..]);
      assert names == [names[0]] + names[1..];
      v
  }

  predicate Unset(fields: map<string, string>, name: string) { name !in fields || fields[name] == "" }

  method FindField(fields: map<string, string>, names: seq<string>) returns (v: string)
    ensures v == FirstField(fields, names)
  {
    for i := 0 to |names|
      invariant FirstField(fields, names) == FirstField(fields, names[i..])
    {
      assert names[i..][0] == names[i] && names[i..][1..] == names[i + 1..];
      if names[i] in fields && fields[names[i]] != "" { return fields[names[i]]; }
    }
    return "";
  }

  // ---- what the extractor makes of an entry ----

  /** An entry reduced to what matters here. */
  datatype Sighting = Sighting(tenant: string, app: string, isErr: bool, at: Time, trace: string, corr: string,
      peer: string)

  /** `clock` stands in for an entry without a time. */
  function Sight(e: Entry, clock: Time): Sighting {
    Sighting(e.tenant, e.app, e.lvl >= ERROR, if e.ts == 0 then clock else e.ts,
             FirstField(e.fields, TRACE_FIELDS), FirstField(e.fields, CORR_FIELDS), FirstField(e.fields, PEER_FIELDS))
  }

  function Bump<K>(aggs: map<K, Agg>, k: K, origin: Origin, isErr: bool, at: Time): map<K, Agg> {
    var a := if k in aggs then aggs[k] else ZERO;
    aggs[k := Agg(Both(a.origin, origin), a.count + 1, a.errors + (if isErr then 1 else 0),
                  if at > a.lastSeen then at else a.lastSeen)]
  }

  datatype State = State(nodes: map<NodeKey, Agg>, edges: map<EdgeKey, Agg>, groups: map<GroupKey, Group>, dropped: nat)

  const EMPTY := State(map[], map[], map[], 0)

  /** `s.app` joins a group: an edge from whoever was there last. */
  function Linked(maxGroups: nat, st: State, gk: GroupKey, s: Sighting, origin: Origin): State {
    if gk !in st.groups && |st.groups| >= maxGroups then st.(dropped := st.dropped + 1)
    else
      var last := if gk in st.groups then st.groups[gk].lastApp else "";
      var edges := if last != "" && last != s.app
        then Bump(st.edges, EdgeKey(gk.tenant, last, s.app), origin, s.isErr, s.at) else st.edges;
      st.(edges := edges, groups := st.groups[gk := Group(s.app, s.at)])
  }

  function LinkedById(maxGroups: nat, st: State, kind: Kind, id: string, s: Sighting, origin: Origin): State {
    if id == "" then st else Linked(maxGroups, st, GroupKey(s.tenant, kind, id), s, origin)
  }

  lemma LinksKeepNodes(maxGroups: nat, st: State, kind: Kind, id: string, s: Sighting, origin: Origin)
    ensures LinkedById(maxGroups, st, kind, id, s, origin).nodes == st.nodes
  {
    hide Bump;
  }

  function Noticed(maxGroups: nat, st: State, s: Sighting): State {
    if s.app == "" then st
    else
      var st1 := st.(nodes := Bump(st.nodes, NodeKey(s.tenant, s.app), NO_ORIGIN, s.isErr, s.at));
      var st2 := LinkedById(maxGroups, st1, Trace, s.trace, s, BY_TRACE);
      var st3 := LinkedById(maxGroups, st2, Corr, s.corr, s, BY_FIELD);
      if s.peer != "" && s.peer != s.app
      then st3.(edges := Bump(st3.edges, EdgeKey(s.tenant, s.app, s.peer), BY_FIELD, s.isErr, s.at))
      else st3
  }

  /** A snapshot in some order: every key once. */
  ghost predicate Lists<K(!new)>(list: seq<(K, Agg)>, m: map<K, Agg>) {
    && (forall i :: 0 <= i < |list| ==> list[i].0 in m && m[list[i].0] == list[i].1)
    && (forall k :: k in m ==> (k, m[k]) in list)
    && (forall i, j :: 0 <= i < j < |list| ==> list[i].0 != list[j].0)
  }

  // ---- the program ----

  class Extractor {
    const maxGroups: nat
    var nodes: map<NodeKey, Agg>
    var edges: map<EdgeKey, Agg>
    var groups: map<GroupKey, Group>
    var dropped: nat

    ghost function Abstract(): State
      reads this
    {
      State(nodes, edges, groups, dropped)
    }

    constructor (maxGroups: int)
      ensures this.maxGroups == (if maxGroups <= 0 then 100_000 else maxGroups) && Abstract() == EMPTY
    {
      this.maxGroups := if maxGroups <= 0 then 100_000 else maxGroups;
      nodes, edges, groups, dropped := map[], map[], map[], 0;
    }

    method Append(e: Entry, clock: Time)
      modifies this
      ensures Abstract() == Noticed(maxGroups, old(Abstract()), Sight(e, clock))
    {
      if e.app == "" { return; }
      hide Linked, Bump, FirstField;
      var isErr := e.lvl >= ERROR;
      var now := if e.ts == 0 then clock else e.ts;
      ghost var s := Sight(e, clock);
      nodes := Bump(nodes, NodeKey(e.tenant, e.app), NO_ORIGIN, isErr, now);
      var id := FindField(e.fields, TRACE_FIELDS);
      if id != "" { LinkGroup(GroupKey(e.tenant, Trace, id), e.app, BY_TRACE, isErr, now, s); }
      id := FindField(e.fields, CORR_FIELDS);
      if id != "" { LinkGroup(GroupKey(e.tenant, Corr, id), e.app, BY_FIELD, isErr, now, s); }
      var peer := FindField(e.fields, PEER_FIELDS);
      if peer != "" && peer != e.app {
        BumpEdge(EdgeKey(e.tenant, e.app, peer), BY_FIELD, isErr, now);
      }
    }

    method LinkGroup(gk: GroupKey, app: string, origin: Origin, isErr: bool, now: Time, ghost s: Sighting)
      requires s.app == app && s.isErr == isErr && s.at == now
      modifies this
      ensures Abstract() == Linked(maxGroups, old(Abstract()), gk, s, origin)
    {
      var last := "";
      if gk !in groups {
        if |groups| >= maxGroups {
          dropped := dropped + 1;
          return;
        }
      } else {
        last := groups[gk].lastApp;
      }
      if last != "" && last != app {
        BumpEdge(EdgeKey(gk.tenant, last, app), origin, isErr, now);
      }
      groups := groups[gk := Group(app, now)];
    }

    method BumpEdge(k: EdgeKey, origin: Origin, isErr: bool, now: Time)
      modifies this`edges
      ensures edges == Bump(old(edges), k, origin, isErr, now)
    {
      var s := if k in edges then edges[k] else ZERO;
      s := s.(origin := Both(s.origin, origin), count := s.count + 1);
      if isErr { s := s.(errors := s.errors + 1); }
      if now > s.lastSeen { s := s.(lastSeen := now); }
      edges := edges[k := s];
    }

    /** Hands over what has been gathered and starts afresh; the groups live on. */
    method Flush() returns (nodeAggs: seq<(NodeKey, Agg)>, edgeAggs: seq<(EdgeKey, Agg)>)
      modifies this
      ensures Lists(nodeAggs, old(nodes)) && Lists(edgeAggs, old(edges))
      ensures Abstract() == old(Abstract()).(nodes := map[], edges := map[])
    {
      nodeAggs := Listing(nodes);
      edgeAggs := Listing(edges);
      nodes, edges := map[], map[];
    }

    /** Forgets the groups that were last touched before `cutoff`. */
    method EvictGroups(cutoff: Time)
      modifies this`groups
      ensures groups == map gk | gk in old(groups) && old(groups)[gk].lastSeen >= cutoff :: old(groups)[gk]
    {
      var left := groups.Keys;
      while left != {}
        invariant left <= old(groups).Keys
        invariant groups == map gk | gk in old(groups) && (gk in left || old(groups)[gk].lastSeen >= cutoff)
          :: old(groups)[gk]
        decreases left
      {
        var gk :| gk in left;
        left := left - {gk};
        if groups[gk].lastSeen < cutoff {
          groups := groups - {gk};
        }
      }
    }
  }

  /** The entries of a map, in whatever order. */
  method Listing<K(==, !new)>(m: map<K, Agg>) returns (list: seq<(K, Agg)>)
    ensures Lists(list, m)
  {
    list := [];
    var left := m.Keys;
    while left != {}
      invariant left <= m.Keys
      invariant forall i :: 0 <= i < |list| ==> list[i].0 in m && list[i].0 !in left && m[list[i].0] == list[i].1
      invariant forall k :: k in m && k !in left ==> (k, m[k]) in list
      invariant forall i, j :: 0 <= i < j < |list| ==> list[i].0 != list[j].0
      decreases left
    {
      var k :| k in left;
      left := left - {k};
      list := list + [(k, m[k])];
    }
  }
}
