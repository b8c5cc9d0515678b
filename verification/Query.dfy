/** The log query: a plan evaluated in memory, and the SQL generated from it. */
module Query {
  import opened Common
  import opened Model
  import Sorting
  import Text

  datatype Plan = Plan(
    tenant: string,
    apps: seq<string>,
    srcs: seq<string>,
    levels: seq<Level>,
    from: Option<Time>,
    to: Option<Time>,
    fieldEq: map<string, string>,
    search: string,
    limit: int)

  /** Whether a text contains another, whatever their case: the one operation both
      evaluators leave to a library. */
  type Occurs = (string, string) -> bool

  const DEFAULT_LIMIT := 100

  // ---- the meaning of a plan ----

  /** An absent field reads as empty, in Go and in the database. */
  function FieldOf(e: Entry, k: string): string { if k in e.fields then e.fields[k] else "" }

  predicate FieldsMatch(p: Plan, e: Entry) {
    forall k :: k in p.fieldEq ==> FieldOf(e, k) == p.fieldEq[k]
  }

  /** Every filter but tenant and time. */
  predicate Filters(occurs: Occurs, p: Plan, e: Entry) {
    && (p.apps != [] ==> e.app in p.apps)
    && (p.srcs != [] ==> e.src in p.srcs)
    && (p.levels != [] ==> e.lvl in p.levels)
    && FieldsMatch(p, e)
    && (p.search != "" ==> occurs(e.msg, p.search))
  }

  /** The live tail lets any tenant through when the plan names none. */
  predicate Accepts(occurs: Occurs, p: Plan, e: Entry) {
    (p.tenant != "" ==> e.tenant == p.tenant) && Filters(occurs, p, e)
  }

  predicate InTime(p: Plan, e: Entry) {
    (p.from.Some? ==> e.ts >= p.from.value) && (p.to.Some? ==> e.ts <= p.to.value)
  }

  method ListContains<T(==)>(list: seq<T>, s: T) returns (found: bool)
    ensures found <==> s in list
  {
    for i := 0 to |list|
      invariant s !in list[..i]
    {
      if list[i] == s { return true; }
    }
    return false;
  }

  method Matches(occurs: Occurs, p: Plan, e: Entry) returns (ok: bool)
    ensures ok <==> Accepts(occurs, p, e)
  {
    if p.tenant != "" && e.tenant != p.tenant { return false; }
    if |p.apps| > 0 {
      var found := ListContains(p.apps, e.app);
      if !found { return false; }
    }
    if |p.srcs| > 0 {
      var found := ListContains(p.srcs, e.src);
      if !found { return false; }
    }
    if |p.levels| > 0 {
      var found := ListContains(p.levels, e.lvl);
      if !found { return false; }
    }
    var left := p.fieldEq.Keys;
    while left != {}
      invariant left <= p.fieldEq.Keys
      invariant forall k :: k in p.fieldEq && k !in left ==> FieldOf(e, k) == p.fieldEq[k]
      decreases left
    {
      var k :| k in left;
      left := left - {k};
      if FieldOf(e, k) != p.fieldEq[k] { return false; }
    }
    return p.search == "" || occurs(e.msg, p.search);
  }

  // ---- the meaning of a generated query ----

  datatype Arg = Str(s: string) | Num(n: nat) | Moment(t: Time)

  const APP_IN := " AND app IN ("
  const SRC_IN := " AND src IN ("
  const LVL_IN := " AND lvl IN ("
  const TS_FROM := " AND ts >= ?"
  const TS_TO := " AND ts <= ?"
  const FIELD_EQ := " AND fields[?] = ?"
  const SEARCH := " AND positionCaseInsensitiveUTF8(msg, ?) > 0"
  const ORDER := " ORDER BY ts DESC LIMIT "

  function Head(db: string): string {
    "SELECT tenant_id, app, src, lvl, " + "pid, ts, msg, fields FROM " + db + ".logs WHERE tenant_id = ?"
  }

  datatype Places = NoPlaces | Places(n: nat, rest: string)

  /** A list of placeholders up to its closing parenthesis. */
  function ReadPlaces(s: string): (r: Places)
    ensures r.Places? ==> |r.rest| < |s|
  {
    if |s| < 2 || s[0] != '?' then NoPlaces
    else if s[1] == ')' then Places(1, s[2..])
    else if s[1] != ',' then NoPlaces
    else
      var r := ReadPlaces(s[2..]);
      if r.NoPlaces? then r else Places(r.n + 1, r.rest)
  }

  /** Whether an entry passes, and how many entries the query returns at most. */
  datatype Verdict = Verdict(passes: bool, limit: nat)

  function And(a: bool, r: Option<Verdict>): Option<Verdict> {
    if r.None? then None else Some(Verdict(a && r.value.passes, r.value.limit))
  }

  /** The end of a query: newest first, and a limit. */
  function ReadLimit(s: string): Option<Verdict> {
    if s == "" || !Text.AllDigits(s) then None else Some(Verdict(true, Text.DecimalValue(s)))
  }

  /** The conditions in `s`, each placeholder taking the next argument. None when the text
      is not a query, or the arguments do not line up or are not all used. */
  function Where(occurs: Occurs, s: string, args: seq<Arg>, e: Entry): Option<Verdict>
    decreases |s|
  {
    if " ORDER BY ts DESC LIMIT " <= s then if args == [] then ReadLimit(s[24..]) else None
    else if " AND app IN (" <= s then WhereIn(occurs, s[13..], args, e, Str(e.app))
    else if " AND src IN (" <= s then WhereIn(occurs, s[13..], args, e, Str(e.src))
    else if " AND lvl IN (" <= s then WhereIn(occurs, s[13..], args, e, Num(e.lvl))
    else if " AND ts >= ?" <= s then
      if args == [] || !args[0].Moment? then None
      else And(e.ts >= args[0].t, Where(occurs, s[12..], args[1..], e))
    else if " AND ts <= ?" <= s then
      if args == [] || !args[0].Moment? then None
      else And(e.ts <= args[0].t, Where(occurs, s[12..], args[1..], e))
    else if " AND fields[?] = ?" <= s then
      if |args| < 2 || !args[0].Str? || !args[1].Str? then None
      else And(FieldOf(e, args[0].s) == args[1].s, Where(occurs, s[18..], args[2..], e))
    else if " AND positionCaseInsensitiveUTF8(msg, ?) > 0" <= s then
      if args == [] || !args[0].Str? then None
      else And(occurs(e.msg, args[0].s), Where(occurs, s[44..], args[1..], e))
    else None
  }

  function WhereIn(occurs: Occurs, s: string, args: seq<Arg>, e: Entry, v: Arg): Option<Verdict>
    decreases |s|
  {
    var r := ReadPlaces(s);
    if r.NoPlaces? || |args| < r.n then None
    else And(v in args[..r.n], Where(occurs, r.rest, args[r.n..], e))
  }

  /** A whole query: its first placeholder is the tenant's. */
  function Selects(occurs: Occurs, db: string, sql: string, args: seq<Arg>, e: Entry): Option<Verdict> {
    var head := "SELECT tenant_id, app, src, lvl, " + "pid, ts, msg, fields FROM " + db + ".logs WHERE tenant_id = ?";
    if !(head <= sql) || args == [] || !args[0].Str? then None
    else And(e.tenant == args[0].s, Where(occurs, sql[|head|..], args[1..], e))
  }

  // ---- the generated query ----

  function Placeholders(n: nat): string
    requires n > 0
  {
    if n == 1 then "?" else "?," + Placeholders(n - 1)
  }

  function InList(head: string, n: nat): string { if n == 0 then "" else head + Placeholders(n) + ")" }

  function Strs(list: seq<string>): (r: seq<Arg>)
    ensures |r| == |list| && forall i :: 0 <= i < |r| ==> r[i] == Str(list[i])
  {
    seq(|list|, i requires 0 <= i < |list| => Str(list[i]))
  }

  function Nums(list: seq<nat>): (r: seq<Arg>)
    ensures |r| == |list| && forall i :: 0 <= i < |r| ==> r[i] == Num(list[i])
  {
    seq(|list|, i requires 0 <= i < |list| => Num(list[i]))
  }

  function Times(head: string, t: Option<Time>): string { if t.Some? then head else "" }

  function Moments(t: Option<Time>): seq<Arg> { if t.Some? then [Moment(t.value)] else [] }

  function Repeat(s: string, n: nat): string { if n == 0 then "" else s + Repeat(s, n - 1) }

  function FieldText(n: nat): string { Repeat(FIELD_EQ, n) }

  function FieldArgs(keys: seq<string>, m: map<string, string>): seq<Arg>
    requires forall i :: 0 <= i < |keys| ==> keys[i] in m
  {
    if keys == [] then [] else [Str(keys[0]), Str(m[keys[0]])] + FieldArgs(keys[1..], m)
  }

  function SearchText(search: string): string { if search != "" then SEARCH else "" }

  function SearchArgs(search: string): seq<Arg> { if search != "" then [Str(search)] else [] }

  function Effective(limit: int): nat { if limit <= 0 then DEFAULT_LIMIT else limit }

  function LimitText(limit: int): string { ORDER + Text.Decimal(Effective(limit)) }

  predicate Sorted(keys: seq<string>) {
    forall i, j :: 0 <= i < j < |keys| ==> Text.Less(keys[i], keys[j])
  }

  ghost predicate KeysOf(keys: seq<string>, m: map<string, string>) {
    forall k :: k in keys <==> k in m
  }

  /** The keys of a map in ascending order: one list only. */
  ghost predicate SortedKeysOf(keys: seq<string>, m: map<string, string>) { Sorted(keys) && KeysOf(keys, m) }

  // ---- the program ----

  method SortedKeys(m: map<string, string>) returns (keys: seq<string>)
    ensures SortedKeysOf(keys, m)
  {
    var list: seq<string> := [];
    var left := m.Keys;
    while left != {}
      invariant left <= m.Keys
      invariant forall k :: k in list <==> k in m && k !in left
      invariant Distinct(list)
      decreases left
    {
      var k :| k in left;
      left := left - {k};
      list := list + [k];
    }
    var a := new string[|list|](i requires 0 <= i < |list| => list[i]);
    assert a[..] == list;
    Sorting.InsertionSort(a);
    keys := a[..];
    SameElements(list, keys);
    forall i, j | 0 <= i < j < |keys| ensures Text.Less(keys[i], keys[j]) { Text.LessTotal(keys[i], keys[j]); }
  }

  lemma {:induction false} DistinctMultiset(s: seq<string>)
    ensures Distinct(s) <==> forall x :: multiset(s)[x] <= 1
    decreases |s|
  {
    if s != [] {
      var init, last := s[..|s| - 1], s[|s| - 1];
      assert s == init + [last];
      DistinctMultiset(init);
      if Distinct(s) {
        assert Distinct(init) && last !in init;
      } else if Distinct(init) {
        var i, j :| 0 <= i < j < |s| && s[i] == s[j];
        assert j == |s| - 1 && init[i] == last;
        assert multiset(s)[last] > 1;
      } else {
        var x :| multiset(init)[x] > 1;
        assert multiset(s)[x] > 1;
      }
    }
  }

  lemma SameElements(s: seq<string>, t: seq<string>)
    requires multiset(s) == multiset(t) && Distinct(s)
    ensures Distinct(t) && forall x :: x in s <==> x in t
  {
    DistinctMultiset(s);
    DistinctMultiset(t);
    forall x ensures x in s <==> x in t { assert x in multiset(s) <==> x in multiset(t); }
  }

  function Tail(p: Plan, keys: seq<string>): string {
    InList(APP_IN, |p.apps|) + (InList(SRC_IN, |p.srcs|) + (InList(LVL_IN, |p.levels|)
    + (Times(TS_FROM, p.from) + (Times(TS_TO, p.to)
      + (FieldText(|keys|) + (SearchText(p.search) + LimitText(p.limit)))))))
  }

  ghost function TailArgs(p: Plan, keys: seq<string>): seq<Arg>
    requires KeysOf(keys, p.fieldEq)
  {
    Strs(p.apps) + (Strs(p.srcs) + (Nums(p.levels)
    + (Moments(p.from) + (Moments(p.to) + (FieldArgs(keys, p.fieldEq) + SearchArgs(p.search))))))
  }

  lemma Regroup8(h: string, a: string, b: string, c: string, d: string, e: string, f: string, g: string, i: string)
    ensures h + a + b + c + d + e + f + g + i == h + (a + (b + (c + (d + (e + (f + (g + i)))))))
  {
    Regroup(h + a + b + c + d + e + f, g, i);
    Regroup(h + a + b + c + d + e, f, g + i);
    Regroup(h + a + b + c + d, e, f + (g + i));
    Regroup(h + a + b + c, d, e + (f + (g + i)));
    Regroup(h + a + b, c, d + (e + (f + (g + i))));
    Regroup(h + a, b, c + (d + (e + (f + (g + i)))));
    Regroup(h, a, b + (c + (d + (e + (f + (g + i))))));
  }

  lemma RegroupArgs(h: seq<Arg>, a: seq<Arg>, b: seq<Arg>, c: seq<Arg>, d: seq<Arg>, e: seq<Arg>, f: seq<Arg>,
      g: seq<Arg>)
    ensures h + a + b + c + d + e + f + g == h + (a + (b + (c + (d + (e + (f + g))))))
  {
    Regroup(h + a + b + c + d + e, f, g);
    Regroup(h + a + b + c + d, e, f + g);
    Regroup(h + a + b + c, d, e + (f + g));
    Regroup(h + a + b, c, d + (e + (f + g)));
    Regroup(h + a, b, c + (d + (e + (f + g))));
    Regroup(h, a, b + (c + (d + (e + (f + g)))));
  }

  /** The query for a plan, its field conditions in the order of `keys`. */
  ghost predicate Generated(db: string, p: Plan, keys: seq<string>, sql: string, args: seq<Arg>) {
    SortedKeysOf(keys, p.fieldEq) && sql == Head(db) + Tail(p, keys) && args == [Str(p.tenant)] + TailArgs(p, keys)
  }

  method BuildSql(db: string, p: Plan) returns (sql: string, args: seq<Arg>)
    ensures exists keys :: Generated(db, p, keys, sql, args)
  {
    hide Head, InList, Strs, Nums, FieldText, FieldArgs, LimitText, Sorted, Times, SearchText;
    ghost var none: seq<Arg> := [];
    sql, args := Head(db), [Str(p.tenant)];
    var text, more := ListClause(APP_IN, |p.apps|), Strs(p.apps);
    sql, args := sql + text, args + more;
    text, more := ListClause(SRC_IN, |p.srcs|), Strs(p.srcs);
    sql, args := sql + text, args + more;
    text, more := ListClause(LVL_IN, |p.levels|), Nums(p.levels);
    sql, args := sql + text, args + more;
    text, more := Times(TS_FROM, p.from), Moments(p.from);
    sql, args := sql + text, args + more;
    text, more := Times(TS_TO, p.to), Moments(p.to);
    sql, args := sql + text, args + more;
    var keys := SortedKeys(p.fieldEq);
    text, more := FieldClauses(keys, p.fieldEq);
    sql, args := sql + text, args + more;
    text, more := SearchText(p.search), SearchArgs(p.search);
    sql, args := sql + text, args + more;
    sql := sql + LimitText(p.limit);
    Regroup8(Head(db), InList(APP_IN, |p.apps|), InList(SRC_IN, |p.srcs|), InList(LVL_IN, |p.levels|),
             Times(TS_FROM, p.from), Times(TS_TO, p.to), FieldText(|keys|), SearchText(p.search), LimitText(p.limit));
    RegroupArgs([Str(p.tenant)], Strs(p.apps), Strs(p.srcs), Nums(p.levels), Moments(p.from), Moments(p.to),
                FieldArgs(keys, p.fieldEq), SearchArgs(p.search));
    assert Generated(db, p, keys, sql, args);
  }

  function ListClause(head: string, n: nat): (text: string)
    ensures text == InList(head, n)
  {
    if n > 0 then head + Placeholders(n) + ")" else ""
  }

  method FieldClauses(keys: seq<string>, m: map<string, string>) returns (text: string, args: seq<Arg>)
    requires KeysOf(keys, m)
    ensures text == FieldText(|keys|) && args == FieldArgs(keys, m)
  {
    hide FieldText, FieldArgs;
    text, args := "", [];
    assert keys[0..] == keys && text + FieldText(|keys|) == FieldText(|keys|);
    assert args + FieldArgs(keys, m) == FieldArgs(keys, m);
    for i := 0 to |keys|
      invariant FieldText(|keys|) == text + FieldText(|keys| - i)
      invariant FieldArgs(keys, m) == args + FieldArgs(keys[i..], m)
    {
      var k := keys[i];
      OneClause(text, |keys| - i);
      FieldArgsMore(keys, i, m);
      Regroup(args, [Str(k), Str(m[k])], FieldArgs(keys[i + 1..], m));
      text := text + FIELD_EQ;
      args := args + [Str(k), Str(m[k])];
    }
    FieldTextMore(0);
    NoFieldArgs(keys, m);
  }

  lemma OneClause(text: string, n: nat)
    requires n > 0
    ensures text + FieldText(n) == text + FIELD_EQ + FieldText(n - 1)
  {
    hide FieldText;
    FieldTextMore(n);
    Regroup(text, FIELD_EQ, FieldText(n - 1));
  }

  lemma FieldArgsMore(keys: seq<string>, i: nat, m: map<string, string>)
    requires i < |keys| && forall j :: 0 <= j < |keys| ==> keys[j] in m
    ensures FieldArgs(keys[i..], m) == [Str(keys[i]), Str(m[keys[i]])] + FieldArgs(keys[i + 1..], m)
  {
    assert keys[i..][1..] == keys[i + 1..];
  }

  lemma NoFieldArgs(keys: seq<string>, m: map<string, string>)
    ensures FieldArgs(keys[|keys|..], m) == []
  {
  }

  lemma FieldTextMore(n: nat)
    ensures FieldText(n) == if n == 0 then "" else FIELD_EQ + FieldText(n - 1)
  {
  }

  // ---- the query means the plan ----

  lemma NotPrefix(a: string, s: string, i: nat)
    requires i < |a| && i < |s| && a[i] != s[i]
    ensures !(a <= s)
  {
  }

  predicate IsHead(h: string) {
    h == APP_IN || h == SRC_IN || h == LVL_IN || h == TS_FROM || h == TS_TO || h == FIELD_EQ || h == SEARCH
  }

  /** The clauses are told apart by the text after " AND ". */
  lemma ClauseHeads(head: string, rest: string)
    requires IsHead(head)
    ensures var s := head + rest; !(ORDER <= s) && head <= s && s[|head|..] == rest
    ensures var s := head + rest;
      && (head != APP_IN ==> !(APP_IN <= s)) && (head != SRC_IN ==> !(SRC_IN <= s))
      && (head != LVL_IN ==> !(LVL_IN <= s))
      && (head != TS_FROM ==> !(TS_FROM <= s)) && (head != TS_TO ==> !(TS_TO <= s))
      && (head != FIELD_EQ ==> !(FIELD_EQ <= s)) && (head != SEARCH ==> !(SEARCH <= s))
  {
    NotPrefix(ORDER, head + rest, 1);
    if head != APP_IN { HeadsDiffer(APP_IN, head, rest); }
    if head != SRC_IN { HeadsDiffer(SRC_IN, head, rest); }
    if head != LVL_IN { HeadsDiffer(LVL_IN, head, rest); }
    if head != TS_FROM { HeadsDiffer(TS_FROM, head, rest); }
    if head != TS_TO { HeadsDiffer(TS_TO, head, rest); }
    if head != FIELD_EQ { HeadsDiffer(FIELD_EQ, head, rest); }
    if head != SEARCH { HeadsDiffer(SEARCH, head, rest); }
  }

  lemma HeadsDiffer(h: string, head: string, rest: string)
    requires IsHead(h) && IsHead(head) && h != head
    ensures !(h <= head + rest)
  {
    if h[5] != head[5] { NotPrefix(h, head + rest, 5); } else { NotPrefix(h, head + rest, 8); }
  }

  lemma {:induction false} PlacesRead(n: nat, rest: string)
    requires n > 0
    ensures ReadPlaces(Placeholders(n) + ")" + rest) == Places(n, rest)
  {
    var s := Placeholders(n) + ")" + rest;
    if n == 1 {
      assert s[0] == '?' && s[1] == ')' && s[2..] == rest;
    } else {
      assert s[0] == '?' && s[1] == ',' && s[2..] == Placeholders(n - 1) + ")" + rest;
      PlacesRead(n - 1, rest);
    }
  }

  lemma ListMeans(occurs: Occurs, head: string, v: Arg, vs: seq<Arg>, rest: string, more: seq<Arg>, e: Entry)
    requires (head, v) in {(APP_IN, Str(e.app)), (SRC_IN, Str(e.src)), (LVL_IN, Num(e.lvl))}
    ensures Where(occurs, InList(head, |vs|) + rest, vs + more, e)
         == if vs == [] then Where(occurs, rest, more, e) else And(v in vs, Where(occurs, rest, more, e))
  {
    var n := |vs|;
    if vs == [] {
      assert InList(head, 0) + rest == rest && vs + more == more;
    } else {
      var tail := Placeholders(n) + ")" + rest;
      Regroup(head, Placeholders(n), ")");
      Regroup(head, Placeholders(n) + ")", rest);
      ClauseHeads(head, tail);
      PlacesRead(n, rest);
      assert (vs + more)[..n] == vs && (vs + more)[n..] == more;
      hide Placeholders, ReadPlaces;
    }
  }

  lemma TimeMeans(occurs: Occurs, head: string, t: Option<Time>, rest: string, more: seq<Arg>, e: Entry)
    requires head == TS_FROM || head == TS_TO
    ensures Where(occurs, Times(head, t) + rest, Moments(t) + more, e)
         == if t.None? then Where(occurs, rest, more, e)
            else And(if head == TS_FROM then e.ts >= t.value else e.ts <= t.value, Where(occurs, rest, more, e))
  {
    if t.None? {
      assert Times(head, t) + rest == rest && Moments(t) + more == more;
    } else {
      ClauseHeads(head, rest);
      assert ([Moment(t.value)] + more)[1..] == more;
    }
  }

  predicate FieldsHold(keys: seq<string>, m: map<string, string>, e: Entry)
    requires forall i :: 0 <= i < |keys| ==> keys[i] in m
  {
    keys == [] || (FieldOf(e, keys[0]) == m[keys[0]] && FieldsHold(keys[1..], m, e))
  }

  lemma {:induction false} FieldsMean(occurs: Occurs, keys: seq<string>, m: map<string, string>, rest: string,
      more: seq<Arg>, e: Entry)
    requires forall i :: 0 <= i < |keys| ==> keys[i] in m
    requires Where(occurs, rest, more, e).Some?
    ensures Where(occurs, FieldText(|keys|) + rest, FieldArgs(keys, m) + more, e)
         == And(FieldsHold(keys, m, e), Where(occurs, rest, more, e))
    decreases |keys|
  {
    hide Where, FieldOf;
    if keys == [] {
      assert FieldText(0) + rest == rest && FieldArgs(keys, m) + more == more;
    } else {
      var k, text, args := keys[0], FieldText(|keys| - 1) + rest, FieldArgs(keys[1..], m) + more;
      Regroup(FIELD_EQ, FieldText(|keys| - 1), rest);
      Regroup([Str(k), Str(m[k])], FieldArgs(keys[1..], m), more);
      FieldMeans(occurs, k, m[k], text, args, e);
      FieldsMean(occurs, keys[1..], m, rest, more, e);
    }
  }

  lemma FieldMeans(occurs: Occurs, k: string, v: string, rest: string, more: seq<Arg>, e: Entry)
    ensures Where(occurs, FIELD_EQ + rest, [Str(k), Str(v)] + more, e)
      == And(FieldOf(e, k) == v, Where(occurs, rest, more, e))
  {
    ClauseHeads(FIELD_EQ, rest);
    assert ([Str(k), Str(v)] + more)[2..] == more;
  }

  lemma LimitMeans(occurs: Occurs, limit: int, e: Entry)
    ensures Where(occurs, LimitText(limit), [], e) == Some(Verdict(true, Effective(limit)))
  {
    var n := Text.Decimal(Effective(limit));
    Text.DecimalRoundTrip(Effective(limit));
    hide Text.Decimal, Text.DecimalValue;
    assert ORDER <= LimitText(limit) && LimitText(limit)[|ORDER|..] == n;
  }

  lemma SearchMeans(occurs: Occurs, search: string, limit: int, e: Entry)
    ensures Where(occurs, SearchText(search) + LimitText(limit), SearchArgs(search), e)
         == Some(Verdict(search == "" || occurs(e.msg, search), Effective(limit)))
  {
    LimitMeans(occurs, limit, e);
    hide LimitText;
    var rest := LimitText(limit);
    if search == "" {
      assert SearchText(search) + rest == rest;
    } else {
      ClauseHeads(SEARCH, rest);
      assert [Str(search)][1..] == [];
    }
  }

  lemma StrsIn(list: seq<string>, v: string)
    ensures Str(v) in Strs(list) <==> v in list
  {
    if v in list {
      var i :| 0 <= i < |list| && list[i] == v;
      assert Strs(list)[i] == Str(v);
    }
  }

  lemma NumsIn(list: seq<nat>, v: nat)
    ensures Num(v) in Nums(list) <==> v in list
  {
    if v in list {
      var i :| 0 <= i < |list| && list[i] == v;
      assert Nums(list)[i] == Num(v);
    }
  }

  lemma TailMeans(occurs: Occurs, p: Plan, keys: seq<string>, e: Entry)
    requires KeysOf(keys, p.fieldEq)
    ensures Where(occurs, Tail(p, keys), TailArgs(p, keys), e)
      == Some(Verdict(Filters(occurs, p, e) && InTime(p, e), Effective(p.limit)))
  {
    hide Where, InList, Strs, Nums, Times, Moments, FieldText, FieldArgs, SearchText, SearchArgs, LimitText;
    var t6, a6 := SearchText(p.search) + LimitText(p.limit), SearchArgs(p.search);
    var t5, a5 := FieldText(|keys|) + t6, FieldArgs(keys, p.fieldEq) + a6;
    var t4, a4 := Times(TS_TO, p.to) + t5, Moments(p.to) + a5;
    var t3, a3 := Times(TS_FROM, p.from) + t4, Moments(p.from) + a4;
    var t2, a2 := InList(LVL_IN, |p.levels|) + t3, Nums(p.levels) + a3;
    var t1, a1 := InList(SRC_IN, |p.srcs|) + t2, Strs(p.srcs) + a2;
    SearchMeans(occurs, p.search, p.limit, e);
    FieldsMean(occurs, keys, p.fieldEq, t6, a6, e);
    FieldsAre(p, keys, e);
    TimeMeans(occurs, TS_TO, p.to, t5, a5, e);
    TimeMeans(occurs, TS_FROM, p.from, t4, a4, e);
    ListMeans(occurs, LVL_IN, Num(e.lvl), Nums(p.levels), t3, a3, e);
    NumsIn(p.levels, e.lvl);
    ListMeans(occurs, SRC_IN, Str(e.src), Strs(p.srcs), t2, a2, e);
    StrsIn(p.srcs, e.src);
    ListMeans(occurs, APP_IN, Str(e.app), Strs(p.apps), t1, a1, e);
    StrsIn(p.apps, e.app);
  }

  lemma FieldsAre(p: Plan, keys: seq<string>, e: Entry)
    requires KeysOf(keys, p.fieldEq)
    ensures FieldsMatch(p, e) <==> FieldsHold(keys, p.fieldEq, e)
  {
    FieldsHoldEach(keys, p.fieldEq, e);
    hide FieldOf, FieldsHold;
    if forall i :: 0 <= i < |keys| ==> FieldOf(e, keys[i]) == p.fieldEq[keys[i]] {
      forall k | k in p.fieldEq ensures FieldOf(e, k) == p.fieldEq[k] {
        assert k in keys;
      }
    }
  }

  lemma {:induction false} FieldsHoldEach(keys: seq<string>, m: map<string, string>, e: Entry)
    requires forall i :: 0 <= i < |keys| ==> keys[i] in m
    ensures FieldsHold(keys, m, e) <==> forall i :: 0 <= i < |keys| ==> FieldOf(e, keys[i]) == m[keys[i]]
    decreases |keys|
  {
    hide FieldOf;
    if keys != [] {
      FieldsHoldEach(keys[1..], m, e);
      assert keys == [keys[0]] + keys[1..];
    }
  }

  /** The limit of a plan; one that is not positive stands for 100. */
  function AtMost(limit: int): nat { if limit > 0 then limit else 100 }

  lemma HeadReads(db: string)
    ensures Head(db)
      == "SELECT tenant_id, app, src, lvl, " + "pid, ts, msg, fields FROM " + db + ".logs WHERE tenant_id = ?"
  {
  }

  /** The generated query, its placeholders bound by position, selects exactly the entries
      of the plan's tenant that pass its filters within its time bounds, up to its limit. */
  lemma SqlMeansPlan(occurs: Occurs, db: string, p: Plan, keys: seq<string>, e: Entry)
    requires KeysOf(keys, p.fieldEq)
    ensures Selects(occurs, db, Head(db) + Tail(p, keys), [Str(p.tenant)] + TailArgs(p, keys), e)
         == Some(Verdict(e.tenant == p.tenant && Filters(occurs, p, e) && InTime(p, e), AtMost(p.limit)))
  {
    HeadReads(db);
    hide Where, Tail, TailArgs, Filters, Head;
    var sql, args := Head(db) + Tail(p, keys), [Str(p.tenant)] + TailArgs(p, keys);
    assert sql[|Head(db)|..] == Tail(p, keys) && args[1..] == TailArgs(p, keys);
    TailMeans(occurs, p, keys, e);
  }

  /** The live tail and the database agree on every entry if and only if the plan names a
      tenant or its time bounds let nothing through. (`occurs` finds a text in itself.) */
  lemma AgreementExactly(occurs: Occurs, db: string, p: Plan, keys: seq<string>)
    requires KeysOf(keys, p.fieldEq) && forall s :: occurs(s, s)
    ensures (forall e :: Selects(occurs, db, Head(db) + Tail(p, keys), [Str(p.tenant)] + TailArgs(p, keys), e)
                      == Some(Verdict(Accepts(occurs, p, e) && InTime(p, e), AtMost(p.limit))))
       <==> p.tenant != "" || (p.from.Some? && p.to.Some? && p.from.value > p.to.value)
  {
    hide Selects, Tail, TailArgs, Head;
    forall e ensures Selects(occurs, db, Head(db) + Tail(p, keys), [Str(p.tenant)] + TailArgs(p, keys), e)
                  == Some(Verdict(e.tenant == p.tenant && Filters(occurs, p, e) && InTime(p, e), AtMost(p.limit))) {
      SqlMeansPlan(occurs, db, p, keys, e);
    }
    if p.tenant == "" && !(p.from.Some? && p.to.Some? && p.from.value > p.to.value) {
      var e := Witness(occurs, p);
      assert Selects(occurs, db, Head(db) + Tail(p, keys), [Str(p.tenant)] + TailArgs(p, keys), e)
        == Some(Verdict(false, AtMost(p.limit)));
      assert Accepts(occurs, p, e) && InTime(p, e);
    }
  }

  /** An entry of some tenant that passes all the other filters. */
  lemma Witness(occurs: Occurs, p: Plan) returns (e: Entry)
    requires !(p.from.Some? && p.to.Some? && p.from.value > p.to.value) && forall s :: occurs(s, s)
    ensures e.tenant != "" && Filters(occurs, p, e) && InTime(p, e)
  {
    e := Entry("default",
               if p.from.Some? then p.from.value else if p.to.Some? then p.to.value else 0,
               if p.apps != [] then p.apps[0] else "", if p.srcs != [] then p.srcs[0] else "",
               if p.levels != [] then p.levels[0] else 0, "", p.search, p.fieldEq);
  }

  // ---- placeholders and arguments ----

  function Marks(s: string): nat {
    if s == "" then 0 else (if s[0] == '?' then 1 else 0) + Marks(s[1..])
  }

  lemma {:induction false} MarksConcat(a: string, b: string)
    ensures Marks(a + b) == Marks(a) + Marks(b)
    decreases |a|
  {
    if a == "" {
      assert a + b == b;
    } else {
      assert (a + b)[1..] == a[1..] + b;
      MarksConcat(a[1..], b);
    }
  }

  lemma {:induction false} NoMarks(s: string)
    requires '?' !in s
    ensures Marks(s) == 0
    decreases |s|
  {
    if s != "" { NoMarks(s[1..]); }
  }

  /** A text whose only mark is its last character but for `after`. */
  lemma OneMark(before: string, after: string)
    requires '?' !in before && '?' !in after
    ensures Marks(before + "?" + after) == 1
  {
    MarksConcat(before + "?", after);
    MarksConcat(before, "?");
    NoMarks(before);
    NoMarks(after);
    assert "?"[1..] == "";
  }

  lemma TimeMarks()
    ensures Marks(TS_FROM) == 1 && Marks(TS_TO) == 1
  {
    hide Marks;
    OneMark(" AND ts >= ", "");
    OneMark(" AND ts <= ", "");
    assert TS_FROM == " AND ts >= " + "?" + "" && TS_TO == " AND ts <= " + "?" + "";
  }

  lemma SearchMarks()
    ensures Marks(SEARCH) == 1
  {
    hide Marks;
    OneMark(" AND positionCaseInsensitiveUTF8(msg, ", ") > 0");
    assert SEARCH == " AND positionCaseInsensitiveUTF8(msg, " + "?" + ") > 0";
  }

  lemma FieldEqMarks()
    ensures Marks(FIELD_EQ) == 2
  {
    hide Marks;
    OneMark(" AND fields[", "] = ");
    OneMark("", "");
    MarksConcat(" AND fields[" + "?" + "] = ", "" + "?" + "");
    assert FIELD_EQ == (" AND fields[" + "?" + "] = ") + ("" + "?" + "");
  }

  lemma ListHeadMarks()
    ensures Marks(APP_IN) == 0 && Marks(SRC_IN) == 0 && Marks(LVL_IN) == 0 && Marks(ORDER) == 0
  {
    hide Marks;
    NoMarks(APP_IN);
    NoMarks(SRC_IN);
    NoMarks(LVL_IN);
    NoMarks(ORDER);
  }

  lemma {:induction false} PlaceMarks(n: nat)
    requires n > 0
    ensures Marks(Placeholders(n)) == n
  {
    MarksConcat("?", ",");
    assert "?"[1..] == "" && ","[1..] == "" && "?" + "," == "?,";
    if n > 1 {
      PlaceMarks(n - 1);
      MarksConcat("?,", Placeholders(n - 1));
    }
  }

  lemma ListMarks(head: string, n: nat)
    requires Marks(head) == 0
    ensures Marks(InList(head, n)) == n
  {
    if n > 0 {
      PlaceMarks(n);
      MarksConcat(head + Placeholders(n), ")");
      MarksConcat(head, Placeholders(n));
      assert ")"[1..] == "";
    }
  }

  lemma FieldMarks(n: nat)
    ensures Marks(FieldText(n)) == 2 * n
  {
    FieldEqMarks();
    hide Marks;
    RepeatMarks(FIELD_EQ, n);
  }

  lemma {:induction false} RepeatMarks(s: string, n: nat)
    requires Marks(s) == 2
    ensures Marks(Repeat(s, n)) == 2 * n
  {
    if n > 0 {
      hide Marks;
      RepeatMarks(s, n - 1);
      MarksConcat(s, Repeat(s, n - 1));
    }
  }

  lemma {:induction false} FieldArgsLength(keys: seq<string>, m: map<string, string>)
    requires forall i :: 0 <= i < |keys| ==> keys[i] in m
    ensures |FieldArgs(keys, m)| == 2 * |keys|
    decreases |keys|
  {
    if keys != [] { FieldArgsLength(keys[1..], m); }
  }

  lemma LimitMarks(limit: int)
    ensures Marks(LimitText(limit)) == 0
  {
    ListHeadMarks();
    hide Marks, Text.Decimal;
    var n := Text.Decimal(Effective(limit));
    MarksConcat(ORDER, n);
    NoMarks(n);
  }

  lemma HeadMarks(db: string)
    ensures Marks(Head(db)) == Marks(db) + 1
  {
    hide Marks;
    var a, b, c := "SELECT tenant_id, app, src, lvl, ", "pid, ts, msg, fields FROM ", ".logs WHERE tenant_id = ";
    MarksConcat(a + b + db, c + "?" + "");
    MarksConcat(a + b, db);
    MarksConcat(a, b);
    NoMarks(a);
    NoMarks(b);
    OneMark(c, "");
    assert c + "?" + "" == ".logs WHERE tenant_id = ?";
  }

  /** As many placeholders as arguments, for any database name without a question mark. */
  lemma PlaceholdersMatchArgs(db: string, p: Plan, keys: seq<string>)
    requires KeysOf(keys, p.fieldEq) && '?' !in db
    ensures Marks(Head(db) + Tail(p, keys)) == |[Str(p.tenant)] + TailArgs(p, keys)|
  {
    hide Head, Marks, InList, FieldText, FieldArgs, LimitText;
    var t6 := SearchText(p.search) + LimitText(p.limit);
    var t5 := FieldText(|keys|) + t6;
    var t4 := Times(TS_TO, p.to) + t5;
    var t3 := Times(TS_FROM, p.from) + t4;
    var t2 := InList(LVL_IN, |p.levels|) + t3;
    var t1 := InList(SRC_IN, |p.srcs|) + t2;
    TimeMarks();
    SearchMarks();
    ListHeadMarks();
    NoMarks("");
    NoMarks(db);
    HeadMarks(db);
    LimitMarks(p.limit);
    FieldMarks(|keys|);
    FieldArgsLength(keys, p.fieldEq);
    ListMarks(APP_IN, |p.apps|);
    ListMarks(SRC_IN, |p.srcs|);
    ListMarks(LVL_IN, |p.levels|);
    MarksConcat(Head(db), Tail(p, keys));
    MarksConcat(InList(APP_IN, |p.apps|), t1);
    MarksConcat(InList(SRC_IN, |p.srcs|), t2);
    MarksConcat(InList(LVL_IN, |p.levels|), t3);
    MarksConcat(Times(TS_FROM, p.from), t4);
    MarksConcat(Times(TS_TO, p.to), t5);
    MarksConcat(FieldText(|keys|), t6);
    MarksConcat(SearchText(p.search), LimitText(p.limit));
  }

  /** A condition on a field that an entry does not have is one on an empty text. */
  lemma AbsentField(occurs: Occurs, k: string, v: string, e: Entry)
    requires k !in e.fields
    ensures Filters(occurs, Plan("", [], [], [], None, None, map[k := v], "", 0), e) <==> v == ""
  {
    var p := Plan("", [], [], [], None, None, map[k := v], "", 0);
    assert k in p.fieldEq && p.fieldEq[k] == v;
  }
}
