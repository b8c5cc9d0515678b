/** The query plan of a search request: what each URL parameter contributes. */
module Plans {
  import opened Common
  import opened Model
  import Bytes
  import Match
  import Query
  import Text

  /** Parameters by name, each with its values in order. */
  type Values = map<string, seq<string>>

  /** The time parser of the library, left open. */
  type TimeParser = string -> Option<Time>

  const DEFAULT_TENANT := "default"
  const MAX_LIMIT := 10_000
  const FIELD := "field."

  function ListOf(values: Values, name: string): seq<string> { if name in values then values[name] else [] }

  /** The first value of a parameter, or nothing. */
  function Get(values: Values, name: string): string {
    var list := ListOf(values, name);
    if list == [] then "" else list[0]
  }

  // ---- levels ----

  /** The pieces between commas. */
  function Split(s: string): (parts: seq<string>)
    ensures parts != []
  {
    if s == "" then [""]
    else if s[0] == ',' then [""] + Split(s[1..])
    else
      var parts := Split(s[1..]);
      [[s[0]] + parts[0]] + parts[1..]
  }

  function Join(parts: seq<string>): string {
    if parts == [] then ""
    else if |parts| == 1 then parts[0]
    else parts[0] + "," + Join(parts[1..])
  }

  /** White space as Unicode has it. */
  predicate Blank(c: char) {
    c == ' ' || '\t' <= c <= '\r' || c == '\U{85}' || c == '\U{A0}' || c == '\U{1680}' || '\U{2000}' <= c <= '\U{200A}'
    || c == '\U{2028}' || c == '\U{2029}' || c == '\U{202F}' || c == '\U{205F}' || c == '\U{3000}'
  }

  function TrimLeft(s: string): string { if s != "" && Blank(s[0]) then TrimLeft(s[1..]) else s }

  function TrimRight(s: string): string {
    if s != "" && Blank(s[|s| - 1]) then TrimRight(s[..|s| - 1]) else s
  }

  function Trim(s: string): string { TrimRight(TrimLeft(s)) }

  /** A level as a request writes it: its number, or its name in any case; an unknown
      name stands for INFO. */
  ghost predicate Denotes(w: string, l: Level) {
    if |w| == 1 && '0' <= w[0] <= '6' then l == (w[0] - '0') as nat
    else Match.Names(w, l) || (l == INFO && !Match.KnownLevel(w))
  }

  lemma OneLevel(w: string, l: Level, l': Level)
    requires Denotes(w, l) && Denotes(w, l')
    ensures l == l'
  {
    if Match.Names(w, l) && Match.Names(w, l') { Match.NameUnique(w, l, l'); }
  }

  /** The levels named by the pieces of a list, empty pieces aside. */
  ghost predicate AllDenote(parts: seq<string>, ls: seq<Level>)
    decreases |parts|
  {
    if parts == [] then ls == []
    else
      var w := Trim(parts[0]);
      if w == "" then AllDenote(parts[1..], ls)
      else ls != [] && Denotes(w, ls[0]) && AllDenote(parts[1..], ls[1..])
  }

  function Pieces(raws: seq<string>): seq<string> {
    if raws == [] then [] else Split(raws[0]) + Pieces(raws[1..])
  }

  lemma {:induction false} AllDenoteConcat(parts: seq<string>, more: seq<string>, ls: seq<Level>, ms: seq<Level>)
    requires AllDenote(parts, ls) && AllDenote(more, ms)
    ensures AllDenote(parts + more, ls + ms)
    decreases |parts|
  {
    hide Trim, Denotes;
    if parts == [] {
      assert parts + more == more && ls + ms == ms;
    } else {
      assert (parts + more)[1..] == parts[1..] + more;
      if Trim(parts[0]) == "" {
        AllDenoteConcat(parts[1..], more, ls, ms);
      } else {
        AllDenoteConcat(parts[1..], more, ls[1..], ms);
        assert (ls + ms)[1..] == ls[1..] + ms;
      }
    }
  }

  /** What a list denotes is determined. */
  lemma {:induction false} LevelsUnique(parts: seq<string>, ls: seq<Level>, ms: seq<Level>)
    requires AllDenote(parts, ls) && AllDenote(parts, ms)
    ensures ls == ms
    decreases |parts|
  {
    hide Trim, Denotes;
    if parts != [] {
      if Trim(parts[0]) == "" {
        LevelsUnique(parts[1..], ls, ms);
      } else {
        OneLevel(Trim(parts[0]), ls[0], ms[0]);
        LevelsUnique(parts[1..], ls[1..], ms[1..]);
        assert ls == [ls[0]] + ls[1..] && ms == [ms[0]] + ms[1..];
      }
    }
  }

  method ParsePieces(parts: seq<string>) returns (levels: seq<Level>)
    ensures AllDenote(parts, levels)
  {
    hide Trim, Denotes;
    levels := [];
    for i := 0 to |parts|
      invariant AllDenote(parts[..i], levels)
    {
      var part := Trim(parts[i]);
      assert parts[..i + 1] == parts[..i] + [parts[i]];
      if part == "" {
        Piece(parts[i], []);
        AllDenoteConcat(parts[..i], [parts[i]], levels, []);
        assert levels + [] == levels;
        continue;
      }
      var l := LevelOf(part);
      Piece(parts[i], [l]);
      AllDenoteConcat(parts[..i], [parts[i]], levels, [l]);
      levels := levels + [l];
    }
    assert parts[..|parts|] == parts;
  }

  method LevelOf(part: string) returns (l: Level)
    ensures Denotes(part, l)
  {
    if |part| == 1 && '0' <= part[0] <= '6' {
      l := (part[0] - '0') as nat;
    } else {
      l := Match.ParseLevel(part);
    }
  }

  lemma Piece(part: string, ls: seq<Level>)
    requires if Trim(part) == "" then ls == [] else |ls| == 1 && Denotes(Trim(part), ls[0])
    ensures AllDenote([part], ls)
  {
    hide Trim, Denotes;
  }

  method ParseLevels(raws: seq<string>) returns (levels: seq<Level>)
    ensures AllDenote(Pieces(raws), levels)
  {
    hide Denotes, Trim, Split, AllDenote;
    levels := [];
    NoPieces();
    for i := 0 to |raws|
      invariant AllDenote(Pieces(raws[..i]), levels)
    {
      var more := ParsePieces(Split(raws[i]));
      PiecesMore(raws[..i], raws[i]);
      assert raws[..i + 1] == raws[..i] + [raws[i]];
      AllDenoteConcat(Pieces(raws[..i]), Split(raws[i]), levels, more);
      levels := levels + more;
    }
    assert raws[..|raws|] == raws;
  }

  lemma NoPieces()
    ensures AllDenote(Pieces([]), [])
  {
  }

  lemma {:induction false} PiecesMore(raws: seq<string>, raw: string)
    ensures Pieces(raws + [raw]) == Pieces(raws) + Split(raw)
  {
    hide Split;
    if raws == [] {
      assert Pieces([raw]) == Split(raw) + Pieces([]) == Split(raw) by { assert [raw][1..] == []; }
    } else {
      assert (raws + [raw])[1..] == raws[1..] + [raw];
      PiecesMore(raws[1..], raw);
      assert Split(raws[0]) + (Pieces(raws[1..]) + Split(raw)) == Split(raws[0]) + Pieces(raws[1..]) + Split(raw);
    }
  }

  lemma {:induction false} SplitPlain(a: string, s: string)
    requires ',' !in a
    ensures s == "" ==> Split(a + s) == [a]
    ensures s != "" && s[0] == ',' ==> Split(a + s) == [a] + Split(s[1..])
    decreases |a|
  {
    if a == "" {
      assert a + s == s;
    } else {
      assert (a + s)[1..] == a[1..] + s;
      SplitPlain(a[1..], s);
      assert a == [a[0]] + a[1..];
    }
  }

  lemma {:induction false} SplitInvertsJoin(parts: seq<string>)
    requires parts != [] && forall i :: 0 <= i < |parts| ==> ',' !in parts[i]
    ensures Split(Join(parts)) == parts
    decreases |parts|
  {
    hide Split;
    if |parts| == 1 {
      SplitPlain(parts[0], "");
      assert parts[0] + "" == parts[0] && parts == [parts[0]];
    } else {
      var first, others := parts[0], parts[1..];
      forall i | 0 <= i < |others| ensures ',' !in others[i] { assert others[i] == parts[i + 1]; }
      SplitInvertsJoin(others);
      var s := "," + Join(others);
      assert first + "," + Join(others) == first + s;
      hide Join;
      SplitPlain(first, s);
      assert s[1..] == Join(others);
      assert parts == [first] + others;
    }
  }

  /** A level as a client may write it: a digit or a name in any case, between blanks. */
  ghost predicate Writes(part: string, l: Level) {
    ',' !in part && Trim(part) != "" && Denotes(Trim(part), l)
  }

  /** Any list of levels, however each is written, joined by commas, reads as that list. */
  lemma LevelsRead(parts: seq<string>, ls: seq<Level>, read: seq<Level>)
    requires parts != [] && |ls| == |parts| && forall i :: 0 <= i < |parts| ==> Writes(parts[i], ls[i])
    requires AllDenote(Pieces([Join(parts)]), read)
    ensures read == ls
  {
    hide Trim, Denotes, Split, AllDenote, Join;
    assert forall i :: 0 <= i < |parts| ==> ',' !in parts[i] by {
      forall i | 0 <= i < |parts| ensures ',' !in parts[i] { assert Writes(parts[i], ls[i]); }
    }
    SplitInvertsJoin(parts);
    OnePiece(Join(parts));
    EachDenotes(parts, ls);
    LevelsUnique(parts, ls, read);
  }

  lemma OnePiece(raw: string)
    ensures Pieces([raw]) == Split(raw)
  {
    hide Split;
    PiecesMore([], raw);
    assert [] + [raw] == [raw] && [] + Split(raw) == Split(raw);
  }

  lemma {:induction false} EachDenotes(parts: seq<string>, ls: seq<Level>)
    requires |ls| == |parts| && forall i :: 0 <= i < |parts| ==> Writes(parts[i], ls[i])
    ensures AllDenote(parts, ls)
    decreases |parts|
  {
    hide Trim, Denotes;
    if parts != [] {
      assert Writes(parts[0], ls[0]);
      EachDenotes(parts[1..], ls[1..]);
    }
  }

  // ---- the limit ----

  /** Absent, the default; otherwise a positive number, capped. */
  function ParseLimit(raw: string): (r: Option<int>)
    ensures r.Some? ==> 1 <= r.value <= MAX_LIMIT
  {
    if raw == "" then Some(Query.DEFAULT_LIMIT)
    else
      match Text.Atoi(raw)
      case None => None
      case Some(n) => if n <= 0 then None else if n > MAX_LIMIT then Some(MAX_LIMIT) else Some(n)
  }

  /** A limit the client writes in decimal is the limit, up to the cap. */
  lemma LimitReads(n: nat)
    requires Bytes.IsInt64(n)
    ensures ParseLimit(Text.Decimal(n))
         == if n == 0 then None else Some(if n > 10_000 then 10_000 else n)
  {
    Text.AtoiReads(n);
    hide Text.Atoi, Text.Decimal;
  }

  // ---- the whole request ----

  function ParseTime(time: TimeParser, raw: string): Option<Option<Time>> {
    if raw == "" then Some(None)
    else
      match time(raw)
      case None => None
      case Some(t) => Some(Some(t))
  }

  predicate AsksField(values: Values, name: string) { name != "" && ListOf(values, FIELD + name) != [] }

  ghost predicate FieldsAsked(values: Values, eq: map<string, string>) {
    && (forall name :: name in eq <==> AsksField(values, name))
    && (forall name :: name in eq ==> eq[name] == Get(values, FIELD + name))
  }

  method ParseFields(values: Values) returns (eq: map<string, string>)
    ensures FieldsAsked(values, eq)
  {
    eq := map[];
    var left := values.Keys;
    while left != {}
      invariant left <= values.Keys
      invariant forall name :: name in eq <==> AsksField(values, name) && FIELD + name !in left
      invariant forall name :: name in eq ==> eq[name] == Get(values, FIELD + name)
      decreases left
    {
      var key :| key in left;
      left := left - {key};
      if FIELD <= key && key[|FIELD|..] != "" && |values[key]| > 0 {
        eq := eq[key[|FIELD|..] := values[key][0]];
        assert key == FIELD + key[|FIELD|..];
      }
      assert forall name :: FIELD + name == key ==> name == key[|FIELD|..];
    }
  }

  ghost predicate Asks(time: TimeParser, values: Values, p: Query.Plan) {
    && p.tenant == DEFAULT_TENANT && p.apps == ListOf(values, "app") && p.srcs == ListOf(values, "src")
    && AllDenote(Pieces(ListOf(values, "lvl")), p.levels)
    && ParseTime(time, Get(values, "from")) == Some(p.from) && ParseTime(time, Get(values, "to")) == Some(p.to)
    && FieldsAsked(values, p.fieldEq) && p.search == Get(values, "q")
    && ParseLimit(Get(values, "limit")) == Some(p.limit)
  }

  /** Fails exactly on a time or a limit that does not parse. */
  method ParsePlan(time: TimeParser, values: Values) returns (p: Option<Query.Plan>)
    ensures p.None? <==>
      || ParseTime(time, Get(values, "from")).None? || ParseTime(time, Get(values, "to")).None?
      || ParseLimit(Get(values, "limit")).None?
    ensures p.Some? ==> Asks(time, values, p.value)
  {
    hide AllDenote, ParseLimit, FieldsAsked;
    var levels := ParseLevels(ListOf(values, "lvl"));
    var from := ParseTime(time, Get(values, "from"));
    if from.None? { return None; }
    var to := ParseTime(time, Get(values, "to"));
    if to.None? { return None; }
    var eq := ParseFields(values);
    var limit := ParseLimit(Get(values, "limit"));
    if limit.None? { return None; }
    return Some(Query.Plan(DEFAULT_TENANT, ListOf(values, "app"), ListOf(values, "src"), levels,
                           from.value, to.value, eq, Get(values, "q"), limit.value));
  }

  /** Every request is answered alike by the database and the live tail: the query of its
      plan selects exactly the entries the tail lets through, within the time bounds, and
      at most the limit asked for. */
  lemma RequestsAgree(occurs: Query.Occurs, time: TimeParser, values: Values, p: Query.Plan,
                      db: string, keys: seq<string>, sql: string, args: seq<Query.Arg>, e: Entry)
    requires Asks(time, values, p) && Query.Generated(db, p, keys, sql, args)
    ensures Query.Selects(occurs, db, sql, args, e)
         == Some(Query.Verdict(Query.Accepts(occurs, p, e) && Query.InTime(p, e), p.limit))
    ensures 1 <= p.limit <= 10_000
  {
    hide Query.Selects, Query.Tail, Query.TailArgs, Query.Head, Query.Sorted, AllDenote, FieldsAsked;
    Query.SqlMeansPlan(occurs, db, p, keys, e);
  }

  /** A request determines its plan. */
  lemma PlanUnique(time: TimeParser, values: Values, p: Query.Plan, q: Query.Plan)
    requires Asks(time, values, p) && Asks(time, values, q)
    ensures p == q
  {
    LevelsUnique(Pieces(ListOf(values, "lvl")), p.levels, q.levels);
    hide AllDenote, Pieces;
    assert p.fieldEq == q.fieldEq;
  }

  // ---- what a request says ----

  /** A request without parameters asks for the newest hundred entries of the tenant. */
  lemma EmptyRequest(time: TimeParser, p: Query.Plan)
    ensures Asks(time, map[], p) <==> p == Query.Plan("default", [], [], [], None, None, map[], "", 100)
  {
    NoPieces();
    var q := Query.Plan("default", [], [], [], None, None, map[], "", 100);
    assert Pieces(ListOf(map[], "lvl")) == [];
    assert Asks(time, map[], q);
    if Asks(time, map[], p) { PlanUnique(time, map[], p, q); }
  }

  /** The first value of a parameter is what counts. */
  predicate Says(values: Values, name: string, v: string) {
    name in values && values[name] != [] && values[name][0] == v
  }

  /** The conditions on fields are the parameters `field.` and a name. */
  ghost predicate FieldsFrom(values: Values, eq: map<string, string>) {
    forall k, v :: k in eq && eq[k] == v <==> k != "" && Says(values, "field." + k, v)
  }

  /** What each parameter of a request contributes to its plan. */
  lemma RequestReads(time: TimeParser, values: Values, p: Query.Plan, parts: seq<string>, ls: seq<Level>,
      from: string, to: string, n: nat)
    requires Asks(time, values, p)
    requires "lvl" in values && values["lvl"] == [Join(parts)] && parts != [] && |ls| == |parts|
    requires forall i :: 0 <= i < |parts| ==> Writes(parts[i], ls[i])
    requires Says(values, "from", from) && from != "" && Says(values, "to", to) && to != ""
    requires Says(values, "limit", Text.Decimal(n)) && Bytes.IsInt64(n)
    ensures p.tenant == "default" && p.levels == ls
    ensures p.apps == (if "app" in values then values["app"] else [])
    ensures p.srcs == (if "src" in values then values["src"] else [])
    ensures p.from == time(from) && p.from.Some? && p.to == time(to) && p.to.Some?
    ensures p.search == if "q" in values && values["q"] != [] then values["q"][0] else ""
    ensures n > 0 && p.limit == if n > 10_000 then 10_000 else n
    ensures FieldsFrom(values, p.fieldEq)
  {
    hide AllDenote, Pieces, ParseLimit, Text.Decimal, FieldsAsked, Writes, ParseTime, FieldsFrom;
    LevelsRead(parts, ls, p.levels);
    LimitReads(n);
    TimeReads(time, from, p.from);
    TimeReads(time, to, p.to);
    FieldsRead(values, p.fieldEq);
  }

  lemma TimeReads(time: TimeParser, raw: string, t: Option<Time>)
    requires raw != "" && ParseTime(time, raw) == Some(t)
    ensures t.Some? && time(raw) == t
  {
  }

  lemma FieldsRead(values: Values, eq: map<string, string>)
    requires FieldsAsked(values, eq)
    ensures FieldsFrom(values, eq)
  {
    forall k, v ensures k in eq && eq[k] == v <==> k != "" && Says(values, "field." + k, v) {
      assert k in eq <==> AsksField(values, k);
    }
  }

  /** Which requests fail: exactly those with a time or a limit that is given and does not
      parse, or a limit that is not positive. */
  lemma FailsExactly(time: TimeParser, values: Values)
    ensures ParseTime(time, Get(values, "from")).None? <==>
      exists t :: Says(values, "from", t) && t != "" && time(t).None?
    ensures ParseTime(time, Get(values, "to")).None? <==>
      exists t :: Says(values, "to", t) && t != "" && time(t).None?
    ensures ParseLimit(Get(values, "limit")).None? <==>
      exists t :: Says(values, "limit", t) && t != "" && (Text.Atoi(t).None? || Text.Atoi(t).value <= 0)
  {
    hide Text.Atoi;
    forall name: string, t: string ensures Says(values, name, t) ==> Get(values, name) == t {}
    forall name: string ensures Get(values, name) != "" ==> Says(values, name, Get(values, name)) {}
  }

  /** White space, by the codes. */
  lemma BlankExactly(c: char)
    ensures Blank(c) <==>
      var n := c as int;
      9 <= n <= 13 || n in {32, 0x85, 0xA0, 0x1680, 0x2028, 0x2029, 0x202F, 0x205F, 0x3000} || 0x2000 <= n <= 0x200A
  {
  }

  /** Trimming takes off blanks at both ends and nothing else. */
  lemma TrimExactly(a: string, t: string, b: string)
    requires (forall i :: 0 <= i < |a| ==> Blank(a[i])) && (forall i :: 0 <= i < |b| ==> Blank(b[i]))
    requires t != "" && !Blank(t[0]) && !Blank(t[|t| - 1])
    ensures Trim(a + t + b) == t
  {
    hide Blank;
    Regroup(a, t, b);
    TrimFront(a, t + b);
    TrimBack(t, b);
  }

  lemma {:induction false} TrimFront(a: string, s: string)
    requires (forall i :: 0 <= i < |a| ==> Blank(a[i])) && s != "" && !Blank(s[0])
    ensures TrimLeft(a + s) == s
    decreases |a|
  {
    hide Blank;
    if a == "" {
      assert a + s == s;
    } else {
      assert (a + s)[0] == a[0] && (a + s)[1..] == a[1..] + s;
      TrimFront(a[1..], s);
    }
  }

  lemma {:induction false} TrimBack(s: string, b: string)
    requires (forall i :: 0 <= i < |b| ==> Blank(b[i])) && s != "" && !Blank(s[|s| - 1])
    ensures TrimRight(s + b) == s
    decreases |b|
  {
    hide Blank;
    if b == "" {
      assert s + b == s;
    } else {
      var n := |b| - 1;
      assert (s + b)[|s + b| - 1] == b[n] && (s + b)[..|s + b| - 1] == s + b[..n];
      TrimBack(s, b[..n]);
    }
  }
}
