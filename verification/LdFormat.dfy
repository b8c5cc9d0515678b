/** The ld_format parser: events of text pairs and binary pairs, in two dialects that
    differ by one newline. */
module LdFormat {
  import opened Common
  import opened Bytes
  import opened Reading

  type Fields = map<bytes, bytes>

  const HEADER: bytes := [6, 3]
  const MAX_KEY := 256
  const MAX_VALUE := 0x100_0000

  // ---- what the parser computes ----

  datatype Key = Key(key: bytes, delim: byte, rest: bytes) | BadKey(err: Err, rest: bytes)

  predicate KeyByte(c: byte) { 0x20 <= c <= 0x7E && c != EQUALS }

  /** Reads on from a key begun as `acc`. */
  function ReadKey(acc: bytes, s: bytes): (k: Key)
    ensures |k.rest| <= |s| && (k.Key? ==> |k.rest| < |s|)
    decreases |s|
  {
    if s == [] then BadKey(Eof, [])
    else if s[0] == EQUALS || s[0] == NL then
      if acc == [] then BadKey(Malformed, s[1..]) else Key(acc, s[0], s[1..])
    else if !KeyByte(s[0]) || |acc| >= MAX_KEY then BadKey(Malformed, s[1..])
    else ReadKey(acc + [s[0]], s[1..])
  }

  datatype Value = Value(value: bytes, rest: bytes) | BadValue(err: Err, rest: bytes)

  function ReadSimple(s: bytes): (v: Value)
    ensures |v.rest| <= |s|
  {
    var nl := IndexByte(s, NL);
    if nl < 0 then BadValue(Eof, []) else Value(s[..nl], s[nl + 1..])
  }

  function ReadComplex(s: bytes): (v: Value)
    ensures |v.rest| <= |s|
  {
    if |s| < 4 then BadValue(Short(s), [])
    else
      var n := FromBigEndian(s[..4]);
      if n > MAX_VALUE then BadValue(Malformed, s[4..])
      else if |s| < 4 + n then BadValue(Short(s[4..]), [])
      else Value(s[4..4 + n], SkipNewline(s[4 + n..]))
  }

  /** The optional trailer of a complex pair. */
  function SkipNewline(s: bytes): (r: bytes)
    ensures |r| <= |s|
  {
    if s != [] && s[0] == NL then s[1..] else s
  }

  datatype Event = Event(ev: Option<Fields>, err: Err, rest: bytes)

  predicate AtHeader(s: bytes) { |s| >= 2 && s[..2] == HEADER }

  function With(ev: Option<Fields>, key: bytes, value: bytes): Option<Fields> {
    Some((if ev.None? then map[] else ev.value)[key := value])
  }

  /** The pairs from a pair-start position to the end of the event. */
  function ParsePairs(ev: Option<Fields>, s: bytes): (e: Event)
    ensures |e.rest| <= |s|
    ensures e.err == Ok && s != [] && !AtHeader(s) ==> |e.rest| < |s|
    decreases |s|
  {
    if s == [] then Event(ev, Eof, s)
    else if s[0] == NL then Event(ev, Ok, s[1..])
    else if AtHeader(s) then Event(ev, Ok, s)
    else
      match ReadKey([], s)
      case BadKey(err, rest) => Event(ev, err, rest)
      case Key(key, delim, rest) =>
        match if delim == EQUALS then ReadSimple(rest) else ReadComplex(rest)
        case BadValue(err, rest') => Event(ev, err, rest')
        case Value(value, rest') => ParsePairs(With(ev, key, value), rest')
  }

  function SkipHeader(s: bytes): (r: bytes)
    ensures |r| <= |s|
  {
    if AtHeader(s) then s[2..] else s
  }

  /** A call consumes input or reports the end of the stream, so the stream loop ends. */
  function ParseEvent(s: bytes): (e: Event)
    ensures |e.rest| <= |s|
    ensures e.err == Ok ==> |e.rest| < |s|
  {
    ParsePairs(None, SkipHeader(s))
  }

  datatype Stream = Stream(events: seq<Fields>, err: Err)

  function Emitted(ev: Option<Fields>): seq<Fields> { if ev.Some? then [ev.value] else [] }

  function ParseStream(s: bytes): Stream
    decreases |s|
  {
    var e := ParseEvent(s);
    if e.err == Ok then Preceded(Emitted(e.ev), ParseStream(e.rest))
    else Stream(Emitted(e.ev), if e.err == Eof then Ok else e.err)
  }

  function Preceded(events: seq<Fields>, t: Stream): Stream { Stream(events + t.events, t.err) }

  lemma PrecededTwice(es: seq<Fields>, fs: seq<Fields>, t: Stream)
    ensures Preceded(es, Preceded(fs, t)) == Preceded(es + fs, t)
    ensures Preceded([], t) == t
    ensures es + [] == es
  {
    assert es + (fs + t.events) == es + fs + t.events;
    assert [] + t.events == t.events;
  }

  // ---- the program, over a buffered reader ----

  method ReadKeyBytes(r: Reader) returns (key: bytes, delim: byte, err: Err)
    modifies r
    ensures match ReadKey([], old(r.rest))
      case Key(k, d, rest) => err == Ok && key == k && delim == d && r.rest == rest
      case BadKey(e, rest) => err == e && err != Ok && r.rest == rest
  {
    key, delim := [], 0;
    while true
      invariant ReadKey([], old(r.rest)) == ReadKey(key, r.rest)
      decreases |r.rest|
    {
      var c := r.ReadByte();
      if c.None? { return key, 0, Eof; }
      if c.value == EQUALS || c.value == NL {
        if |key| == 0 { return key, 0, Malformed; }
        return key, c.value, Ok;
      }
      if c.value < 0x20 || c.value > 0x7E { return key, 0, Malformed; }
      if |key| >= MAX_KEY { return key, 0, Malformed; }
      key := key + [c.value];
    }
  }

  method ReadValue(r: Reader, delim: byte) returns (value: bytes, err: Err)
    modifies r
    ensures match if delim == EQUALS then ReadSimple(old(r.rest)) else ReadComplex(old(r.rest))
      case Value(v, rest) => err == Ok && value == v && r.rest == rest
      case BadValue(e, rest) => err == e && err != Ok && r.rest == rest
  {
    hide IndexByte;
    if delim == EQUALS {
      value, err := r.ReadString(NL);
      if err == Ok { value := value[..|value| - 1]; }
      return;
    }
    var head;
    head, err := r.ReadFull(4);
    if err != Ok { return [], err; }
    var n := FromBigEndian(head);
    if n > MAX_VALUE { return [], Malformed; }
    value, err := r.ReadFull(n);
    if err != Ok { return; }
    var next := r.Peek(1);
    if next.Some? && next.value[0] == NL { r.Discard(1); }
  }

  method ParseLdEvent(r: Reader) returns (ev: Option<Fields>, err: Err)
    modifies r
    ensures Event(ev, err, r.rest) == ParseEvent(old(r.rest))
  {
    ev := None;
    var head := r.Peek(2);
    if head == Some(HEADER) { r.Discard(2); }
    while true
      invariant ParsePairs(None, SkipHeader(old(r.rest))) == ParsePairs(ev, r.rest)
      decreases |r.rest|
    {
      var b := r.Peek(1);
      if b.None? { return ev, Eof; }
      if b.value[0] == NL {
        r.Discard(1);
        return ev, Ok;
      }
      if b.value[0] == HEADER[0] {
        var h := r.Peek(2);
        if h.Some? && h.value[1] == HEADER[1] { return ev, Ok; }
      }
      var key, delim, value;
      key, delim, err := ReadKeyBytes(r);
      if err != Ok { return ev, err; }
      value, err := ReadValue(r, delim);
      if err != Ok { return ev, err; }
      ev := With(ev, key, value);
    }
  }

  method ParseLdStream(r: Reader) returns (emitted: seq<Fields>, err: Err)
    modifies r
    ensures Stream(emitted, err) == ParseStream(old(r.rest))
  {
    emitted := [];
    PrecededTwice([], [], ParseStream(r.rest));
    while true
      invariant ParseStream(old(r.rest)) == Preceded(emitted, ParseStream(r.rest))
      decreases |r.rest|
    {
      hide ParseEvent;
      ghost var whole := ParseStream(r.rest);
      ghost var before := emitted;
      var ev;
      ev, err := ParseLdEvent(r);
      PrecededTwice(before, Emitted(ev), ParseStream(r.rest));
      if ev.Some? { emitted := emitted + [ev.value]; }
      assert emitted == before + Emitted(ev);
      if err != Ok {
        return emitted, if err == Eof then Ok else err;
      }
      assert whole == Preceded(Emitted(ev), ParseStream(r.rest));
    }
  }

  // ---- what the appenders write ----

  /** A pair in either notation; `trailer` is the newline the specification asks of a
      complex pair and the Go and Java appenders leave out. */
  datatype Pair = Simple(key: bytes, value: bytes) | Complex(key: bytes, value: bytes, trailer: bool)

  datatype Out = Out(header: bool, pairs: seq<Pair>)

  predicate WritablePair(p: Pair) {
    && 0 < |p.key| <= 256 && (forall i :: 0 <= i < |p.key| ==> 0x20 <= p.key[i] <= 0x7E && p.key[i] != 0x3D)
    && (if p.Simple? then 0x0A !in p.value else |p.value| <= 0x100_0000)
  }

  predicate WritablePairs(ps: seq<Pair>) { forall i :: 0 <= i < |ps| ==> WritablePair(ps[i]) }

  predicate Writable(o: Out) { o.pairs != [] && WritablePairs(o.pairs) }

  /** The bytes after the key and its delimiter, up to where the next pair starts. */
  function Body(p: Pair): bytes {
    match p
    case Simple(_, value) => value + [0x0A]
    case Complex(_, value, trailer) => BigEndian(|value|, 4) + value + (if trailer then [0x0A] else [])
  }

  function EncodePair(p: Pair): bytes {
    p.key + [if p.Simple? then 0x3D else 0x0A] + Body(p)
  }

  function EncodePairs(ps: seq<Pair>): bytes {
    if ps == [] then [] else EncodePair(ps[0]) + EncodePairs(ps[1..])
  }

  function EncodeEvent(o: Out): bytes {
    (if o.header then [6, 3] else []) + (EncodePairs(o.pairs) + [0x0A])
  }

  function EncodeAll(es: seq<Out>): bytes {
    if es == [] then [] else EncodeEvent(es[0]) + EncodeAll(es[1..])
  }

  function Assign(ev: Option<Fields>, ps: seq<Pair>): (r: Option<Fields>)
    ensures ps != [] ==> r.Some?
    decreases |ps|
  {
    if ps == [] then ev else Assign(With(ev, ps[0].key, ps[0].value), ps[1..])
  }

  /** The map of one event: a repeated key keeps its last value. */
  function MapOf(ps: seq<Pair>): Fields
    requires ps != []
  {
    Assign(None, ps).value
  }

  function Maps(groups: seq<seq<Pair>>): seq<Fields>
    requires forall i :: 0 <= i < |groups| ==> groups[i] != []
  {
    if groups == [] then [] else [MapOf(groups[0])] + Maps(groups[1..])
  }

  function PairLists(es: seq<Out>): (gs: seq<seq<Pair>>)
    ensures |gs| == |es| && forall i :: 0 <= i < |es| ==> gs[i] == es[i].pairs
  {
    if es == [] then [] else [es[0].pairs] + PairLists(es[1..])
  }

  /** The event's own newline will be taken for the trailer of its last pair. */
  predicate OpenEnded(ps: seq<Pair>) {
    ps != [] && ps[|ps| - 1].Complex? && !ps[|ps| - 1].trailer
  }

  /** How the reader groups the pairs: an open-ended event runs into the next one
      unless a header or the end of the stream stands between them. */
  function Grouped(es: seq<Out>): (gs: seq<seq<Pair>>)
    requires forall i :: 0 <= i < |es| ==> es[i].pairs != []
    ensures |gs| <= |es| && (es != [] ==> gs != [])
    ensures forall i :: 0 <= i < |gs| ==> gs[i] != []
  {
    if es == [] then []
    else
      var gs := Grouped(es[1..]);
      if |es| > 1 && RunsOn(es[0], es[1]) then [es[0].pairs + gs[0]] + gs[1..]
      else [es[0].pairs] + gs
  }

  predicate RunsOn(a: Out, b: Out) { OpenEnded(a.pairs) && !b.header }

  // ---- reading one pair ----

  lemma {:induction false} KeyReads(acc: bytes, key: bytes, delim: byte, rest: bytes)
    requires forall i :: 0 <= i < |key| ==> KeyByte(key[i])
    requires 0 < |acc| + |key| <= MAX_KEY && (delim == EQUALS || delim == NL)
    ensures ReadKey(acc, key + [delim] + rest) == Key(acc + key, delim, rest)
    decreases |key|
  {
    var s := key + [delim] + rest;
    if key == [] {
      assert s[0] == delim && s[1..] == rest && acc + key == acc;
    } else {
      assert s[0] == key[0] && s[1..] == key[1..] + [delim] + rest;
      KeyReads(acc + [key[0]], key[1..], delim, rest);
      assert acc + [key[0]] + key[1..] == acc + key;
    }
  }

  lemma SimpleReads(value: bytes, rest: bytes)
    requires NL !in value
    ensures ReadSimple(value + [NL] + rest) == Value(value, rest)
  {
    hide IndexByte;
    IndexAfter(value, NL, rest);
    DropPrefix(value + [NL], rest);
    assert (value + [NL] + rest)[..|value|] == value;
  }

  lemma ComplexReads(value: bytes, rest: bytes)
    requires |value| <= MAX_VALUE
    ensures ReadComplex(BigEndian(|value|, 4) + value + rest) == Value(value, SkipNewline(rest))
  {
    Pow256Values();
    BigEndianRoundTrip(|value|, 4);
    hide BigEndian, FromBigEndian, SkipNewline, ReadComplex;
    var head := BigEndian(|value|, 4);
    var s := head + value + rest;
    assert s[..4] == head && s[4..4 + |value|] == value && s[4 + |value|..] == rest;
    ComplexAt(s, |value|);
  }

  lemma ComplexAt(s: bytes, n: nat)
    requires |s| >= 4 + n && n <= MAX_VALUE && FromBigEndian(s[..4]) == n
    ensures ReadComplex(s) == Value(s[4..4 + n], SkipNewline(s[4 + n..]))
  {
    hide FromBigEndian, SkipNewline;
  }

  /** One pair, and what is left after it. */
  lemma PairReads(ev: Option<Fields>, p: Pair, rest: bytes)
    requires WritablePair(p)
    requires p.Complex? && !p.trailer ==> rest == [] || rest[0] != NL
    ensures ParsePairs(ev, EncodePair(p) + rest) == ParsePairs(With(ev, p.key, p.value), rest)
  {
    PairThen(ev, p, rest, rest);
  }

  /** The same when an omitted trailer is made up for by the newline that follows. */
  lemma PairReadsNewline(ev: Option<Fields>, p: Pair, rest: bytes)
    requires WritablePair(p) && p.Complex? && !p.trailer
    ensures ParsePairs(ev, EncodePair(p) + ([NL] + rest)) == ParsePairs(With(ev, p.key, p.value), rest)
  {
    PairThen(ev, p, [NL] + rest, rest);
  }

  function ReadBody(p: Pair, s: bytes): Value {
    if p.Simple? then ReadSimple(s) else ReadComplex(s)
  }

  lemma BodyReads(p: Pair, after: bytes, rest: bytes)
    requires WritablePair(p)
    requires if p.Complex? && !p.trailer then SkipNewline(after) == rest else after == rest
    ensures ReadBody(p, Body(p) + after) == Value(p.value, rest)
  {
    hide ReadSimple, ReadComplex, BigEndian;
    if p.Simple? {
      SimpleReads(p.value, rest);
    } else {
      var trailer := if p.trailer then [NL] else [];
      Regroup(BigEndian(|p.value|, 4) + p.value, trailer, after);
      ComplexReads(p.value, trailer + after);
      assert [] + after == after && ([NL] + after)[1..] == after;
    }
  }

  lemma ParseUnfolds(ev: Option<Fields>, key: bytes, delim: byte, body: bytes, value: bytes, rest: bytes)
    requires 0 < |key| <= MAX_KEY && (forall i :: 0 <= i < |key| ==> KeyByte(key[i]))
    requires delim == EQUALS || delim == NL
    requires (if delim == EQUALS then ReadSimple(body) else ReadComplex(body)) == Value(value, rest)
    ensures ParsePairs(ev, key + [delim] + body) == ParsePairs(With(ev, key, value), rest)
  {
    var s := key + [delim] + body;
    hide ReadKey, ReadSimple, ReadComplex;
    KeyReads([], key, delim, body);
    assert [] + key == key;
    assert s[0] == key[0] && KeyByte(key[0]);
    NoHeader(s);
    hide KeyByte, AtHeader;
  }

  lemma NoHeader(s: bytes)
    requires s != [] && KeyByte(s[0])
    ensures !AtHeader(s)
  {
    assert |s| >= 2 ==> s[..2][0] == s[0];
  }

  lemma PairThen(ev: Option<Fields>, p: Pair, after: bytes, rest: bytes)
    requires WritablePair(p)
    requires if p.Complex? && !p.trailer then SkipNewline(after) == rest else after == rest
    ensures ParsePairs(ev, EncodePair(p) + after) == ParsePairs(With(ev, p.key, p.value), rest)
  {
    hide ReadSimple, ReadComplex, ParsePairs, Body;
    var delim := if p.Simple? then EQUALS else NL;
    BodyReads(p, after, rest);
    Regroup(p.key + [delim], Body(p), after);
    ParseUnfolds(ev, p.key, delim, Body(p) + after, p.value, rest);
  }

  // ---- reading an event ----

  lemma PairFirstByte(p: Pair, rest: bytes)
    requires WritablePair(p)
    ensures KeyByte((EncodePair(p) + rest)[0])
  {
    assert EncodePair(p)[0] == p.key[0];
  }

  lemma {:induction false} PairsRead(ev: Option<Fields>, ps: seq<Pair>, rest: bytes)
    requires WritablePairs(ps) && ps != []
    ensures ParsePairs(ev, EncodePairs(ps) + ([NL] + rest))
         == ParsePairs(Assign(ev, ps), if OpenEnded(ps) then rest else [NL] + rest)
    decreases |ps|
  {
    hide ParsePairs, EncodePair;
    var p, ev1 := ps[0], With(ev, ps[0].key, ps[0].value);
    if |ps| == 1 {
      assert EncodePairs(ps) == EncodePair(p) by { assert EncodePairs(ps[1..]) == []; }
      if OpenEnded(ps) { PairReadsNewline(ev, p, rest); } else { PairReads(ev, p, [NL] + rest); }
    } else {
      var tail := EncodePairs(ps[1..]) + ([NL] + rest);
      Regroup(EncodePair(p), EncodePairs(ps[1..]), [NL] + rest);
      Regroup(EncodePair(ps[1]), EncodePairs(ps[1..][1..]), [NL] + rest);
      PairFirstByte(ps[1], EncodePairs(ps[1..][1..]) + ([NL] + rest));
      PairReads(ev, p, tail);
      PairsRead(ev1, ps[1..], rest);
    }
  }

  lemma {:induction false} AssignConcat(ev: Option<Fields>, ps: seq<Pair>, qs: seq<Pair>)
    ensures Assign(ev, ps + qs) == Assign(Assign(ev, ps), qs)
    decreases |ps|
  {
    if ps == [] {
      assert ps + qs == qs;
    } else {
      assert (ps + qs)[1..] == ps[1..] + qs;
      AssignConcat(With(ev, ps[0].key, ps[0].value), ps[1..], qs);
    }
  }

  // ---- reading a stream ----

  ghost predicate WritableAll(es: seq<Out>) { forall i :: 0 <= i < |es| ==> Writable(es[i]) }

  /** The stream from the end of an event on. */
  function Continue(e: Event): Stream {
    if e.err == Ok then Preceded(Emitted(e.ev), ParseStream(e.rest))
    else Stream(Emitted(e.ev), if e.err == Eof then Ok else e.err)
  }

  function Bare(es: seq<Out>): bytes
    requires es != []
  {
    EncodePairs(es[0].pairs) + ([NL] + EncodeAll(es[1..]))
  }

  lemma EncodeAllBare(es: seq<Out>)
    requires WritableAll(es) && es != []
    ensures EncodeAll(es) == (if es[0].header then HEADER + Bare(es) else Bare(es))
    ensures Bare(es) != [] && KeyByte(Bare(es)[0])
  {
    hide EncodePairs;
    var ps, rest := es[0].pairs, EncodeAll(es[1..]);
    Regroup(if es[0].header then HEADER else [], EncodePairs(ps) + [NL], rest);
    Regroup(EncodePairs(ps), [NL], rest);
    assert [] + Bare(es) == Bare(es);
    assert WritablePair(ps[0]) by { assert Writable(es[0]); }
    EncodePairsStart(ps);
    PairFirstByte(ps[0], EncodePairs(ps[1..]));
  }

  lemma EncodePairsStart(ps: seq<Pair>)
    requires ps != []
    ensures EncodePairs(ps) == EncodePair(ps[0]) + EncodePairs(ps[1..])
  {
  }

  /** An event at its first pair, with `ev` already gathered. */
  lemma {:induction false} BareReads(ev: Option<Fields>, es: seq<Out>)
    requires WritableAll(es) && es != []
    ensures var gs := Grouped(es);
      Continue(ParsePairs(ev, Bare(es))) == Stream([Assign(ev, gs[0]).value] + Maps(gs[1..]), Ok)
    decreases |es|, 0
  {
    hide EncodePairs, Maps, Assign, ParsePairs, ParseStream, WritablePairs, Continue, EncodeAll;
    var ps, rest, gs := es[0].pairs, EncodeAll(es[1..]), Grouped(es);
    var ev1 := Assign(ev, ps);
    assert Writable(es[0]);
    PairsRead(ev, ps, rest);
    if OpenEnded(ps) && |es| > 1 && !es[1].header {
      var tails := Grouped(es[1..]);
      EncodeAllBare(es[1..]);
      BareReads(ev1, es[1..]);
      AssignConcat(ev, ps, tails[0]);
      assert gs[1..] == tails[1..];
    } else {
      StreamReads(es[1..]);
      assert gs == [ps] + Grouped(es[1..]) && gs[1..] == Grouped(es[1..]);
      NothingEncoded();
      if |es| > 1 {
        EncodeAllBare(es[1..]);
        if es[1].header { assert rest[..2] == HEADER; }
      }
      EventEnds(ev1, if OpenEnded(ps) then rest else [NL] + rest, rest);
      assert [ev1.value] + [] == [ev1.value];
    }
  }

  lemma NothingEncoded()
    ensures EncodeAll([]) == [] && Maps([]) == []
  {
  }

  lemma ParseNothing()
    ensures ParseStream([]) == Stream([], Ok)
  {
  }

  /** A boundary: a newline, a header or the end of the stream. */
  lemma EventEnds(ev: Option<Fields>, s: bytes, rest: bytes)
    requires s == [NL] + rest || (s == rest && (s == [] || AtHeader(s)))
    ensures Continue(ParsePairs(ev, s)) == Preceded(Emitted(ev), ParseStream(rest))
  {
    ParseNothing();
    hide ParseStream;
    if s == [NL] + rest { assert s[1..] == rest; }
    assert Emitted(ev) + [] == Emitted(ev);
  }

  lemma UnfoldMaps(gs: seq<seq<Pair>>)
    requires gs != [] && forall i :: 0 <= i < |gs| ==> gs[i] != []
    ensures Maps(gs) == [Assign(None, gs[0]).value] + Maps(gs[1..])
  {
    hide Assign;
  }

  lemma UnfoldStream(s: bytes)
    ensures ParseStream(s) == Continue(ParsePairs(None, SkipHeader(s)))
  {
    hide ParsePairs, SkipHeader;
  }

  lemma HeaderSkipped(s: bytes, bare: bytes, header: bool)
    requires s == (if header then HEADER + bare else bare) && bare != [] && KeyByte(bare[0])
    ensures SkipHeader(s) == bare
  {
    if header { assert s[..2] == HEADER && s[2..] == bare; }
  }

  lemma {:induction false} StreamReads(es: seq<Out>)
    requires WritableAll(es)
    ensures ParseStream(EncodeAll(es)) == Stream(Maps(Grouped(es)), Ok)
    decreases |es|, 1
  {
    if es != [] {
      hide EncodeAll, ParsePairs, ParseStream, Continue, Grouped, WritableAll, Bare, Maps, Assign;
      EncodeAllBare(es);
      BareReads(None, es);
      UnfoldStream(EncodeAll(es));
      HeaderSkipped(EncodeAll(es), Bare(es), es[0].header);
      UnfoldMaps(Grouped(es));
    }
  }

  // ---- exactly when the events come back ----

  predicate Separated(es: seq<Out>) { forall i :: 0 <= i < |es| - 1 ==> !RunsOn(es[i], es[i + 1]) }

  lemma {:induction false} GroupedSeparated(es: seq<Out>)
    requires WritableAll(es)
    ensures Separated(es) ==> Grouped(es) == PairLists(es)
    ensures !Separated(es) ==> |Grouped(es)| < |es|
    decreases |es|
  {
    if es != [] {
      GroupedSeparated(es[1..]);
      if |es| > 1 && !RunsOn(es[0], es[1]) {
        if Separated(es[1..]) {
          forall i | 0 <= i < |es| - 1 ensures !RunsOn(es[i], es[i + 1]) {
            if i > 0 { assert !RunsOn(es[1..][i - 1], es[1..][i]); }
          }
        } else {
          var i :| 0 <= i < |es[1..]| - 1 && RunsOn(es[1..][i], es[1..][i + 1]);
          assert RunsOn(es[i + 1], es[i + 2]);
        }
      }
    }
  }

  lemma {:induction false} MapsLength(gs: seq<seq<Pair>>)
    requires forall i :: 0 <= i < |gs| ==> gs[i] != []
    ensures |Maps(gs)| == |gs|
  {
    if gs != [] { MapsLength(gs[1..]); }
  }

  /** Any events, each with or without a header, each complex pair with or without its
      trailer: the stream parses without error, and gives the events back if and only if
      no open-ended event is followed by one without a header. */
  lemma RoundTripExactly(es: seq<Out>)
    requires WritableAll(es)
    ensures ParseStream(EncodeAll(es)).err == Ok
    ensures ParseStream(EncodeAll(es)).events == Maps(PairLists(es)) <==> Separated(es)
  {
    hide ParseStream, Maps, Grouped, PairLists, Separated;
    StreamReads(es);
    GroupedSeparated(es);
    assert forall i :: 0 <= i < |es| ==> Writable(es[i]) && es[i].pairs != [];
    MapsLength(Grouped(es));
    MapsLength(PairLists(es));
  }
}
