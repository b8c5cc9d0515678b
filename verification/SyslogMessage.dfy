/** One syslog message: the priority, the header tokens of RFC 5424, and its structured
    data (section 6.3 of RFC 5424). */
module SyslogMessage {
  import opened Common
  import opened Bytes

  type Fields = map<bytes, bytes>

  const DOT: byte := 0x2E
  const DASH: byte := 0x2D
  const LESS: byte := 0x3C
  const GREATER: byte := 0x3E
  const NIL: bytes := [DASH]
  const BOM: bytes := [0xEF, 0xBB, 0xBF]
  const HOST: bytes := [0x68, 0x6F, 0x73, 0x74]
  const MSGID: bytes := [0x6D, 0x73, 0x67, 0x69, 0x64]

  // ---- scanning ----

  function TrimLeft(s: bytes): (r: bytes)
    ensures |r| <= |s| && (r == [] || r[0] != SPACE)
    ensures s != [] && s[0] != SPACE ==> r == s
  {
    if s == [] || s[0] != SPACE then s else TrimLeft(s[1..])
  }

  /** The position of the first `c` or `d`, or -1. */
  function IndexAny(s: bytes, c: byte, d: byte): (i: int)
    ensures -1 <= i < |s|
    ensures 0 <= i ==> (s[i] == c || s[i] == d) && c !in s[..i] && d !in s[..i]
    ensures i < 0 <==> c !in s && d !in s
  {
    if s == [] then -1
    else if s[0] == c || s[0] == d then 0
    else
      var i := IndexAny(s[1..], c, d);
      assert s == [s[0]] + s[1..];
      assert 0 <= i ==> s[..i + 1] == [s[0]] + s[1..][..i];
      if i < 0 then -1 else i + 1
  }

  datatype Quoted = Quoted(value: bytes, rest: bytes)

  /** A parameter value after its opening quote: a backslash takes the next byte as it
      is; the end of input ends the value too. */
  function ReadQuoted(value: bytes, s: bytes): (q: Quoted)
    ensures |q.rest| <= |s|
    decreases |s|
  {
    if s == [] then Quoted(value, s)
    else if s[0] == BACKSLASH && |s| > 1 then ReadQuoted(value + [s[1]], s[2..])
    else if s[0] == QUOTE then Quoted(value, s[1..])
    else ReadQuoted(value + [s[0]], s[1..])
  }

  datatype Sd = Sd(rest: bytes, fields: Fields)

  /** Past the next closing bracket, or to the end. */
  function SkipElement(s: bytes): (r: bytes)
    ensures |r| <= |s|
  {
    var j := IndexByte(s, RBRACKET);
    if j < 0 then [] else s[j + 1..]
  }

  predicate ParamAt(s: bytes) {
    var eq := IndexByte(s, EQUALS);
    0 <= eq && eq + 2 <= |s| && s[eq + 1] == QUOTE
  }

  /** The parameters of one element and its closing bracket. */
  function ReadParams(id: bytes, s: bytes, fields: Fields): (d: Sd)
    ensures |d.rest| <= |s|
    decreases |s|
  {
    var t := TrimLeft(s);
    if t == [] then Sd(t, fields)
    else if t[0] == RBRACKET then Sd(t[1..], fields)
    else if !ParamAt(t) then Sd(SkipElement(t), fields)
    else
      var eq := IndexByte(t, EQUALS);
      var q := ReadQuoted([], t[eq + 2..]);
      ReadParams(id, q.rest, fields[id + [DOT] + t[..eq] := q.value])
  }

  function ReadSd(s: bytes, fields: Fields): (d: Sd)
    ensures |d.rest| <= |s|
    decreases |s|
  {
    if s == [] || s[0] != LBRACKET then Sd(s, fields)
    else
      var i := IndexAny(s[1..], SPACE, RBRACKET);
      if i < 0 then Sd(s[1..], fields)
      else
        var d := ReadParams(s[1..][..i], s[1..][i..], fields);
        ReadSd(d.rest, d.fields)
  }

  // ---- the program ----

  method ParseSd(text: bytes, entryFields: Fields) returns (s: bytes, fields: Fields)
    ensures Sd(s, fields) == ReadSd(text, entryFields)
  {
    s, fields := text, entryFields;
    while s != [] && s[0] == LBRACKET
      invariant ReadSd(text, entryFields) == ReadSd(s, fields)
      decreases |s|
    {
      s := s[1..];
      var i := IndexAny(s, SPACE, RBRACKET);
      if i < 0 { return; }
      var id := s[..i];
      s, fields := ParseParams(id, s[i..], fields);
    }
  }

  method ParseParams(id: bytes, text: bytes, entryFields: Fields) returns (s: bytes, fields: Fields)
    ensures Sd(s, fields) == ReadParams(id, text, entryFields)
  {
    hide IndexByte, TrimLeft, ReadQuoted, ReadParams;
    s, fields := text, entryFields;
    while true
      invariant ReadParams(id, text, entryFields) == ReadParams(id, s, fields)
      decreases |s|
    {
      UnfoldParams(id, s, fields);
      s := TrimLeft(s);
      if s == [] { return; }
      if s[0] == RBRACKET {
        s := s[1..];
        return;
      }
      var eq := IndexByte(s, EQUALS);
      if eq < 0 || |s| < eq + 2 || s[eq + 1] != QUOTE {
        var j := IndexByte(s, RBRACKET);
        s := if j >= 0 then s[j + 1..] else [];
        return;
      }
      var key := s[..eq];
      var value, rest := ParseQuoted(s[eq + 2..]);
      s := rest;
      fields := fields[id + [DOT] + key := value];
    }
  }

  lemma UnfoldParams(id: bytes, s: bytes, fields: Fields)
    ensures var t := TrimLeft(s);
      ReadParams(id, s, fields) ==
        if t == [] then Sd(t, fields)
        else if t[0] == RBRACKET then Sd(t[1..], fields)
        else if !ParamAt(t) then Sd(SkipElement(t), fields)
        else
          var eq := IndexByte(t, EQUALS);
          var q := ReadQuoted([], t[eq + 2..]);
          ReadParams(id, q.rest, fields[id + [DOT] + t[..eq] := q.value])
  {
    hide TrimLeft, ParamAt, SkipElement, IndexByte, ReadQuoted;
  }

  method ParseQuoted(text: bytes) returns (value: bytes, s: bytes)
    ensures Quoted(value, s) == ReadQuoted([], text)
  {
    value, s := [], text;
    while |s| > 0
      invariant ReadQuoted([], text) == ReadQuoted(value, s)
      decreases |s|
    {
      var c := s[0];
      if c == BACKSLASH && |s| > 1 {
        value, s := value + [s[1]], s[2..];
        continue;
      }
      if c == QUOTE {
        s := s[1..];
        return;
      }
      value, s := value + [c], s[1..];
    }
  }

  // ---- structured data reads back ----

  datatype Param = Param(key: bytes, value: bytes)
  datatype Element = Element(id: bytes, params: seq<Param>)

  predicate NameFits(id: bytes) { 0x20 !in id && 0x5D !in id }

  predicate KeyFits(key: bytes) {
    0x3D !in key && (key == [] || (key[0] != 0x20 && key[0] != 0x5D))
  }

  predicate Writable(e: Element) {
    NameFits(e.id) && forall i :: 0 <= i < |e.params| ==> KeyFits(e.params[i].key)
  }

  predicate Special(c: byte) { c == 0x22 || c == 0x5C || c == 0x5D }

  function Escape(v: bytes): bytes {
    if v == [] then [] else EscapeByte(v[0]) + Escape(v[1..])
  }

  function EscapeByte(c: byte): bytes { if Special(c) then [0x5C, c] else [c] }

  function EncodeParams(ps: seq<Param>): bytes {
    if ps == [] then [0x5D]
    else EncodeParam(ps[0]) + EncodeParams(ps[1..])
  }

  function EncodeParam(p: Param): bytes {
    [0x20] + (p.key + [0x3D] + ([0x22] + Escape(p.value) + [0x22]))
  }

  function EncodeElement(e: Element): bytes {
    [0x5B] + (e.id + EncodeParams(e.params))
  }

  function EncodeSd(es: seq<Element>): bytes {
    if es == [] then [] else EncodeElement(es[0]) + EncodeSd(es[1..])
  }

  function AssignParams(fields: Fields, id: bytes, ps: seq<Param>): Fields
    decreases |ps|
  {
    if ps == [] then fields else AssignParams(fields[id + [0x2E] + ps[0].key := ps[0].value], id, ps[1..])
  }

  function Assign(fields: Fields, es: seq<Element>): Fields
    decreases |es|
  {
    if es == [] then fields else Assign(AssignParams(fields, es[0].id, es[0].params), es[1..])
  }

  lemma ByteReads(done: bytes, c: byte, tail: bytes)
    ensures ReadQuoted(done, EscapeByte(c) + tail) == ReadQuoted(done + [c], tail)
  {
    var s := EscapeByte(c) + tail;
    if Special(c) {
      assert s[0] == BACKSLASH && s[1] == c && s[2..] == tail;
    } else {
      assert s[0] == c && s[1..] == tail;
    }
  }

  /** Any value at all survives quoting. */
  lemma {:induction false} QuotedReads(done: bytes, v: bytes, rest: bytes)
    ensures ReadQuoted(done, Escape(v) + ([QUOTE] + rest)) == Quoted(done + v, rest)
    decreases |v|
  {
    var end := [QUOTE] + rest;
    if v == [] {
      assert Escape(v) + end == end && end[1..] == rest && done + v == done;
    } else {
      hide ReadQuoted, EscapeByte;
      QuotedReads(done + [v[0]], v[1..], rest);
      assert done + [v[0]] + v[1..] == done + v;
      Regroup(EscapeByte(v[0]), Escape(v[1..]), end);
      ByteReads(done, v[0], Escape(v[1..]) + end);
    }
  }

  lemma ParamReads(id: bytes, p: Param, rest: bytes, fields: Fields)
    requires KeyFits(p.key)
    ensures ReadParams(id, EncodeParam(p) + rest, fields) == ReadParams(id, rest, fields[id + [DOT] + p.key := p.value])
  {
    hide Escape, IndexByte, ReadQuoted, TrimLeft, ReadParams;
    var q := Escape(p.value) + ([QUOTE] + rest);
    var t := p.key + [EQUALS] + ([QUOTE] + q);
    Regroup([SPACE], p.key + [EQUALS] + ([QUOTE] + Escape(p.value) + [QUOTE]), rest);
    Regroup(p.key + [EQUALS], [QUOTE] + Escape(p.value) + [QUOTE], rest);
    Regroup4([QUOTE], Escape(p.value), [QUOTE], rest);
    KeyStarts(p.key, [QUOTE] + q);
    TrimOne(t);
    KeySplits(p.key, q);
    QuotedReads([], p.value, rest);
    assert [] + p.value == p.value;
    UnfoldParams(id, [SPACE] + t, fields);
  }

  lemma KeySplits(key: bytes, q: bytes)
    requires KeyFits(key)
    ensures var t, eq := key + [EQUALS] + ([QUOTE] + q), |key|;
      IndexByte(t, EQUALS) == eq && ParamAt(t) && t[..eq] == key && t[eq + 2..] == q
  {
    hide IndexByte;
    IndexAfter(key, EQUALS, [QUOTE] + q);
    var t := key + [EQUALS] + ([QUOTE] + q);
    DropPrefix(key, [EQUALS] + ([QUOTE] + q));
    Regroup(key, [EQUALS], [QUOTE] + q);
    assert t[|key| + 2..] == t[|key|..][2..];
  }

  lemma KeyStarts(key: bytes, rest: bytes)
    requires KeyFits(key)
    ensures var t := key + [EQUALS] + rest; t[0] != SPACE && t[0] != RBRACKET
  {
    var t := key + [EQUALS] + rest;
    assert if key != [] then t[0] == key[0] else t[0] == EQUALS;
  }

  lemma TrimOne(t: bytes)
    requires t != [] && t[0] != SPACE
    ensures TrimLeft([SPACE] + t) == t
  {
    assert ([SPACE] + t)[1..] == t;
  }

  lemma {:induction false} ParamsRead(id: bytes, ps: seq<Param>, rest: bytes, fields: Fields)
    requires forall i :: 0 <= i < |ps| ==> KeyFits(ps[i].key)
    ensures ReadParams(id, EncodeParams(ps) + rest, fields) == Sd(rest, AssignParams(fields, id, ps))
    decreases |ps|
  {
    var s := EncodeParams(ps) + rest;
    if ps == [] {
      assert s[0] == RBRACKET && s[1..] == rest;
      assert TrimLeft(s) == s;
    } else {
      hide ReadParams, EncodeParam, KeyFits;
      var p := ps[0];
      Regroup(EncodeParam(p), EncodeParams(ps[1..]), rest);
      ParamReads(id, p, EncodeParams(ps[1..]) + rest, fields);
      ParamsRead(id, ps[1..], rest, fields[id + [DOT] + p.key := p.value]);
    }
  }

  lemma IndexAnyAfter(id: bytes, rest: bytes)
    requires NameFits(id) && rest != [] && (rest[0] == SPACE || rest[0] == RBRACKET)
    ensures IndexAny(id + rest, SPACE, RBRACKET) == |id|
  {
    hide IndexAny;
    var s := id + rest;
    var i := IndexAny(s, SPACE, RBRACKET);
    assert s[|id|] == rest[0];
    assert forall j :: 0 <= j < |id| ==> s[j] == id[j];
    assert forall j :: |id| < j <= |s| ==> s[..j][|id|] == rest[0];
  }

  /** Parsing what was written, then going on with what follows it. */
  lemma {:induction false} SdReads(es: seq<Element>, rest: bytes, fields: Fields)
    requires forall i :: 0 <= i < |es| ==> Writable(es[i])
    ensures ReadSd(EncodeSd(es) + rest, fields) == ReadSd(rest, Assign(fields, es))
    decreases |es|
  {
    if es == [] {
      assert EncodeSd(es) + rest == rest;
    } else {
      hide EncodeElement, ReadSd;
      var e, tail := es[0], EncodeSd(es[1..]) + rest;
      Regroup(EncodeElement(e), EncodeSd(es[1..]), rest);
      assert Writable(e);
      ElementReads(e, tail, fields);
      SdReads(es[1..], rest, AssignParams(fields, e.id, e.params));
    }
  }

  lemma ElementReads(e: Element, tail: bytes, fields: Fields)
    requires Writable(e)
    ensures ReadSd(EncodeElement(e) + tail, fields) == ReadSd(tail, AssignParams(fields, e.id, e.params))
  {
    hide EncodeParams, ReadParams, IndexAny;
    var body := EncodeParams(e.params) + tail;
    var s := [LBRACKET] + (e.id + body);
    Regroup([LBRACKET], e.id + EncodeParams(e.params), tail);
    Regroup(e.id, EncodeParams(e.params), tail);
    ParamsStart(e.params, tail);
    IndexAnyAfter(e.id, body);
    assert s[1..] == e.id + body;
    DropPrefix(e.id, body);
    ParamsRead(e.id, e.params, tail, fields);
  }

  lemma ParamsStart(ps: seq<Param>, rest: bytes)
    ensures var s := EncodeParams(ps) + rest; s != [] && (s[0] == SPACE || s[0] == RBRACKET)
  {
    hide Escape;
  }

  /** The round trip, for a free-form part that does not itself start an element. */
  lemma SdRoundTrip(es: seq<Element>, rest: bytes, fields: Fields)
    requires forall i :: 0 <= i < |es| ==> Writable(es[i])
    requires rest == [] || rest[0] != LBRACKET
    ensures ReadSd(EncodeSd(es) + rest, fields) == Sd(rest, Assign(fields, es))
  {
    SdReads(es, rest, fields);
  }

  // ---- the remainder is always the tail of the input ----

  ghost predicate IsSuffix(r: bytes, s: bytes) { |r| <= |s| && r == s[|s| - |r|..] }

  lemma SuffixTransitive(q: bytes, r: bytes, s: bytes)
    requires IsSuffix(q, r) && IsSuffix(r, s)
    ensures IsSuffix(q, s)
  {
  }

  lemma {:induction false} TrimSuffix(s: bytes)
    ensures IsSuffix(TrimLeft(s), s)
  {
    if s != [] && s[0] == SPACE { TrimSuffix(s[1..]); }
  }

  lemma {:induction false} QuotedSuffix(value: bytes, s: bytes)
    ensures IsSuffix(ReadQuoted(value, s).rest, s)
    decreases |s|
  {
    if s == [] {
    } else if s[0] == BACKSLASH && |s| > 1 {
      QuotedSuffix(value + [s[1]], s[2..]);
    } else if s[0] != QUOTE {
      QuotedSuffix(value + [s[0]], s[1..]);
    }
  }

  lemma TailIsSuffix(s: bytes, k: nat)
    requires k <= |s|
    ensures IsSuffix(s[k..], s)
  {
  }

  lemma SkipSuffix(s: bytes)
    ensures IsSuffix(SkipElement(s), s)
  {
    hide IndexByte;
  }

  lemma {:induction false} ParamsSuffix(id: bytes, s: bytes, fields: Fields)
    ensures IsSuffix(ReadParams(id, s, fields).rest, s)
    decreases |s|
  {
    hide IndexByte, TrimLeft, ReadQuoted, IsSuffix, SkipElement;
    var t, d := TrimLeft(s), ReadParams(id, s, fields);
    TrimSuffix(s);
    if t == [] {
      TailIsSuffix(t, 0);
    } else if t[0] == RBRACKET {
      TailIsSuffix(t, 1);
    } else if !ParamAt(t) {
      SkipSuffix(t);
    } else {
      var eq := IndexByte(t, EQUALS);
      var q := ReadQuoted([], t[eq + 2..]);
      TailIsSuffix(t, eq + 2);
      QuotedSuffix([], t[eq + 2..]);
      SuffixTransitive(q.rest, t[eq + 2..], t);
      ParamsSuffix(id, q.rest, fields[id + [DOT] + t[..eq] := q.value]);
      SuffixTransitive(d.rest, q.rest, t);
    }
    assert t == [] ==> t[0..] == t;
    SuffixTransitive(d.rest, t, s);
  }

  /** On any input, well-formed or not, what is left is a tail of it. */
  lemma {:induction false} SdSuffix(s: bytes, fields: Fields)
    ensures IsSuffix(ReadSd(s, fields).rest, s)
    decreases |s|
  {
    hide ReadParams, IndexAny;
    if s != [] && s[0] == LBRACKET {
      var t := s[1..];
      var i := IndexAny(t, SPACE, RBRACKET);
      if i >= 0 {
        var d := ReadParams(t[..i], t[i..], fields);
        ParamsSuffix(t[..i], t[i..], fields);
        SuffixTransitive(d.rest, t[i..], s);
        SdSuffix(d.rest, d.fields);
        SuffixTransitive(ReadSd(d.rest, d.fields).rest, d.rest, s);
      }
    }
  }

  // ---- the priority ----

  datatype Priority = NoPriority | Priority(value: nat, rest: bytes)

  /** At most three bytes between the angle brackets, a number up to 191. */
  function ParsePri(b: bytes): (p: Priority)
    ensures p.Priority? ==> p.value <= 191
  {
    if |b| < 3 || b[0] != LESS then NoPriority
    else
      var end := IndexByte(b[..if |b| < 5 then |b| else 5], GREATER);
      if end < 2 then NoPriority
      else
        match ParseInt(b[1..end])
        case None => NoPriority
        case Some(n) => if n < 0 || n > 191 then NoPriority else Priority(n, b[end + 1..])
  }

  /** Every priority reads back, and it splits into a facility and a severity of the
      tables' sizes. */
  lemma PriorityRoundTrip(pri: nat, rest: bytes)
    requires pri <= 191
    ensures ParsePri([LESS] + Decimal(pri) + [GREATER] + rest) == Priority(pri, rest)
    ensures pri / 8 < 24 && pri % 8 < 8
  {
    var ds := Decimal(pri);
    PowersOfTen();
    DecimalLength(pri, 3);
    ParseFormatted(pri);
    hide Decimal, ParseInt, ParsePri;
    var b, k := [LESS] + ds + [GREATER] + rest, |ds| + 1;
    assert b[..k] == [LESS] + ds && b[1..k] == ds && b[k] == GREATER;
    PriorityAt(b, k, pri);
    DropPrefix([LESS] + ds + [GREATER], rest);
  }

  lemma PriorityAt(b: bytes, k: nat, pri: nat)
    requires 2 <= k < 5 && k < |b| && b[0] == LESS && b[k] == GREATER && GREATER !in b[..k]
    requires ParseInt(b[1..k]) == Some(pri) && pri <= 191
    ensures ParsePri(b) == Priority(pri, b[k + 1..])
  {
    hide IndexByte, ParseInt;
    var head := b[..if |b| < 5 then |b| else 5];
    assert head[..k] == b[..k];
    IndexAt(head, GREATER, k);
  }

  /** `b` is a priority of value `n` in brackets, and then `rest`. */
  predicate IsPri(b: bytes, body: bytes, n: int, rest: bytes) {
    b == [0x3C] + body + [0x3E] + rest
      && 1 <= |body| <= 3 && IsSigned(body) && SignedValue(body) == n && 0 <= n <= 191
  }

  lemma ShortParseInt(s: bytes)
    requires |s| <= 3
    ensures ParseInt(s) == if IsSigned(s) then Some(SignedValue(s)) else None
  {
    ParseIntExactly(s);
    if IsSigned(s) {
      SmallValue(Unsigned(s), 3);
      PowersOfTen();
    }
    hide DecimalValue, Pow10, ParseInt;
  }

  lemma SignedPlain(s: bytes)
    requires IsSigned(s)
    ensures GREATER !in s
  {
    var ds := Unsigned(s);
    var k := |s| - |ds|;
    forall i | 0 <= i < |s| ensures s[i] != GREATER {
      if i >= k { assert s[i] == ds[i - k] && IsDigit(ds[i - k]); }
    }
  }

  /** Which inputs are accepted: exactly a bracketed number of one to three bytes, digits
      with or without a sign, from 0 to 191. */
  lemma PriorityExactly(b: bytes, n: nat, rest: bytes)
    ensures ParsePri(b) == Priority(n, rest) <==> exists body :: IsPri(b, body, n, rest)
  {
    hide ParsePri, IsPri;
    if body :| IsPri(b, body, n, rest) { PriorityAccepted(b, body, n, rest); }
    if ParsePri(b) == Priority(n, rest) {
      var body := PriorityFound(b, n, rest);
      assert IsPri(b, body, n, rest);
    }
  }

  lemma PriorityAccepted(b: bytes, body: bytes, n: nat, rest: bytes)
    requires IsPri(b, body, n, rest)
    ensures ParsePri(b) == Priority(n, rest)
  {
    hide IndexByte, ParseInt, DecimalValue, IsSigned, SignedValue, ParsePri;
    var k := |body| + 1;
    SignedPlain(body);
    ShortParseInt(body);
    assert b[..k] == [LESS] + body && b[1..k] == body && b[k] == GREATER;
    DropPrefix([LESS] + body + [GREATER], rest);
    PriorityAt(b, k, n);
  }

  lemma PriorityFound(b: bytes, n: nat, rest: bytes) returns (body: bytes)
    requires ParsePri(b) == Priority(n, rest)
    ensures IsPri(b, body, n, rest)
  {
    hide IndexByte, ParseInt, DecimalValue, IsSigned, SignedValue;
    var head := b[..if |b| < 5 then |b| else 5];
    var end := IndexByte(head, GREATER);
    body := b[1..end];
    ShortParseInt(body);
    assert head[end] == GREATER && b == [LESS] + body + [GREATER] + rest;
  }

  /** So a sign is accepted. */
  lemma SignAccepted(rest: bytes)
    ensures ParsePri([LESS, 0x2B, 0x35, GREATER] + rest) == Priority(5, rest)
  {
    var body: bytes := [0x2B, 0x35];
    assert Unsigned(body) == [0x35] && [0x35][..0] == [];
    assert [LESS, 0x2B, 0x35, GREATER] + rest == [LESS] + body + [GREATER] + rest;
    assert IsPri([LESS, 0x2B, 0x35, GREATER] + rest, body, 5, rest);
    PriorityExactly([LESS, 0x2B, 0x35, GREATER] + rest, 5, rest);
  }

  // ---- the header ----

  /** `ts` is the text handed to the timestamp parser, when there is one. */
  datatype Entry = Entry(ts: Option<bytes>, app: bytes, pid: bytes, msg: bytes, fields: Fields)

  datatype Token = Token(text: Option<bytes>, rest: bytes)

  function NextToken(s: bytes): Token {
    var t := TrimLeft(s);
    if t == [] then Token(None, t)
    else
      var i := IndexByte(t, SPACE);
      if i < 0 then Token(Some(t), []) else Token(Some(t[..i]), t[i + 1..])
  }

  /** A dash stands for an absent field. */
  function Present(t: Token): Option<bytes> { if t.text == Some(NIL) then None else t.text }

  function SetField(fields: Fields, name: bytes, value: Option<bytes>): Fields {
    if value.None? then fields else fields[name := value.value]
  }

  function Or(value: Option<bytes>, default: bytes): bytes {
    if value.None? then default else value.value
  }

  function StripBom(s: bytes): bytes { if BOM <= s then s[3..] else s }

  function ReadHeader(s: bytes, e: Entry): (bytes, Entry) {
    var ts := NextToken(s);
    var host := NextToken(ts.rest);
    var app := NextToken(host.rest);
    var pid := NextToken(app.rest);
    var msgid := NextToken(pid.rest);
    (msgid.rest,
     Entry(Present(ts), Or(Present(app), e.app), Or(Present(pid), e.pid), e.msg,
           SetField(SetField(e.fields, HOST, Present(host)), MSGID, Present(msgid))))
  }

  function ReadBody(s: bytes, e: Entry): Entry {
    var t := TrimLeft(s);
    var d := if t != [] && t[0] == DASH then Sd(t[1..], e.fields) else ReadSd(t, e.fields);
    var msg := StripBom(TrimLeft(d.rest));
    e.(fields := d.fields, msg := if msg != [] then msg else e.msg)
  }

  function Read5424(b: bytes, e: Entry): Entry {
    var h := ReadHeader(b, e);
    ReadBody(h.0, h.1)
  }

  method Next(s: bytes) returns (token: Option<bytes>, rest: bytes)
    ensures Token(token, rest) == NextToken(s)
  {
    rest := TrimLeft(s);
    if rest == [] { return None, rest; }
    var i := IndexByte(rest, SPACE);
    if i < 0 {
      token, rest := Some(rest), [];
    } else {
      token, rest := Some(rest[..i]), rest[i + 1..];
    }
  }

  method ParseHeader(b: bytes, e0: Entry) returns (s: bytes, e: Entry)
    requires e0.ts.None?
    ensures (s, e) == ReadHeader(b, e0)
  {
    hide NextToken, TrimLeft;
    e := e0;
    var ts, host, app, pid, msgid;
    ts, s := Next(b);
    if ts.Some? && ts.value != NIL { e := e.(ts := ts); }
    host, s := Next(s);
    if host.Some? && host.value != NIL { e := e.(fields := e.fields[HOST := host.value]); }
    app, s := Next(s);
    if app.Some? && app.value != NIL { e := e.(app := app.value); }
    pid, s := Next(s);
    if pid.Some? && pid.value != NIL { e := e.(pid := pid.value); }
    msgid, s := Next(s);
    if msgid.Some? && msgid.value != NIL { e := e.(fields := e.fields[MSGID := msgid.value]); }
  }

  /** `e0` is the entry as received: its time is not from the message. */
  method Parse5424(b: bytes, e0: Entry) returns (e: Entry)
    requires e0.ts.None?
    ensures e == Read5424(b, e0)
  {
    hide TrimLeft, ReadSd, ReadHeader;
    var s;
    s, e := ParseHeader(b, e0);
    s := TrimLeft(s);
    if s != [] && s[0] == DASH {
      s := s[1..];
    } else {
      var fields;
      s, fields := ParseSd(s, e.fields);
      e := e.(fields := fields);
    }
    var msg := StripBom(TrimLeft(s));
    if msg != [] { e := e.(msg := msg); }
  }

  // ---- a whole RFC 5424 message reads back ----

  /** The free-form text after a space, absent, as it is, or after a byte order mark. */
  datatype Text = NoText | Plain(text: bytes) | Marked(text: bytes)

  datatype Message = Message(ts: Option<bytes>, host: Option<bytes>, app: Option<bytes>, pid: Option<bytes>,
                             msgid: Option<bytes>, sd: seq<Element>, text: Text)

  predicate TokenFits(v: Option<bytes>) {
    v.Some? ==> v.value != [] && v.value != [0x2D] && 0x20 !in v.value
  }

  predicate MessageFits(m: Message) {
    && TokenFits(m.ts) && TokenFits(m.host) && TokenFits(m.app) && TokenFits(m.pid) && TokenFits(m.msgid)
    && (forall i :: 0 <= i < |m.sd| ==> Writable(m.sd[i]))
  }

  function EncodeToken(v: Option<bytes>): bytes { (if v.Some? then v.value else [0x2D]) + [0x20] }

  function EncodeText(t: Text): bytes {
    match t
    case NoText => []
    case Plain(text) => [0x20] + text
    case Marked(text) => [0x20] + ([0xEF, 0xBB, 0xBF] + text)
  }

  function EncodeBody(m: Message): bytes {
    (if m.sd == [] then [0x2D] else EncodeSd(m.sd)) + EncodeText(m.text)
  }

  function Encode(m: Message): bytes {
    EncodeToken(m.ts) + (EncodeToken(m.host) + (EncodeToken(m.app) + (EncodeToken(m.pid)
    + (EncodeToken(m.msgid) + EncodeBody(m)))))
  }

  /** What is read of a text: nothing of leading spaces and of one byte order mark. */
  function TextRead(t: Text): bytes {
    match t
    case NoText => []
    case Plain(text) => StripBom(TrimLeft(text))
    case Marked(text) => text
  }

  /** A text reads back as it is if it follows a byte order mark; otherwise if and only if
      it starts with neither a space nor a byte order mark. */
  lemma TextReadsBackExactly(text: bytes)
    ensures TextRead(Marked(text)) == text
    ensures TextRead(Plain(text)) == text <==> !([0x20] <= text) && !([0xEF, 0xBB, 0xBF] <= text)
  {
    assert text != [] && text[0] == SPACE ==> |TrimLeft(text)| < |text|;
  }

  lemma TokenReads(v: Option<bytes>, rest: bytes)
    requires TokenFits(v)
    ensures var t := NextToken(EncodeToken(v) + rest); Present(t) == v && t.rest == rest
  {
    hide NextToken;
    WordReads(Or(v, NIL), rest);
  }

  lemma WordReads(w: bytes, rest: bytes)
    requires w != [] && SPACE !in w
    ensures NextToken(w + [SPACE] + rest) == Token(Some(w), rest)
  {
    hide IndexByte, TrimLeft;
    var s := w + [SPACE] + rest;
    IndexAfter(w, SPACE, rest);
    assert w[0] != SPACE;
    assert s[0] == w[0] && TrimLeft(s) == s;
    assert s[..|w|] == w;
    DropPrefix(w + [SPACE], rest);
  }

  lemma TextReads(t: Text)
    ensures StripBom(TrimLeft(EncodeText(t))) == TextRead(t)
    ensures EncodeText(t) == [] || EncodeText(t)[0] == SPACE
  {
    match t
    case NoText =>
    case Plain(text) => assert ([SPACE] + text)[1..] == text;
    case Marked(text) =>
      TrimOne(BOM + text);
      assert (BOM + text)[3..] == text;
  }

  lemma BodyReads(m: Message, e: Entry)
    requires MessageFits(m)
    ensures ReadBody(EncodeBody(m), e)
         == e.(fields := Assign(e.fields, m.sd), msg := if TextRead(m.text) != [] then TextRead(m.text) else e.msg)
  {
    hide ReadSd, EncodeSd, TrimLeft, Writable, StripBom, EncodeText, TextRead;
    var s, rest := EncodeBody(m), EncodeText(m.text);
    TextReads(m.text);
    if m.sd == [] {
      assert s[0] == DASH && s[1..] == rest;
    } else {
      SdRoundTrip(m.sd, rest, e.fields);
      SdStarts(m.sd, rest);
    }
  }

  lemma SdStarts(es: seq<Element>, rest: bytes)
    requires es != []
    ensures var s := EncodeSd(es) + rest; s != [] && s[0] == LBRACKET
  {
    assert EncodeElement(es[0])[0] == LBRACKET;
  }

  /** The fields `host` and `msgid` of a message, as far as it has them. */
  function Named(fields: Fields, m: Message): Fields {
    var with := if m.host.Some? then fields[[0x68, 0x6F, 0x73, 0x74] := m.host.value] else fields;
    if m.msgid.Some? then with[[0x6D, 0x73, 0x67, 0x69, 0x64] := m.msgid.value] else with
  }

  /** Encode, then parse, for every message: each field, each parameter and what is read of
      the text come back; what is absent keeps the value the entry had. */
  lemma MessageRoundTrip(m: Message, e: Entry)
    requires MessageFits(m)
    ensures Read5424(Encode(m), e)
         == Entry(m.ts, Or(m.app, e.app), Or(m.pid, e.pid), if TextRead(m.text) != [] then TextRead(m.text) else e.msg,
                  Assign(Named(e.fields, m), m.sd))
  {
    hide NextToken, EncodeToken, EncodeBody, ReadBody, Writable, Assign, TextRead;
    var s4 := EncodeToken(m.msgid) + EncodeBody(m);
    var s3 := EncodeToken(m.pid) + s4;
    var s2 := EncodeToken(m.app) + s3;
    var s1 := EncodeToken(m.host) + s2;
    TokenReads(m.ts, s1);
    TokenReads(m.host, s2);
    TokenReads(m.app, s3);
    TokenReads(m.pid, s4);
    TokenReads(m.msgid, EncodeBody(m));
    BodyReads(m, ReadHeader(Encode(m), e).1);
  }

  // ---- what is malformed or cut off ----

  /** A quoted value that the input cuts off is what was there of it. */
  lemma {:induction false} UnclosedReads(done: bytes, v: bytes)
    ensures ReadQuoted(done, Escape(v)) == Quoted(done + v, [])
    decreases |v|
  {
    if v == [] {
      assert done + v == done;
    } else {
      hide ReadQuoted, EscapeByte;
      ByteReads(done, v[0], Escape(v[1..]));
      UnclosedReads(done + [v[0]], v[1..]);
      assert done + [v[0]] + v[1..] == done + v;
    }
  }

  /** The first equals sign of `s` is not followed by a quote. */
  ghost predicate NoParam(s: bytes) {
    forall i: nat :: i < |s| && s[i] == 0x3D && 0x3D !in s[..i] ==> i + 1 >= |s| || s[i + 1] != 0x22
  }

  lemma NoParamExactly(s: bytes)
    ensures NoParam(s) <==> !ParamAt(s)
  {
    hide IndexByte;
    var eq := IndexByte(s, EQUALS);
    if eq >= 0 {
      assert s[eq] == 0x3D && 0x3D !in s[..eq];
      forall i: nat | i < |s| && s[i] == 0x3D && 0x3D !in s[..i] ensures i == eq { SameFirst(s, i, eq); }
    } else {
      forall i: nat | i < |s| ensures s[i] != 0x3D { assert s[i] in s; }
    }
  }

  lemma SameFirst(s: bytes, i: nat, j: nat)
    requires i < |s| && j < |s| && s[i] == 0x3D == s[j] && 0x3D !in s[..i] && 0x3D !in s[..j]
    ensures i == j
  {
  }

  /** Where a parameter should stand and none does, everything up to the next closing bracket is
      skipped, or to the end if there is none. */
  lemma BrokenParams(id: bytes, junk: bytes, rest: bytes, fields: Fields)
    requires junk != [] && junk[0] != 0x20 && 0x5D !in junk
    ensures NoParam(junk + [0x5D] + rest) ==> ReadParams(id, junk + [0x5D] + rest, fields) == Sd(rest, fields)
    ensures NoParam(junk) ==> ReadParams(id, junk, fields) == Sd([], fields)
  {
    hide IndexByte, TrimLeft, ReadQuoted, ReadParams, ParamAt;
    var s := junk + [0x5D] + rest;
    NoParamExactly(s);
    NoParamExactly(junk);
    IndexAfter(junk, RBRACKET, rest);
    assert s[0] == junk[0] && TrimLeft(s) == s && TrimLeft(junk) == junk;
    assert junk[0] != RBRACKET;
    DropPrefix(junk + [0x5D], rest);
    hide NoParam;
    UnfoldParams(id, s, fields);
    UnfoldParams(id, junk, fields);
  }

  /** An element that is cut off in its name is dropped with its bracket. */
  lemma CutElement(t: bytes, fields: Fields)
    requires 0x20 !in t && 0x5D !in t
    ensures ReadSd([0x5B] + t, fields) == Sd(t, fields)
  {
    hide IndexAny;
    assert ([0x5B] + t)[1..] == t;
  }

  /** A header may end early: the last token needs no space after it, and the others are absent. */
  lemma LastToken(w: bytes)
    requires w != [] && 0x20 !in w
    ensures NextToken(w) == Token(Some(w), []) && NextToken([]) == Token(None, [])
  {
    hide IndexByte, TrimLeft;
    assert w[0] in w;
    assert TrimLeft(w) == w;
  }

  /** Spaces before a token do not count. */
  lemma {:induction false} LeadingSpaces(n: nat, s: bytes)
    ensures NextToken(seq(n, _ => 0x20 as byte) + s) == NextToken(s)
    decreases n
  {
    var spaces := seq(n, _ => 0x20 as byte);
    if n == 0 {
      assert spaces + s == s;
    } else {
      LeadingSpaces(n - 1, s);
      assert (spaces + s)[0] == 0x20 && (spaces + s)[1..] == seq(n - 1, _ => 0x20 as byte) + s;
      hide IndexByte;
    }
  }
}
