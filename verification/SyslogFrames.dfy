/** The syslog TCP deframer: octet-counted frames and newline-delimited lines, told apart
    message by message (sections 3.4.1 and 3.4.2 of RFC 6587). */
module SyslogFrames {
  import opened Common
  import opened Bytes
  import opened Reading

  const MAX_FRAME := 0x10_0000
  const MAX_DIGITS := 8

  datatype Frame = Frame(msg: bytes, err: Err, rest: bytes)

  predicate NonZeroDigit(c: byte) { 0x31 <= c <= 0x39 }

  /** A line with its newline; at the end of the stream, whatever there is. */
  function ReadLine(s: bytes): (f: Frame)
    ensures |f.rest| <= |s| && (f.err == Ok ==> |f.rest| < |s|)
  {
    var i := IndexByte(s, NL);
    if i < 0 then Frame(s, Eof, []) else Frame(s[..i + 1], Ok, s[i + 1..])
  }

  /** After `digits` digits worth `n`. */
  function ReadCounted(n: nat, digits: nat, s: bytes): (f: Frame)
    ensures |f.rest| <= |s| && (f.err == Ok ==> |f.rest| < |s|)
    decreases |s|
  {
    if s == [] then Frame([], Eof, [])
    else
      var c := s[0];
      if IsDigit(c) && digits < MAX_DIGITS then ReadCounted(n * 10 + (c - 0x30), digits + 1, s[1..])
      else if c == SPACE && 0 < n <= MAX_FRAME then
        if n < |s| then Frame(s[1..1 + n], Ok, s[1 + n..]) else Frame([], Short(s[1..]), [])
      else if c == NL then Frame(Decimal(n), Ok, s[1..])
      else
        var line := ReadLine(s[1..]);
        line.(msg := Decimal(n) + [c] + line.msg)
  }

  function ReadFrame(s: bytes): (f: Frame)
    ensures |f.rest| <= |s| && (f.err == Ok ==> |f.rest| < |s|)
  {
    if s == [] then Frame([], Eof, [])
    else if !NonZeroDigit(s[0]) then ReadLine(s)
    else ReadCounted(s[0] - 0x30, 1, s[1..])
  }

  /** The messages of a connection: an empty one is skipped, an error ends the loop. */
  function ReadAll(s: bytes): seq<bytes>
    decreases |s|
  {
    var f := ReadFrame(s);
    if f.err == Ok then Got(f.msg) + ReadAll(f.rest) else Got(f.msg)
  }

  function Got(msg: bytes): seq<bytes> { if msg != [] then [msg] else [] }

  // ---- the program ----

  method ReadSyslogFrame(r: Reader) returns (msg: bytes, err: Err)
    modifies r
    ensures Frame(msg, err, r.rest) == ReadFrame(old(r.rest))
  {
    hide IndexByte, ReadCounted;
    var b := r.ReadByte();
    if b.None? { return [], Eof; }
    if b.value < 0x31 || b.value > 0x39 {
      r.UnreadByte(b.value);
      assert r.rest == old(r.rest);
      msg, err := r.ReadString(NL);
      return;
    }
    var n: nat := b.value - 0x30;
    var digits := 1;
    while true
      invariant ReadFrame(old(r.rest)) == ReadCounted(n, digits, r.rest)
      decreases |r.rest|
    {
      UnfoldCounted(n, digits, r.rest);
      var c := r.ReadByte();
      if c.None? { return [], Eof; }
      if IsDigit(c.value) && digits < MAX_DIGITS {
        n := n * 10 + (c.value - 0x30);
        digits := digits + 1;
        continue;
      }
      if c.value == SPACE && 0 < n <= MAX_FRAME {
        msg, err := r.ReadFull(n);
        if err != Ok { msg := []; }
        return;
      }
      // not an octet count after all
      var prefix := Decimal(n);
      if c.value == NL { return prefix, Ok; }
      var rest;
      rest, err := r.ReadString(NL);
      return prefix + [c.value] + rest, err;
    }
  }

  lemma UnfoldCounted(n: nat, digits: nat, s: bytes)
    ensures ReadCounted(n, digits, s) ==
      if s == [] then Frame([], Eof, [])
      else if IsDigit(s[0]) && digits < MAX_DIGITS then ReadCounted(n * 10 + (s[0] - 0x30), digits + 1, s[1..])
      else if s[0] == SPACE && 0 < n <= MAX_FRAME then
        if n < |s| then Frame(s[1..1 + n], Ok, s[1 + n..]) else Frame([], Short(s[1..]), [])
      else if s[0] == NL then Frame(Decimal(n), Ok, s[1..])
      else ReadLine(s[1..]).(msg := Decimal(n) + [s[0]] + ReadLine(s[1..]).msg)
  {
    hide ReadLine, Decimal;
  }

  method HandleConn(r: Reader) returns (messages: seq<bytes>)
    modifies r
    ensures messages == ReadAll(old(r.rest))
  {
    messages := [];
    while true
      invariant ReadAll(old(r.rest)) == messages + ReadAll(r.rest)
      decreases |r.rest|
    {
      hide ReadFrame;
      ghost var before := messages;
      var msg, err := ReadSyslogFrame(r);
      Regroup(before, Got(msg), ReadAll(r.rest));
      if |msg| > 0 { messages := messages + [msg]; }
      assert messages == before + Got(msg);
      if err != Ok { return; }
    }
  }

  // ---- no byte is lost or made up ----

  /** `seen` is a digit string as the count loop accepts it. */
  predicate CountDigits(seen: bytes) {
    0 < |seen| <= 8 && AllDigits(seen) && seen[0] != 0x30
  }

  ghost predicate IsCountedFrame(s: bytes, msg: bytes, rest: bytes) {
    0 < |msg| <= MAX_FRAME && s == Decimal(|msg|) + [SPACE] + msg + rest
  }

  ghost predicate IsLine(s: bytes, msg: bytes, rest: bytes) {
    msg != [] && msg[|msg| - 1] == NL && NL !in msg[..|msg| - 1] && s == msg + rest
  }

  ghost predicate IsDigitLine(s: bytes, msg: bytes, rest: bytes) {
    CountDigits(msg) && s == msg + [NL] + rest
  }

  /** A count and part of what it announces. */
  ghost predicate IsCutFrame(s: bytes) { exists ds, part :: CutFrame(s, ds, part) }

  predicate CutFrame(s: bytes, ds: bytes, part: bytes) {
    CountDigits(ds) && s == ds + [SPACE] + part && |part| < DecimalValue(ds) <= MAX_FRAME
  }

  /** What a frame may have taken from the stream. At its end, count digits and a cut-off
      counted frame are lost, and anything else is returned whole. */
  ghost predicate Accounted(s: bytes, f: Frame) {
    if f.err == Ok then
      IsCountedFrame(s, f.msg, f.rest) || IsLine(s, f.msg, f.rest) || IsDigitLine(s, f.msg, f.rest)
    else
      f.rest == [] && if f.msg == [] then s == [] || CountDigits(s) || IsCutFrame(s) else f.msg == s
  }

  lemma LineAccounted(s: bytes)
    ensures Accounted(s, ReadLine(s))
  {
    var i := IndexByte(s, NL);
    if i >= 0 { assert s[..i + 1][..i] == s[..i]; }
  }

  lemma DigitAppended(seen: bytes, c: byte)
    requires AllDigits(seen) && IsDigit(c)
    ensures AllDigits(seen + [c]) && DecimalValue(seen + [c]) == DecimalValue(seen) * 10 + (c - 0x30)
  {
    assert (seen + [c])[..|seen|] == seen;
  }

  lemma {:induction false} CountedAccounted(seen: bytes, s: bytes)
    requires CountDigits(seen)
    ensures Accounted(seen + s, ReadCounted(DecimalValue(seen), |seen|, s))
    decreases |s|
  {
    hide IndexByte, DecimalValue, Decimal, ReadLine, ReadCounted;
    DecimalCanonical(seen);
    var n := DecimalValue(seen);
    UnfoldCounted(n, |seen|, s);
    if s == [] {
      assert seen + s == seen;
    } else {
      var c := s[0];
      assert seen + s == seen + [c] + s[1..];
      if IsDigit(c) && |seen| < MAX_DIGITS {
        DigitAppended(seen, c);
        CountedAccounted(seen + [c], s[1..]);
      } else if c == SPACE && 0 < n <= MAX_FRAME {
        SpaceAccounted(seen, s);
      } else if c != NL {
        hide Accounted;
        LineExtends(seen, c, s[1..]);
      }
    }
  }

  lemma SpaceAccounted(seen: bytes, s: bytes)
    requires CountDigits(seen) && s != [] && s[0] == SPACE && DecimalValue(seen) <= MAX_FRAME
    ensures var n := DecimalValue(seen);
      Accounted(seen + s, if n < |s| then Frame(s[1..1 + n], Ok, s[1 + n..]) else Frame([], Short(s[1..]), []))
  {
    hide DecimalValue, Decimal;
    DecimalCanonical(seen);
    var n := DecimalValue(seen);
    assert seen + s == seen + [SPACE] + s[1..];
    if n < |s| {
      assert s[1..] == s[1..1 + n] + s[1 + n..];
      assert IsCountedFrame(seen + s, s[1..1 + n], s[1 + n..]);
    } else {
      assert CutFrame(seen + s, seen, s[1..]);
    }
  }

  lemma LineExtends(seen: bytes, c: byte, s: bytes)
    requires AllDigits(seen) && c != NL
    ensures Accounted(seen + [c] + s, ReadLine(s).(msg := seen + [c] + ReadLine(s).msg))
  {
    hide IndexByte;
    var i := IndexByte(s, NL);
    if i >= 0 {
      NoNewline(seen);
      NoneInside(seen, [c], NL);
      NoneInside(seen + [c], s[..i], NL);
      LineFound(seen + [c], s, i);
    }
  }

  lemma LineFound(head: bytes, s: bytes, i: nat)
    requires i < |s| && s[i] == NL && NL !in head + s[..i]
    ensures IsLine(head + s, head + s[..i + 1], s[i + 1..])
  {
    var msg := head + s[..i + 1];
    assert s[..i + 1] == s[..i] + [NL];
    Regroup(head, s[..i], [NL]);
    assert msg[..|msg| - 1] == head + s[..i];
    assert s == s[..i + 1] + s[i + 1..];
    Regroup(head, s[..i + 1], s[i + 1..]);
  }

  lemma NoNewline(ds: bytes)
    requires AllDigits(ds)
    ensures NL !in ds
  {
    forall i | 0 <= i < |ds| ensures ds[i] != NL { assert IsDigit(ds[i]); }
  }

  lemma NoneInside(a: bytes, b: bytes, c: byte)
    requires c !in a && c !in b
    ensures c !in a + b
  {
  }

  /** Every call accounts for the bytes it consumed: a counted frame with its length, a
      line, or a line of digits without its newline. At the end of the stream it returns
      all that was left, except that it loses count digits and a cut-off counted frame. */
  lemma FrameAccounted(s: bytes)
    ensures Accounted(s, ReadFrame(s))
  {
    hide ReadLine, ReadCounted;
    if s != [] {
      if NonZeroDigit(s[0]) {
        assert s == [s[0]] + s[1..] && [s[0]][..0] == [];
        assert DecimalValue([s[0]]) == s[0] - 0x30;
        CountedAccounted([s[0]], s[1..]);
      } else {
        LineAccounted(s);
      }
    }
  }

  // ---- reading back what was framed ----

  datatype Out = Counted(payload: bytes) | Line(text: bytes)

  function Encode(o: Out): bytes {
    match o
    case Counted(p) => Decimal(|p|) + [0x20] + p
    case Line(t) => t + [0x0A]
  }

  function EncodeAll(os: seq<Out>): bytes {
    if os == [] then [] else Encode(os[0]) + EncodeAll(os[1..])
  }

  /** How many digits `t` starts with, up to eight. */
  function Lead(t: bytes, max: nat): (d: nat)
    ensures d <= max && d <= |t| && AllDigits(t[..d])
    ensures d == max || d == |t| || !IsDigit(t[d])
  {
    if max == 0 || t == [] || !IsDigit(t[0]) then 0
    else
      var d := Lead(t[1..], max - 1);
      assert t[..d + 1] == [t[0]] + t[1..][..d];
      d + 1
  }

  /** A line that starts like an octet count: up to eight digits, a space, and a number
      that could be a length. */
  predicate LooksCounted(t: bytes) {
    var d := Lead(t, 8);
    0 < d < |t| && t[0] != 0x30 && t[d] == 0x20 && DecimalValue(t[..d]) <= 0x10_0000
  }

  /** A line comes back with its newline, unless it is all count digits. */
  function ReadBack(o: Out): bytes {
    match o
    case Counted(p) => p
    case Line(t) => if CountDigits(t) then t else t + [0x0A]
  }

  predicate Readable(o: Out) {
    match o
    case Counted(p) => 0 < |p| <= 0x10_0000
    case Line(t) => 0x0A !in t && !LooksCounted(t)
  }

  lemma {:induction false} CountsDigits(seen: bytes, ds: bytes, rest: bytes)
    requires AllDigits(seen) && AllDigits(ds) && |seen| + |ds| <= MAX_DIGITS
    ensures ReadCounted(DecimalValue(seen), |seen|, ds + rest)
         == ReadCounted(DecimalValue(seen + ds), |seen + ds|, rest)
    decreases |ds|
  {
    if ds == [] {
      assert ds + rest == rest && seen + ds == seen;
    } else {
      hide DecimalValue;
      assert (ds + rest)[0] == ds[0] && (ds + rest)[1..] == ds[1..] + rest;
      assert seen + [ds[0]] + ds[1..] == seen + ds;
      DigitAppended(seen, ds[0]);
      CountsDigits(seen + [ds[0]], ds[1..], rest);
    }
  }

  /** A frame that starts with count digits, at the byte after them. */
  lemma StartsCounting(ds: bytes, rest: bytes)
    requires CountDigits(ds)
    ensures ReadFrame(ds + rest) == ReadCounted(DecimalValue(ds), |ds|, rest)
  {
    hide ReadCounted;
    assert (ds + rest)[0] == ds[0] && (ds + rest)[1..] == ds[1..] + rest;
    assert [ds[0]] + ds[1..] == ds && [ds[0]][..0] == [];
    assert DecimalValue([ds[0]]) == ds[0] - 0x30;
    CountsDigits([ds[0]], ds[1..], rest);
  }

  lemma SizeDigits(n: nat)
    requires 0 < n <= MAX_FRAME
    ensures CountDigits(Decimal(n)) && DecimalValue(Decimal(n)) == n
  {
    PowersOfTen();
    hide Decimal, DecimalValue, Pow10;
    DecimalRoundTrip(n);
    DecimalLength(n, 8);
  }

  lemma CountedReads(p: bytes, rest: bytes)
    requires 0 < |p| <= MAX_FRAME
    ensures ReadFrame(Encode(Counted(p)) + rest) == Frame(p, Ok, rest)
  {
    var ds := Decimal(|p|);
    SizeDigits(|p|);
    hide Decimal, DecimalValue, Pow10, ReadLine, ReadCounted, ReadFrame;
    var tail := [SPACE] + (p + rest);
    Regroup(ds, [SPACE], p);
    Regroup4(ds, [SPACE], p, rest);
    StartsCounting(ds, tail);
    assert tail[1..1 + |p|] == p && tail[1 + |p|..] == rest;
    CountEnds(|p|, |ds|, tail);
  }

  /** The end of a count, with all that it announces. */
  lemma CountEnds(n: nat, digits: nat, s: bytes)
    requires 0 < n <= MAX_FRAME && n < |s| && s[0] == SPACE
    ensures ReadCounted(n, digits, s) == Frame(s[1..1 + n], Ok, s[1 + n..])
  {
    hide ReadLine, Decimal;
  }

  lemma LineReads(t: bytes, rest: bytes)
    requires NL !in t
    ensures ReadLine(t + [NL] + rest) == Frame(t + [NL], Ok, rest)
  {
    hide IndexByte;
    IndexAfter(t, NL, rest);
    assert (t + [NL] + rest)[..|t| + 1] == t + [NL];
    DropPrefix(t + [NL], rest);
  }

  lemma PlainLineReads(t: bytes, rest: bytes)
    requires NL !in t && (t == [] || !NonZeroDigit(t[0]))
    ensures ReadFrame(t + [NL] + rest) == Frame(ReadBack(Line(t)), Ok, rest) && !LooksCounted(t)
  {
    LineReads(t, rest);
    hide ReadLine, DecimalValue;
    assert t != [] ==> (t + [NL] + rest)[0] == t[0];
  }

  lemma DigitLineReads(t: bytes, rest: bytes)
    requires CountDigits(t)
    ensures ReadFrame(t + [NL] + rest) == Frame(t, Ok, rest)
  {
    Regroup(t, [NL], rest);
    StartsCounting(t, [NL] + rest);
    DecimalCanonical(t);
    hide Decimal, DecimalValue;
    assert ([NL] + rest)[1..] == rest;
  }

  /** Count digits, then a byte that is neither a newline nor the end of a count. */
  lemma NumberedLineReads(ds: bytes, c: byte, tail: bytes)
    requires CountDigits(ds) && c != NL
    requires IsDigit(c) ==> |ds| == MAX_DIGITS
    requires c == SPACE ==> DecimalValue(ds) > MAX_FRAME
    ensures ReadFrame(ds + ([c] + tail)) == ReadLine(tail).(msg := ds + [c] + ReadLine(tail).msg)
  {
    StartsCounting(ds, [c] + tail);
    DecimalCanonical(ds);
    hide Decimal, DecimalValue, ReadLine;
    assert ([c] + tail)[0] == c && ([c] + tail)[1..] == tail;
  }

  /** A newline-delimited line is read back as that line if and only if it does not look
      like an octet count. */
  lemma LineReadsBackExactly(t: bytes, rest: bytes)
    requires NL !in t
    ensures ReadFrame(t + [NL] + rest) == Frame(ReadBack(Line(t)), Ok, rest) <==> !LooksCounted(t)
  {
    hide DecimalValue, Lead, ReadFrame, ReadCounted;
    var d := Lead(t, MAX_DIGITS);
    if t == [] || !NonZeroDigit(t[0]) {
      PlainLineReads(t, rest);
    } else if d == |t| {
      assert t[..d] == t;
      DigitLineReads(t, rest);
    } else {
      var ds, more := t[..d], t[d + 1..];
      assert d > 0;
      DecimalCanonical(ds);
      NotAllCountDigits(t, d);
      if LooksCounted(t) {
        LineApart(t, d, rest);
        StartsCounting(ds, t[d..] + [NL] + rest);
        SwallowedLength(t, d, rest);
      } else {
        hide ReadLine;
        LineApart(t, d, rest);
        NumberedLineReads(ds, t[d], more + [NL] + rest);
        LineReads(more, rest);
      }
    }
  }

  /** A line taken apart at its byte `t[d]`. */
  lemma LineApart(t: bytes, d: nat, rest: bytes)
    requires d < |t|
    ensures t + [NL] + rest == t[..d] + (t[d..] + [NL] + rest)
    ensures t + [NL] + rest == t[..d] + ([t[d]] + (t[d + 1..] + [NL] + rest))
    ensures t[..d] + [t[d]] + (t[d + 1..] + [NL]) == t + [NL]
  {
    SplitAt(t, d);
    Regroup(t[..d], t[d..], [NL] + rest);
    Regroup4(t[..d], [t[d]], t[d + 1..], [NL] + rest);
    Regroup(t, [NL], rest);
    Regroup(t[d..], [NL], rest);
    Regroup(t[d + 1..], [NL], rest);
    Regroup(t[..d] + [t[d]], t[d + 1..], [NL]);
  }

  lemma NotAllCountDigits(t: bytes, d: nat)
    requires d == Lead(t, MAX_DIGITS) && d < |t|
    ensures !CountDigits(t)
  {
    hide Lead;
    assert IsDigit(t[d]) ==> |t| > MAX_DIGITS;
  }

  /** The other half: a line taken for a counted frame does not come back as itself. */
  lemma SwallowedLength(t: bytes, d: nat, rest: bytes)
    requires 0 < d < |t| && AllDigits(t[..d]) && t[d] == SPACE && 0 < DecimalValue(t[..d]) <= MAX_FRAME
    requires !CountDigits(t)
    ensures ReadCounted(DecimalValue(t[..d]), d, t[d..] + [NL] + rest) != Frame(ReadBack(Line(t)), Ok, rest)
  {
    hide DecimalValue, ReadLine;
    var n, s := DecimalValue(t[..d]), t[d..] + [NL] + rest;
    assert s[0] == SPACE;
    if n < |s| && s[1 + n..] == rest {
      assert |s| == |t| - d + 1 + |rest|;
      assert |s[1..1 + n]| < |t + [NL]|;
    }
  }

  // ---- the end of the stream ----

  /** Digits that could be a count, and then nothing more: they are lost. */
  lemma DigitsAtEndLost(s: bytes)
    requires CountDigits(s)
    ensures ReadFrame(s) == Frame([], Eof, [])
  {
    assert s + [] == s;
    StartsCounting(s, []);
    hide DecimalValue;
  }

  /** For instance the two bytes of "42". */
  lemma FortyTwoLost()
    ensures ReadAll([0x34, 0x32]) == []
  {
    DigitsAtEndLost([0x34, 0x32]);
    hide ReadFrame;
  }

  /** The rest of a stream without a final newline is returned as the last message if and
      only if it is neither all count digits nor looks like an octet count. */
  lemma LastMessageExactly(s: bytes)
    requires s != [] && NL !in s
    ensures ReadFrame(s) == Frame(s, Eof, []) <==> !CountDigits(s) && !LooksCounted(s)
  {
    hide DecimalValue, Lead, ReadFrame, ReadCounted, ReadLine;
    var d := Lead(s, MAX_DIGITS);
    if !NonZeroDigit(s[0]) {
      PlainEnd(s);
    } else if d == |s| {
      assert s[..d] == s;
      DigitsAtEndLost(s);
    } else {
      var ds, more := s[..d], s[d + 1..];
      assert d > 0;
      DecimalCanonical(ds);
      NotAllCountDigits(s, d);
      SplitAt(s, d);
      if LooksCounted(s) {
        StartsCounting(ds, s[d..]);
        CountedEnd(DecimalValue(ds), d, s[d..], s);
      } else {
        NumberedLineReads(ds, s[d], more);
        LineEnd(more);
      }
    }
  }

  lemma LineEnd(s: bytes)
    requires NL !in s
    ensures ReadLine(s) == Frame(s, Eof, [])
  {
    hide IndexByte;
  }

  lemma PlainEnd(s: bytes)
    requires s != [] && NL !in s && !NonZeroDigit(s[0])
    ensures ReadFrame(s) == Frame(s, Eof, []) && !CountDigits(s) && !LooksCounted(s)
  {
    LineEnd(s);
    hide ReadLine, DecimalValue;
  }

  /** A count takes what it announces, or nothing comes back: never the whole rest. */
  lemma CountedEnd(n: nat, digits: nat, s: bytes, whole: bytes)
    requires s != [] && s[0] == SPACE && 0 < n <= MAX_FRAME && |s| < |whole|
    ensures ReadCounted(n, digits, s) != Frame(whole, Eof, [])
  {
    hide ReadLine;
  }

  function ReadBackAll(os: seq<Out>): seq<bytes> {
    if os == [] then [] else [ReadBack(os[0])] + ReadBackAll(os[1..])
  }

  /** Any mix of the two framings reads back in order. */
  lemma {:induction false} ReadAllInvertsEncodeAll(os: seq<Out>)
    requires forall i :: 0 <= i < |os| ==> Readable(os[i])
    ensures ReadAll(EncodeAll(os)) == ReadBackAll(os)
    decreases |os|
  {
    if os != [] {
      hide ReadFrame, Encode, Readable, ReadBack;
      FrameReadsBack(os[0], EncodeAll(os[1..]));
      ReadAllInvertsEncodeAll(os[1..]);
    }
  }

  lemma FrameReadsBack(o: Out, rest: bytes)
    requires Readable(o)
    ensures ReadFrame(Encode(o) + rest) == Frame(ReadBack(o), Ok, rest) && ReadBack(o) != []
  {
    hide ReadFrame, LooksCounted;
    match o
    case Counted(p) => CountedReads(p, rest);
    case Line(t) => LineReadsBackExactly(t, rest);
  }

  // ---- a stream that ends without a newline ----

  /** The messages in what is left when no newline comes any more: the text itself; nothing if
      it is all count digits; or, if it looks like an octet count, as many bytes as that
      announces and then what follows them, or nothing if there are not as many. */
  function LastMessages(s: bytes): seq<bytes>
    decreases |s|
  {
    if s == [] || CountDigits(s) then []
    else if LooksCounted(s) then
      var (n, rest) := Announced(s);
      if 0 < n <= |rest| then [rest[..n]] + LastMessages(rest[n..]) else []
    else [s]
  }

  /** The count that `s` looks like, and what follows its space. */
  function Announced(s: bytes): (r: (nat, bytes))
    requires LooksCounted(s)
    ensures |r.1| < |s|
  {
    (DecimalValue(s[..Lead(s, 8)]), s[Lead(s, 8) + 1..])
  }

  lemma {:induction false} EndReads(s: bytes)
    requires NL !in s
    ensures ReadAll(s) == LastMessages(s)
    decreases |s|
  {
    hide CountDigits, LooksCounted, ReadAll, LastMessages, Lead, DecimalValue;
    if s == [] {
      NothingRead();
    } else if CountDigits(s) {
      OnlyDigitsRead(s);
    } else if LooksCounted(s) {
      var (n, rest) := Announced(s);
      CountedReadsOn(s, n, rest);
      CountedMessages(s);
      if n <= |rest| { EndReads(rest[n..]); }
    } else {
      PlainRestRead(s);
    }
  }

  lemma OnlyDigitsRead(s: bytes)
    requires CountDigits(s)
    ensures ReadAll(s) == [] == LastMessages(s)
  {
    DigitsAtEndLost(s);
    hide CountDigits, ReadFrame, LooksCounted;
  }

  lemma PlainRestRead(s: bytes)
    requires s != [] && NL !in s && !CountDigits(s) && !LooksCounted(s)
    ensures ReadAll(s) == [s] == LastMessages(s)
  {
    hide CountDigits, ReadFrame, LooksCounted;
    LastMessageExactly(s);
  }

  lemma CountedMessages(s: bytes)
    requires s != [] && !CountDigits(s) && LooksCounted(s)
    ensures var (n, rest) := Announced(s);
      LastMessages(s) == if 0 < n <= |rest| then [rest[..n]] + LastMessages(rest[n..]) else []
  {
    hide CountDigits, LooksCounted, Announced;
  }

  lemma CountedReadsOn(s: bytes, n: nat, rest: bytes)
    requires LooksCounted(s) && Announced(s) == (n, rest)
    ensures n > 0 && (NL !in s ==> NL !in rest)
    ensures ReadAll(s) == if n <= |rest| then [rest[..n]] + ReadAll(rest[n..]) else []
  {
    hide LooksCounted, ReadFrame, Lead, DecimalValue;
    CountedAtEnd(s, n, rest);
    assert n <= |rest| ==> |rest[..n]| == n;
  }

  lemma NothingRead()
    ensures ReadAll([]) == [] == LastMessages([])
  {
  }

  lemma OneMessage(s: bytes)
    requires s != [] && !CountDigits(s) && !LooksCounted(s)
    ensures LastMessages(s) == [s]
  {
    hide CountDigits, LooksCounted;
  }

  /** What looks counted is read as a count, whether or not its bytes are all there. */
  lemma CountedAtEnd(s: bytes, n: nat, rest: bytes)
    requires LooksCounted(s) && Announced(s) == (n, rest)
    ensures s != [] && n > 0
    ensures var f := ReadFrame(s);
      if n <= |rest| then f == Frame(rest[..n], Ok, rest[n..]) else f.err != Ok && f.msg == []
  {
    hide ReadFrame, Lead, DecimalValue, ReadLine, ReadCounted, LooksCounted, CountDigits;
    var d := Lead(s, 8);
    LooksParts(s, d);
    SplitAt(s, d);
    StartsCounting(s[..d], s[d..]);
    CountEndsWith(n, d, rest);
  }

  lemma CountEndsWith(n: nat, digits: nat, rest: bytes)
    requires 0 < n <= MAX_FRAME
    ensures var f := ReadCounted(n, digits, [SPACE] + rest);
      if n <= |rest| then f == Frame(rest[..n], Ok, rest[n..]) else f.err != Ok && f.msg == []
  {
    var s := [SPACE] + rest;
    hide ReadLine, Decimal;
    assert s[1..] == rest;
    if n <= |rest| { assert s[1..1 + n] == rest[..n] && s[1 + n..] == rest[n..]; }
  }

  lemma LooksParts(s: bytes, d: nat)
    requires d == Lead(s, MAX_DIGITS) && LooksCounted(s)
    ensures 0 < d < |s| && s[d] == SPACE && CountDigits(s[..d]) && 0 < DecimalValue(s[..d]) <= MAX_FRAME
  {
    hide Lead, DecimalValue;
    assert s[..d][0] == s[0];
    DecimalCanonical(s[..d]);
  }

  /** All that a connection yields: the framed messages in order, and then those of whatever
      follows them without a newline. */
  lemma {:induction false} ConnectionReads(os: seq<Out>, s: bytes)
    requires (forall i :: 0 <= i < |os| ==> Readable(os[i])) && NL !in s
    ensures ReadAll(EncodeAll(os) + s) == ReadBackAll(os) + LastMessages(s)
    decreases |os|
  {
    if os == [] {
      assert EncodeAll(os) + s == s;
      EndReads(s);
    } else {
      hide ReadFrame, Encode, Readable, ReadBack, LastMessages;
      var tail := EncodeAll(os[1..]) + s;
      Regroup(Encode(os[0]), EncodeAll(os[1..]), s);
      FrameReadsBack(os[0], tail);
      ConnectionReads(os[1..], s);
      Regroup([ReadBack(os[0])], ReadBackAll(os[1..]), LastMessages(s));
    }
  }

  /** In particular a last line without its newline is not lost, unless it is taken for a count. */
  lemma UnterminatedIsKept(os: seq<Out>, s: bytes)
    requires forall i :: 0 <= i < |os| ==> Readable(os[i])
    requires s != [] && NL !in s && !CountDigits(s) && !LooksCounted(s)
    ensures ReadAll(EncodeAll(os) + s) == ReadBackAll(os) + [s]
  {
    hide ReadAll, Readable, CountDigits, LooksCounted, LastMessages;
    ConnectionReads(os, s);
    OneMessage(s);
  }
}
