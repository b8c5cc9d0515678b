/** The journal export decoder: entries of text and binary fields, reassembled from
    datagrams that may cut the stream anywhere. */
module Journald {
  import opened Common
  import opened Bytes

  type Fields = map<bytes, bytes>

  const MAX_BUF := 0x10_0000

  // ---- one item of the stream ----

  datatype Item =
    | Incomplete                                        // more bytes are needed
    | Oversize                                          // a binary field declares too many bytes
    | Terminator(size: nat)                             // the empty line that ends an entry
    | Field(name: bytes, value: bytes, size: nat)

  /** A binary field whose name ends at `nl`: eight bytes of length, the data, one byte more. */
  function SizedItem(buf: bytes, nl: nat): (i: Item)
    requires nl < |buf|
    ensures i.Incomplete? || i.Oversize? || (i.Field? && nl < i.size <= |buf|)
  {
    var start := nl + 9;
    if |buf| < start then Incomplete
    else
      var n := FromLittleEndian(buf[nl + 1..start]);
      if n > MAX_BUF then Oversize
      else if |buf| < start + n + 1 then Incomplete
      else Field(buf[..nl], buf[start..start + n], start + n + 1)
  }

  /** What the buffer starts with, and how many bytes it takes. */
  function NextItem(buf: bytes): (i: Item)
    ensures i.Terminator? || i.Field? ==> 0 < i.size <= |buf|
  {
    var nl := IndexByte(buf, NL);
    if nl < 0 then Incomplete
    else if nl == 0 then Terminator(1)
    else
      var line := buf[..nl];
      var eq := IndexByte(line, EQUALS);
      if eq >= 0 then Field(line[..eq], line[eq + 1..], nl + 1) else SizedItem(buf, nl)
  }

  // ---- the one-shot parser ----

  datatype Parsed = Parsed(entries: seq<Fields>, fields: Fields, rest: bytes, lost: bool)

  function Prepend(entries: seq<Fields>, p: Parsed): Parsed {
    p.(entries := entries + p.entries)
  }

  lemma PrependTwice(es: seq<Fields>, fs: seq<Fields>, p: Parsed)
    ensures Prepend(es, Prepend(fs, p)) == Prepend(es + fs, p)
  {
    assert es + (fs + p.entries) == es + fs + p.entries;
  }

  lemma PrependNothing(es: seq<Fields>, p: Parsed)
    ensures Prepend([], p) == p
    ensures p.entries == [] ==> Prepend(es, p) == p.(entries := es)
    ensures es + [] == es
  {
    assert [] + p.entries == p.entries;
  }

  /** All the complete items of a stream, read at once, from an entry already begun. */
  function Parse(fields: Fields, buf: bytes): (p: Parsed)
    ensures |p.rest| <= |buf|
    decreases |buf|
  {
    match NextItem(buf)
    case Incomplete => Parsed([], fields, buf, false)
    case Oversize => Parsed([], fields, buf, true)
    case Terminator(size) =>
      Prepend(if fields == map[] then [] else [fields], Parse(map[], buf[size..]))
    case Field(name, value, size) => Parse(fields[name := value], buf[size..])
  }

  // ---- the decoder ----

  /** What one call makes of the buffer it is left with. */
  function Fed(fields: Fields, buf: bytes, chunk: bytes): Parsed {
    if |buf + chunk| > MAX_BUF then Parsed([], map[], [], true)
    else
      var p := Parse(fields, buf + chunk);
      if p.lost then Parsed(p.entries, map[], [], true) else p
  }

  class Decoder {
    var buf: bytes
    var fields: Fields

    constructor ()
      ensures buf == [] && fields == map[]
    {
      buf, fields := [], map[];
    }

    /** Reads the item the buffer starts with. */
    method Head() returns (i: Item)
      ensures i == NextItem(buf)
    {
      hide IndexByte, FromLittleEndian;
      var nl := IndexByte(buf, NL);
      if nl < 0 { return Incomplete; }
      var line := buf[..nl];
      if |line| == 0 { return Terminator(nl + 1); }
      var eq := IndexByte(line, EQUALS);
      if eq >= 0 { return Field(line[..eq], line[eq + 1..], nl + 1); }
      var need := nl + 1 + 8;
      if |buf| < need { return Incomplete; }
      var size := FromLittleEndian(buf[nl + 1..need]);
      if size > MAX_BUF { return Oversize; }
      if |buf| < need + size + 1 { return Incomplete; }
      return Field(line, buf[need..need + size], need + size + 1); // the byte after the data is skipped unseen
    }

    /** Takes in a chunk and returns the entries it completes; an overflow or an oversize
        length throws away what is buffered. */
    method Feed(chunk: bytes) returns (done: seq<Fields>)
      modifies this
      ensures var p := Fed(old(fields), old(buf), chunk);
        done == p.entries && fields == p.fields && buf == p.rest
    {
      buf := buf + chunk;
      if |buf| > MAX_BUF {
        buf, fields := [], map[];
        return [];
      }
      done := [];
      ghost var whole := Parse(fields, buf);
      PrependNothing([], whole);
      while true
        invariant whole == Prepend(done, Parse(fields, buf))
        decreases |buf|
      {
        hide Parse, NextItem, Prepend;
        var item := Head();
        UnfoldParse(fields, buf);
        match item {
          case Incomplete =>
            PrependNothing(done, Parse(fields, buf));
            return;
          case Oversize =>
            PrependNothing(done, Parse(fields, buf));
            buf, fields := [], map[];
            return;
          case Terminator(size) =>
            buf := buf[size..];
            PrependTwice(done, if fields == map[] then [] else [fields], Parse(map[], buf));
            PrependNothing(done, whole);
            if fields != map[] { done := done + [fields]; }
            fields := map[];
          case Field(name, value, size) =>
            fields := fields[name := value];
            buf := buf[size..];
        }
      }
    }
  }

  lemma UnfoldParse(fields: Fields, buf: bytes)
    ensures match NextItem(buf)
      case Incomplete => Parse(fields, buf) == Parsed([], fields, buf, false)
      case Oversize => Parse(fields, buf) == Parsed([], fields, buf, true)
      case Terminator(size) =>
        Parse(fields, buf) == Prepend(if fields == map[] then [] else [fields], Parse(map[], buf[size..]))
      case Field(name, value, size) => Parse(fields, buf) == Parse(fields[name := value], buf[size..])
  {
    hide NextItem;
  }

  // ---- chunking ----

  lemma IndexPrefix(a: bytes, b: bytes, c: byte)
    requires c in a
    ensures IndexByte(a + b, c) == IndexByte(a, c)
  {
    var i := IndexByte(a, c);
    assert a + b == a[..i] + [c] + (a[i + 1..] + b);
    IndexAfter(a[..i], c, a[i + 1..] + b);
  }

  lemma TerminatorReads(s: bytes)
    requires s != [] && s[0] == NL
    ensures NextItem(s) == Terminator(1)
  {
  }

  lemma TextItem(buf: bytes, line: bytes, eq: nat)
    requires IndexByte(buf, NL) == |line| > 0 && buf[..|line|] == line && 0 <= eq == IndexByte(line, EQUALS)
    ensures NextItem(buf) == Field(line[..eq], line[eq + 1..], |line| + 1)
  {
    hide IndexByte;
  }

  lemma BinaryItem(buf: bytes, nl: nat)
    requires IndexByte(buf, NL) == nl && nl > 0 && EQUALS !in buf[..nl]
    ensures NextItem(buf) == SizedItem(buf, nl)
  {
    hide SizedItem, IndexByte;
    assert IndexByte(buf[..nl], EQUALS) < 0;
  }

  lemma SizedItemPrefix(a: bytes, b: bytes, nl: nat)
    requires nl < |a| && SizedItem(a, nl) != Incomplete
    ensures SizedItem(a + b, nl) == SizedItem(a, nl)
  {
    hide FromLittleEndian;
    var start := nl + 9;
    assert (a + b)[..nl] == a[..nl];
    assert (a + b)[nl + 1..start] == a[nl + 1..start];
    var n := FromLittleEndian(a[nl + 1..start]);
    if n <= MAX_BUF { assert (a + b)[start..start + n] == a[start..start + n]; }
  }

  /** Once an item is complete, what follows it does not change it. */
  lemma NextItemPrefix(a: bytes, b: bytes)
    requires NextItem(a) != Incomplete
    ensures NextItem(a + b) == NextItem(a)
  {
    hide SizedItem, IndexByte;
    var nl := IndexByte(a, NL);
    IndexPrefix(a, b, NL);
    assert (a + b)[..nl] == a[..nl];
    if nl > 0 && IndexByte(a[..nl], EQUALS) < 0 { SizedItemPrefix(a, b, nl); }
  }

  /** Parsing a stream is parsing a part of it, then the remainder with the rest. */
  lemma {:induction false} ParseConcat(fields: Fields, a: bytes, b: bytes)
    requires !Parse(fields, a).lost
    ensures var p := Parse(fields, a);
      Parse(fields, a + b) == Prepend(p.entries, Parse(p.fields, p.rest + b))
    decreases |a|
  {
    hide NextItem, Parse;
    var p, item := Parse(fields, a), NextItem(a);
    UnfoldParse(fields, a);
    if item == Incomplete {
      PrependNothing([], Parse(fields, a + b));
    } else {
      NextItemPrefix(a, b);
      UnfoldParse(fields, a + b);
      assert (a + b)[item.size..] == a[item.size..] + b;
      if item.Terminator? {
        ParseConcat(map[], a[item.size..], b);
        var q := Parse(map[], a[item.size..]);
        PrependTwice(if fields == map[] then [] else [fields], q.entries, Parse(q.fields, q.rest + b));
      } else {
        ParseConcat(fields[item.name := item.value], a[item.size..], b);
      }
    }
  }

  /** An oversize length stays one, whatever follows. */
  lemma {:induction false} LostStays(fields: Fields, a: bytes, b: bytes)
    requires Parse(fields, a).lost
    ensures Parse(fields, a + b).lost && Parse(fields, a + b).entries == Parse(fields, a).entries
    decreases |a|
  {
    hide NextItem, Parse;
    var item := NextItem(a);
    UnfoldParse(fields, a);
    NextItemPrefix(a, b);
    UnfoldParse(fields, a + b);
    if item != Oversize {
      assert (a + b)[item.size..] == a[item.size..] + b;
      LostStays(if item.Terminator? then map[] else fields[item.name := item.value], a[item.size..], b);
    }
  }

  function Concat(chunks: seq<bytes>): bytes {
    if chunks == [] then [] else chunks[0] + Concat(chunks[1..])
  }

  /** The calls of one decoder, chunk after chunk. */
  function FeedAll(fields: Fields, buf: bytes, chunks: seq<bytes>): Parsed
    decreases |chunks|
  {
    if chunks == [] then Parsed([], fields, buf, false)
    else
      var p := Fed(fields, buf, chunks[0]);
      var q := FeedAll(p.fields, p.rest, chunks[1..]);
      Prepend(p.entries, q.(lost := p.lost || q.lost))
  }

  /** Each chunk fits into the buffer beside the remainder of the chunks before it. */
  ghost predicate Fits(fields: Fields, buf: bytes, chunks: seq<bytes>)
    decreases |chunks|
  {
    chunks == [] ||
    (|buf| + |chunks[0]| <= 0x10_0000 &&
     var p := Parse(fields, buf + chunks[0]); Fits(p.fields, p.rest, chunks[1..]))
  }

  ghost predicate Settled(buf: bytes) { NextItem(buf) == Incomplete }

  lemma {:induction false} ParseSettles(fields: Fields, buf: bytes)
    requires !Parse(fields, buf).lost
    ensures Settled(Parse(fields, buf).rest)
    decreases |buf|
  {
    hide NextItem, Parse;
    var item := NextItem(buf);
    UnfoldParse(fields, buf);
    if item != Incomplete {
      ParseSettles(if item.Terminator? then map[] else fields[item.name := item.value], buf[item.size..]);
    }
  }

  lemma {:induction false} FeedSettles(fields: Fields, buf: bytes, chunks: seq<bytes>)
    requires Settled(buf)
    ensures Settled(FeedAll(fields, buf, chunks).rest)
    decreases |chunks|
  {
    if chunks != [] {
      hide NextItem, Parse, Settled;
      EmptySettled(fields);
      if !Parse(fields, buf + chunks[0]).lost { ParseSettles(fields, buf + chunks[0]); }
      var p := Fed(fields, buf, chunks[0]);
      FeedSettles(p.fields, p.rest, chunks[1..]);
    }
  }

  /** One parse stops at an oversize length, where the decoder forgets its buffer. */
  lemma {:induction false} LostAtOversize(fields: Fields, buf: bytes)
    ensures Parse(fields, buf).lost ==> !Settled(Parse(fields, buf).rest)
    decreases |buf|
  {
    hide NextItem, Parse;
    var item := NextItem(buf);
    UnfoldParse(fields, buf);
    if item.Terminator? || item.Field? {
      LostAtOversize(if item.Terminator? then map[] else fields[item.name := item.value], buf[item.size..]);
    }
  }

  /** However a stream is cut into chunks, the decoder yields what one parse of the whole
      stream yields, or else it has dropped something, and what it ends with differs. It
      drops nothing exactly when every chunk fits and the stream declares no oversize field. */
  lemma {:induction false} ChunkingIndependent(fields: Fields, buf: bytes, chunks: seq<bytes>)
    requires Settled(buf)
    ensures var whole := Parse(fields, buf + Concat(chunks));
      !FeedAll(fields, buf, chunks).lost <==> Fits(fields, buf, chunks) && !whole.lost
    ensures !FeedAll(fields, buf, chunks).lost <==>
      FeedAll(fields, buf, chunks) == Parse(fields, buf + Concat(chunks))
    decreases |chunks|
  {
    FeedSettles(fields, buf, chunks);
    LostAtOversize(fields, buf + Concat(chunks));
    if chunks == [] {
      assert buf + Concat(chunks) == buf;
    } else {
      hide NextItem, Parse, Settled;
      var p, tail := Parse(fields, buf + chunks[0]), Concat(chunks[1..]);
      Regroup(buf, chunks[0], tail);
      if p.lost {
        LostStays(fields, buf + chunks[0], tail);
      } else {
        ParseConcat(fields, buf + chunks[0], tail);
        ParseSettles(fields, buf + chunks[0]);
        ChunkingIndependent(p.fields, p.rest, chunks[1..]);
      }
    }
  }

  // ---- round trip ----

  datatype Out = Out(name: bytes, value: bytes, binary: bool)

  predicate Writable(f: Out) {
    && f.name != [] && 0x0A !in f.name && 0x3D !in f.name
    && (if f.binary then |f.value| <= 0x10_0000 else 0x0A !in f.value)
  }

  predicate WritableEntry(fs: seq<Out>) {
    fs != [] && forall i :: 0 <= i < |fs| ==> Writable(fs[i])
  }

  function EncodeField(f: Out): bytes {
    if f.binary then f.name + [0x0A] + (LittleEndian(|f.value|, 8) + f.value + [0x0A])
    else f.name + [0x3D] + f.value + [0x0A]
  }

  function EncodeFields(fs: seq<Out>): bytes {
    if fs == [] then [0x0A] else EncodeField(fs[0]) + EncodeFields(fs[1..])
  }

  function EncodeAll(entries: seq<seq<Out>>): bytes {
    if entries == [] then [] else EncodeFields(entries[0]) + EncodeAll(entries[1..])
  }

  /** The map an entry stands for: a repeated name keeps its last value. */
  function Assign(fields: Fields, fs: seq<Out>): Fields
    decreases |fs|
  {
    if fs == [] then fields else Assign(fields[fs[0].name := fs[0].value], fs[1..])
  }

  function AssignAll(entries: seq<seq<Out>>): seq<Fields> {
    if entries == [] then [] else [Assign(map[], entries[0])] + AssignAll(entries[1..])
  }

  lemma TextFieldReads(f: Out, rest: bytes)
    requires Writable(f) && !f.binary
    ensures NextItem(EncodeField(f) + rest) == Field(f.name, f.value, |EncodeField(f)|)
  {
    hide IndexByte, NextItem;
    var line := f.name + [EQUALS] + f.value;
    var s := line + [NL] + rest;
    IndexAfter(line, NL, rest);
    IndexAfter(f.name, EQUALS, f.value);
    assert s[..|line|] == line;
    assert line[..|f.name|] == f.name && line[|f.name| + 1..] == f.value;
    TextItem(s, line, |f.name|);
  }

  lemma BinaryFieldReads(f: Out, rest: bytes)
    requires Writable(f) && f.binary
    ensures NextItem(EncodeField(f) + rest) == Field(f.name, f.value, |EncodeField(f)|)
  {
    hide LittleEndian, FromLittleEndian, NextItem, IndexByte;
    var nl, n, size := |f.name|, |f.value|, LittleEndian(|f.value|, 8);
    var body := size + f.value + [NL];
    var s := f.name + [NL] + body + rest;
    Regroup(f.name + [NL], body, rest);
    IndexAfter(f.name, NL, body + rest);
    assert s[..nl] == f.name && s[nl + 1..nl + 9] == size && s[nl + 9..nl + 9 + n] == f.value;
    Pow256Values();
    LittleEndianRoundTrip(n, 8);
    BinaryItem(s, nl);
  }

  lemma {:induction false} FieldsReadBack(fields: Fields, fs: seq<Out>, rest: bytes)
    requires forall i :: 0 <= i < |fs| ==> Writable(fs[i])
    requires fields != map[] || fs != []
    ensures Parse(fields, EncodeFields(fs) + rest) == Prepend([Assign(fields, fs)], Parse(map[], rest))
    decreases |fs|
  {
    hide NextItem, Parse, Prepend;
    var s := EncodeFields(fs) + rest;
    UnfoldParse(fields, s);
    if fs == [] {
      assert s[0] == NL && s[1..] == rest;
      assert IndexByte(s, NL) == 0;
      assert NextItem(s) == Terminator(1) by { TerminatorReads(s); }
    } else {
      hide EncodeField;
      var f, tail := fs[0], EncodeFields(fs[1..]) + rest;
      Regroup(EncodeField(f), EncodeFields(fs[1..]), rest);
      if f.binary { BinaryFieldReads(f, tail); } else { TextFieldReads(f, tail); }
      DropPrefix(EncodeField(f), tail);
      assert f.name in fields[f.name := f.value];
      FieldsReadBack(fields[f.name := f.value], fs[1..], rest);
    }
  }

  /** Decoding what an exporter writes gives its entries back. */
  lemma {:induction false} ParseInvertsEncode(entries: seq<seq<Out>>, rest: bytes)
    requires forall i :: 0 <= i < |entries| ==> WritableEntry(entries[i])
    ensures Parse(map[], EncodeAll(entries) + rest) == Prepend(AssignAll(entries), Parse(map[], rest))
    decreases |entries|
  {
    hide NextItem, Parse, EncodeFields, Prepend;
    if entries == [] {
      assert EncodeAll(entries) + rest == rest;
      PrependNothing([], Parse(map[], rest));
    } else {
      Regroup(EncodeFields(entries[0]), EncodeAll(entries[1..]), rest);
      assert WritableEntry(entries[0]);
      FieldsReadBack(map[], entries[0], EncodeAll(entries[1..]) + rest);
      ParseInvertsEncode(entries[1..], rest);
      PrependTwice([Assign(map[], entries[0])], AssignAll(entries[1..]), Parse(map[], rest));
    }
  }

  lemma EmptySettled(fields: Fields)
    ensures Settled([]) && Parse(fields, []) == Parsed([], fields, [], false)
  {
  }

  /** Encode, cut anywhere, feed: the entries come out, and nothing is left behind. */
  lemma FeedInvertsEncode(entries: seq<seq<Out>>, chunks: seq<bytes>)
    requires forall i :: 0 <= i < |entries| ==> WritableEntry(entries[i])
    requires Concat(chunks) == EncodeAll(entries) && Fits(map[], [], chunks)
    ensures FeedAll(map[], [], chunks) == Parsed(AssignAll(entries), map[], [], false)
  {
    hide Parse, NextItem, FeedAll, Fits;
    EmptySettled(map[]);
    assert [] + Concat(chunks) == EncodeAll(entries) + [];
    ParseInvertsEncode(entries, []);
    assert AssignAll(entries) + [] == AssignAll(entries);
    ChunkingIndependent(map[], [], chunks);
  }

  /** Why the hypothesis is there: after an oversize length the rest of that chunk is
      lost, but not the next chunk, so there the cuts do show. */
  lemma CutsShowAfterOversize(bad: bytes, entries: seq<seq<Out>>)
    requires Parse(map[], bad).lost && |bad| <= MAX_BUF
    requires |EncodeAll(entries)| <= MAX_BUF && |bad + EncodeAll(entries)| <= MAX_BUF
    requires entries != [] && forall i :: 0 <= i < |entries| ==> WritableEntry(entries[i])
    ensures FeedAll(map[], [], [bad, EncodeAll(entries)]).entries == Parse(map[], bad).entries + AssignAll(entries)
    ensures FeedAll(map[], [], [bad + EncodeAll(entries)]).entries == Parse(map[], bad).entries
    ensures FeedAll(map[], [], [bad, EncodeAll(entries)]).entries
         != FeedAll(map[], [], [bad + EncodeAll(entries)]).entries
  {
    hide Parse, NextItem, FeedAll, EncodeAll, AssignAll;
    SomeAssigned(entries);
    var good := EncodeAll(entries);
    LostStays(map[], bad, good);
    ParseInvertsEncode(entries, []);
    EmptySettled(map[]);
    assert good + [] == good && [] + bad == bad && [] + good == good && [] + (bad + good) == bad + good;
    FeedTwice(bad, good);
    FeedOnce(map[], [], bad + good);
  }

  lemma SomeAssigned(entries: seq<seq<Out>>)
    requires entries != []
    ensures AssignAll(entries) != []
  {
  }

  const HUGE := 0xFFFF_FFFF_FFFF_FFFF

  /** A field named X that declares more bytes than any stream has. */
  function Oversized(): bytes { [0x58] + [NL] + LittleEndian(HUGE, 8) }

  lemma OversizedIsLost()
    ensures Parse(map[], Oversized()) == Parsed([], map[], Oversized(), true)
  {
    hide IndexByte, LittleEndian, FromLittleEndian, NextItem;
    var size := LittleEndian(HUGE, 8);
    IndexAfter([0x58], NL, size);
    Pow256Values();
    LittleEndianRoundTrip(HUGE, 8);
    var buf := Oversized();
    assert buf[..1] == [0x58] && buf[2..10] == size;
    BinaryItem(buf, 1);
  }

  /** So for any entries at all there are two ways to cut one stream that differ. */
  lemma CutsShow(entries: seq<seq<Out>>)
    requires entries != [] && forall i :: 0 <= i < |entries| ==> WritableEntry(entries[i])
    requires |Oversized() + EncodeAll(entries)| <= MAX_BUF
    ensures FeedAll(map[], [], [Oversized(), EncodeAll(entries)]).entries == AssignAll(entries)
    ensures FeedAll(map[], [], [Oversized() + EncodeAll(entries)]).entries == []
  {
    hide Parse, FeedAll, EncodeAll, AssignAll;
    OversizedIsLost();
    CutsShowAfterOversize(Oversized(), entries);
    assert [] + AssignAll(entries) == AssignAll(entries);
  }

  lemma FeedOnce(fields: Fields, buf: bytes, chunk: bytes)
    ensures FeedAll(fields, buf, [chunk]).entries == Fed(fields, buf, chunk).entries
  {
    hide Fed;
    var p := Fed(fields, buf, chunk);
    assert FeedAll(p.fields, p.rest, []).entries == [];
  }

  lemma FeedTwice(a: bytes, b: bytes)
    ensures var p := Fed(map[], [], a);
      FeedAll(map[], [], [a, b]).entries == p.entries + Fed(p.fields, p.rest, b).entries
  {
    hide Fed;
    var p := Fed(map[], [], a);
    assert [a, b][1..] == [b];
    FeedOnce(p.fields, p.rest, b);
  }

  // ---- what is dropped, and what means nothing ----

  /** Empty lines between entries mean nothing. */
  lemma EmptyLine(rest: bytes)
    ensures Parse(map[], [0x0A] + rest) == Parse(map[], rest)
  {
    var s: bytes := [0x0A] + rest;
    TerminatorReads(s);
    hide NextItem;
    assert s[1..] == rest;
    PrependNothing([], Parse(map[], rest));
  }

  /** A call that drops something leaves the decoder as new; it yields what came before an
      oversize length, and nothing if the buffer is over 1 MiB. */
  lemma DroppedIsFresh(fields: Fields, buf: bytes, chunk: bytes)
    requires Fed(fields, buf, chunk).lost
    ensures var p := Fed(fields, buf, chunk);
      && p.fields == map[] && p.rest == []
      && p.entries == if |buf| + |chunk| > 0x10_0000 then [] else Parse(fields, buf + chunk).entries
  {
    hide Parse;
  }
}
