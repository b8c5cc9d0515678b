/** What the ld_format parser makes of streams that break off or are malformed. */
module LdBreaks {
  import opened Common
  import opened Bytes
  import opened Reading
  import opened LdFormat

  // ---- keys ----

  /** Up to 256 printable bytes other than the equals sign. */
  predicate IsKey(k: bytes) {
    0 < |k| <= 256 && forall i :: 0 <= i < |k| ==> 0x20 <= k[i] <= 0x7E && k[i] != 0x3D
  }

  ghost predicate StartsWithKey(s: bytes, k: bytes, delim: byte, rest: bytes) {
    IsKey(k) && (delim == 0x3D || delim == 0x0A) && s == k + [delim] + rest
  }

  /** `s` is the start of a key that goes on after its end. */
  predicate CutKey(s: bytes) { s == [] || IsKey(s) }

  lemma {:induction false} KeyFound(acc: bytes, s: bytes)
    requires acc == [] || IsKey(acc)
    ensures match ReadKey(acc, s)
      case Key(k, d, rest) => StartsWithKey(acc + s, k, d, rest)
      case BadKey(err, _) => err == (if CutKey(acc + s) then Eof else Malformed)
    decreases |s|
  {
    if s == [] {
      assert acc + s == acc;
    } else if s[0] == EQUALS || s[0] == NL {
      if acc == [] {
        assert acc + s == s;
      } else {
        assert acc + s == acc + [s[0]] + s[1..];
      }
    } else if !KeyByte(s[0]) || |acc| >= MAX_KEY {
      assert (acc + s)[|acc|] == s[0] && |acc + s| > |acc|;
    } else {
      KeyFound(acc + [s[0]], s[1..]);
      assert acc + [s[0]] + s[1..] == acc + s;
    }
  }

  /** A key is read exactly if the input starts with one and its delimiter; otherwise the stream
      has ended if there was nothing but the start of a key, and is malformed if not. */
  lemma KeyExactly(s: bytes, k: bytes, delim: byte, rest: bytes)
    ensures ReadKey([], s) == Key(k, delim, rest) <==> StartsWithKey(s, k, delim, rest)
    ensures ReadKey([], s).BadKey? ==> ReadKey([], s).err == if CutKey(s) then Eof else Malformed
  {
    hide ReadKey;
    KeyFound([], s);
    assert [] + s == s;
    if StartsWithKey(s, k, delim, rest) {
      KeyReads([], k, delim, rest);
      assert [] + k == k;
    }
  }

  // ---- values ----

  /** A text value is read exactly if its newline comes. */
  lemma SimpleExactly(s: bytes)
    ensures if 0x0A in s then ReadSimple(s).Value? else ReadSimple(s) == BadValue(Eof, [])
  {
    hide IndexByte;
  }

  /** A binary value: its length must be there and within 16 MiB, and then the data. */
  lemma ComplexExactly(s: bytes)
    ensures match ReadComplex(s)
      case Value(v, _) => |s| >= 4 && |v| == FromBigEndian(s[..4]) <= 0x100_0000 && v <= s[4..]
      case BadValue(err, _) =>
        if |s| >= 4 && FromBigEndian(s[..4]) > 0x100_0000 then err == Malformed
        else if |s| < 4 then err == (if s == [] then Eof else Malformed)
        else |s| - 4 < FromBigEndian(s[..4]) && err == if |s| == 4 then Eof else Malformed
  {
    hide FromBigEndian, SkipNewline;
    if |s| >= 4 {
      var n := FromBigEndian(s[..4]);
      if |s| >= 4 + n { assert s[4..][..n] == s[4..4 + n]; }
    }
  }

  // ---- a stream that breaks ----

  /** At `s` stands something that is neither a pair nor a boundary; `err` says what is wrong. */
  ghost predicate Broken(s: bytes, err: Err) {
    && s != [] && s[0] != 0x0A && !(|s| >= 2 && s[0] == 6 && s[1] == 3)
    && match ReadKey([], s)
       case BadKey(e, _) => e == err
       case Key(_, delim, rest) =>
         (delim == 0x3D && ReadSimple(rest).BadValue? && ReadSimple(rest).err == err)
         || (delim == 0x0A && ReadComplex(rest).BadValue? && ReadComplex(rest).err == err)
  }

  lemma BrokenStops(ev: Option<Fields>, s: bytes, err: Err)
    requires Broken(s, err)
    ensures var e := ParsePairs(ev, s); e.ev == ev && e.err == err && err != Ok
  {
    hide ReadKey, ReadSimple, ReadComplex;
    KeyFound([], s);
    assert |s| >= 2 ==> s[..2][0] == s[0] && s[..2][1] == s[1];
    if ReadKey([], s).Key? {
      SimpleExactly(ReadKey([], s).rest);
      ComplexExactly(ReadKey([], s).rest);
    }
  }

  lemma {:induction false} PairsThen(ev: Option<Fields>, ps: seq<Pair>, s: bytes)
    requires WritablePairs(ps) && s != [] && s[0] != 0x0A
    ensures ParsePairs(ev, EncodePairs(ps) + s) == ParsePairs(Assign(ev, ps), s)
    decreases |ps|
  {
    hide ParsePairs, EncodePair;
    if ps == [] {
      assert EncodePairs(ps) + s == s;
    } else {
      var tail := EncodePairs(ps[1..]) + s;
      Regroup(EncodePair(ps[0]), EncodePairs(ps[1..]), s);
      if |ps| > 1 {
        Regroup(EncodePair(ps[1]), EncodePairs(ps[1..][1..]), s);
        PairFirstByte(ps[1], EncodePairs(ps[1..][1..]) + s);
      } else {
        assert EncodePairs(ps[1..]) + s == s;
      }
      PairReads(ev, ps[0], tail);
      PairsThen(With(ev, ps[0].key, ps[0].value), ps[1..], s);
    }
  }

  predicate Terminated(o: Out) { Writable(o) && !OpenEnded(o.pairs) }

  lemma EventThen(o: Out, rest: bytes)
    requires Terminated(o)
    ensures ParseStream(EncodeEvent(o) + rest) == Preceded([MapOf(o.pairs)], ParseStream(rest))
  {
    hide ParsePairs, ParseStream, EncodePairs, Assign, Continue;
    var ps := o.pairs;
    var bare := EncodePairs(ps) + ([NL] + rest);
    Regroup(if o.header then HEADER else [], EncodePairs(ps) + [NL], rest);
    Regroup(EncodePairs(ps), [NL], rest);
    assert [] + bare == bare;
    EncodePairsStart(ps);
    PairFirstByte(ps[0], EncodePairs(ps[1..]));
    UnfoldStream(EncodeEvent(o) + rest);
    HeaderSkipped(EncodeEvent(o) + rest, bare, o.header);
    PairsRead(None, ps, rest);
    EventEnds(Assign(None, ps), [NL] + rest, rest);
  }

  ghost predicate TerminatedAll(es: seq<Out>) { forall i :: 0 <= i < |es| ==> Terminated(es[i]) }

  lemma {:induction false} EventsThen(es: seq<Out>, tail: bytes)
    requires TerminatedAll(es)
    ensures ParseStream(EncodeAll(es) + tail) == Preceded(Maps(PairLists(es)), ParseStream(tail))
    decreases |es|
  {
    hide ParseStream, EncodeEvent, MapOf;
    if es == [] {
      assert EncodeAll(es) + tail == tail;
      PrecededTwice([], [], ParseStream(tail));
    } else {
      assert Terminated(es[0]);
      Regroup(EncodeEvent(es[0]), EncodeAll(es[1..]), tail);
      EventThen(es[0], EncodeAll(es[1..]) + tail);
      EventsThen(es[1..], tail);
      PrecededTwice([MapOf(es[0].pairs)], Maps(PairLists(es[1..])), ParseStream(tail));
      assert PairLists(es)[1..] == PairLists(es[1..]);
    }
  }

  /** The stream breaks after whole events and some pairs of one more: the events are emitted,
      then what the pairs made, and then the error is reported, unless it is just that the
      stream has ended. */
  lemma StreamBreaks(es: seq<Out>, ps: seq<Pair>, bad: bytes, err: Err)
    requires TerminatedAll(es) && WritablePairs(ps) && Broken(bad, err)
    ensures ParseStream(EncodeAll(es) + (EncodePairs(ps) + bad))
      == Stream(Maps(PairLists(es)) + Emitted(Assign(None, ps)), if err == Eof then Ok else err)
  {
    hide ParsePairs, Assign, Maps, PairLists, EncodeAll;
    var tail := EncodePairs(ps) + bad;
    EventsThen(es, tail);
    PairsThen(None, ps, bad);
    BrokenStops(Assign(None, ps), bad, err);
    hide Broken;
    NotHeader(ps, bad);
    UnfoldStream(tail);
  }

  lemma NotHeader(ps: seq<Pair>, bad: bytes)
    requires WritablePairs(ps) && (bad == [] || !(|bad| >= 2 && bad[0] == 6 && bad[1] == 3))
    ensures SkipHeader(EncodePairs(ps) + bad) == EncodePairs(ps) + bad
  {
    if ps == [] {
      assert EncodePairs(ps) + bad == bad;
      assert |bad| >= 2 ==> bad[..2][0] == bad[0] && bad[..2][1] == bad[1];
    } else {
      EncodePairsStart(ps);
      PairFirstByte(ps[0], EncodePairs(ps[1..]));
      assert WritablePair(ps[0]);
      NoHeader(EncodePairs(ps) + bad);
    }
  }

  /** A stream that just ends, in an event or after a header: all its pairs are emitted. */
  lemma StreamEnds(es: seq<Out>, ps: seq<Pair>)
    requires TerminatedAll(es) && WritablePairs(ps)
    ensures ParseStream(EncodeAll(es) + EncodePairs(ps)) == Stream(Maps(PairLists(es)) + Emitted(Assign(None, ps)), Ok)
    ensures ParseStream(EncodeAll(es) + [6, 3]) == Stream(Maps(PairLists(es)), Ok)
  {
    EventsThen(es, EncodePairs(ps));
    EventsThen(es, [6, 3]);
    LastHeader();
    LastPairs(None, ps);
    NotHeader(ps, []);
    assert EncodePairs(ps) + [] == EncodePairs(ps);
    UnfoldStream(EncodePairs(ps));
    hide Maps, PairLists, EncodeAll, Assign, ParsePairs, EncodePairs, ParseStream;
    assert Maps(PairLists(es)) + [] == Maps(PairLists(es));
  }

  lemma LastHeader()
    ensures ParseStream([6, 3]) == Stream([], Ok)
  {
    var s: bytes := [6, 3];
    assert s[..2] == s && s[2..] == [];
  }

  lemma {:induction false} LastPairs(ev: Option<Fields>, ps: seq<Pair>)
    requires WritablePairs(ps)
    ensures ParsePairs(ev, EncodePairs(ps)) == Event(Assign(ev, ps), Eof, [])
    decreases |ps|
  {
    hide EncodePair;
    if ps != [] {
      if |ps| > 1 {
        EncodePairsStart(ps[1..]);
        PairFirstByte(ps[1], EncodePairs(ps[1..][1..]));
      }
      hide ParsePairs;
      PairReads(ev, ps[0], EncodePairs(ps[1..]));
      LastPairs(With(ev, ps[0].key, ps[0].value), ps[1..]);
    }
  }
}
