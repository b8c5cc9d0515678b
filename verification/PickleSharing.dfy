/** Lists that occur more than once in what is pickled. */
module PickleSharing {
  import opened Common
  import opened Bytes
  import opened Pickle
  import opened PickleEncoding
  import opened PickleRoundTrip

  /** A list that occurs again is fetched from the memo, where its slice was remembered before
      it was filled. So the dict decoded stands for the value pickled, its lists in all their
      places, exactly if no list with items occurs again. */
  lemma SharedListsExactly(pf: FloatParser, header: bool, protocol: byte, src: Src, tail: bytes)
    returns (id: nat, h: Heap)
    requires src.SDict? && Denote(pf, src, map[], 0).Some?
    ensures Run(pf, Pickled(header, protocol, src) + tail, START) == Decoded(id, h)
    ensures var t := Denote(pf, src, map[], 0).value.tree;
      && Represents(h, {}, Dict(id), Unmarked(t, false))
      && (Represents(h, {}, Dict(id), Unmarked(t, true)) <==> SharesNothing(t))
  {
    hide Run, Pickled, Represents, Denote, Unmarked, SharesNothing;
    id, h := UnpickleInvertsPickling(pf, header, protocol, src, tail);
    RepresentsUnmarked(h, {}, Dict(id), Denote(pf, src, map[], 0).value.tree);
    WholeExactly(h, {}, Dict(id), Denote(pf, src, map[], 0).value.tree);
  }

  /** The dict of `a` and `b`, both the list of 1: `b` is fetched from the memo. */
  const ONES := SList(BinPut(0), [Chunk(false, [SInt(1, Int1)])])
  const ITEMS := [SStr([0x61], ShortString, NoPut), ONES, SStr([0x62], ShortString, NoPut), SGet(0, false)]
  const TWICE := SDict(NoPut, [Chunk(true, ITEMS)])
  const TWICE_MEANS := TDict(map[[0x61] := TList([TInt(1)]), [0x62] := TShared([TInt(1)])])

  ghost predicate Mean(pf: FloatParser, srcs: seq<Src>, m: Memo, level: nat, ts: seq<Tree>, m': Memo) {
    var d := DenoteAll(pf, srcs, m, level);
    d.Some? && d.value.trees == ts && d.value.memo == m'
  }

  lemma MeanMore(pf: FloatParser, srcs: seq<Src>, m: Memo, level: nat, m1: Memo, ts: seq<Tree>, m2: Memo)
    requires srcs != [] && ts != [] && Denote(pf, srcs[0], m, level) == Some(Meaning(ts[0], m1))
    requires Mean(pf, srcs[1..], m1, level, ts[1..], m2)
    ensures Mean(pf, srcs, m, level, ts, m2)
  {
    hide Denote;
    assert [ts[0]] + ts[1..] == ts;
  }

  lemma OneChunk(pf: FloatParser, c: Chunk, pairs: bool, m: Memo, level: nat, ts: seq<Tree>, m1: Memo)
    requires ChunkFits(c, pairs) && Mean(pf, c.items, m, level, ts, m1)
    ensures DenoteChunks(pf, [c], pairs, m, level) == Some(Meanings(ts, m1))
  {
    hide DenoteAll;
    assert [c][1..] == [] && ts + [] == ts;
  }

  lemma OnesMean(pf: FloatParser)
    ensures Denote(pf, ONES, map[], 1) == Some(Meaning(TList([TInt(1)]), map[0 := Known(TShared([TInt(1)]))]))
  {
    var one, m := TInt(1), map[0 := Filling(1)];
    MeanMore(pf, [SInt(1, Int1)], m, 2, m, [one], m);
    OneChunk(pf, ONES.chunks[0], false, m, 2, [one], m);
    assert Finished(m, 1, TShared([one])) == map[0 := Known(TShared([one]))];
    hide DenoteChunks;
    assert PutIn(map[], BinPut(0), Filling(1)) == m;
  }

  lemma ItemsMean(pf: FloatParser)
    ensures Mean(pf, ITEMS, map[], 1, [TStr([0x61]), TList([TInt(1)]), TStr([0x62]), TShared([TInt(1)])],
                 map[0 := Known(TShared([TInt(1)]))])
  {
    OnesMean(pf);
    hide Mean;
    var m := map[0 := Known(TShared([TInt(1)]))];
    var ts := [TStr([0x61]), TList([TInt(1)]), TStr([0x62]), TShared([TInt(1)])];
    NothingMeans(pf, m);
    assert ITEMS[3..][1..] == [] && ts[3..][1..] == [];
    assert ITEMS[2..][1..] == ITEMS[3..] && ts[2..][1..] == ts[3..];
    assert ITEMS[1..][1..] == ITEMS[2..] && ts[1..][1..] == ts[2..];
    MeanMore(pf, ITEMS[3..], m, 1, m, ts[3..], m);
    MeanMore(pf, ITEMS[2..], m, 1, m, ts[2..], m);
    MeanMore(pf, ITEMS[1..], map[], 1, m, ts[1..], m);
    MeanMore(pf, ITEMS, map[], 1, map[], ts, m);
  }

  lemma NothingMeans(pf: FloatParser, m: Memo)
    ensures Mean(pf, [], m, 1, [], m)
  {
  }

  lemma TwiceMeans(pf: FloatParser)
    ensures Denote(pf, TWICE, map[], 0).Some? && Denote(pf, TWICE, map[], 0).value.tree == TWICE_MEANS
  {
    var ts := [TStr([0x61]), TList([TInt(1)]), TStr([0x62]), TShared([TInt(1)])];
    ItemsMean(pf);
    OneChunk(pf, TWICE.chunks[0], true, map[], 1, ts, map[0 := Known(TShared([TInt(1)]))]);
    hide DenoteChunks;
    assert ts[2..] == [TStr([0x62]), TShared([TInt(1)])] && ts[2..][2..] == [];
  }

  /** An input that fails: it decodes to a dict in which the second list is empty. */
  lemma SharedListLost(pf: FloatParser) returns (id: nat, h: Heap)
    ensures Run(pf, Pickled(false, 0, TWICE), START) == Decoded(id, h)
    ensures Represents(h, {}, Dict(id), TDict(map[[0x61] := TList([TInt(1)]), [0x62] := TList([])]))
    ensures !Represents(h, {}, Dict(id), TDict(map[[0x61] := TList([TInt(1)]), [0x62] := TList([TInt(1)])]))
  {
    TwiceMeans(pf);
    TwiceUnmarked(false);
    TwiceUnmarked(true);
    hide Run, Represents, Denote, Unmarked;
    assert Pickled(false, 0, TWICE) + [] == Pickled(false, 0, TWICE);
    id, h := SharedListsExactly(pf, false, 0, TWICE, []);
    assert !SharesNothing(TWICE_MEANS.entries[[0x62]]);
  }

  lemma TwiceUnmarked(whole: bool)
    ensures Unmarked(TWICE_MEANS, whole)
      == TDict(map[[0x61] := TList([TInt(1)]), [0x62] := TList(if whole then [TInt(1)] else [])])
  {
    hide Unmarked;
    OnesUnmarked(whole);
    DictUnmarked(TWICE_MEANS.entries, whole);
  }

  lemma OnesUnmarked(whole: bool)
    ensures Unmarked(TList([TInt(1)]), whole) == TList([TInt(1)])
    ensures Unmarked(TShared([TInt(1)]), whole) == TList(if whole then [TInt(1)] else [])
  {
    assert Unmarked(TList([TInt(1)]), whole) == TList([Unmarked(TInt(1), whole)]);
    assert Unmarked(TShared([TInt(1)]), whole) == TList(if whole then [Unmarked(TInt(1), whole)] else []);
  }

  lemma DictUnmarked(entries: map<bytes, Tree>, whole: bool)
    ensures Unmarked(TDict(entries), whole) == TDict(map k | k in entries :: Unmarked(entries[k], whole))
  {
  }
}
