/** Every value the sink can hold has a pickle, so each of them round-trips. */
module PickleValues {
  import opened Common
  import opened Bytes
  import opened Pickle
  import opened PickleEncoding
  import PickleRoundTrip

  /** Integers of 64 bits, floats of 64 bits, strings within the limit, nested at will. */
  ghost predicate Carried(t: Tree) {
    match t
    case TInt(n) => IsInt64(n)
    case TFloat(bits) => bits < Pow256(8)
    case TStr(s) => |s| <= MAX_FRAME
    case TList(items) => forall i :: 0 <= i < |items| ==> Carried(items[i])
    case TShared(_) => false
    case TDict(entries) => forall k :: k in entries ==> |k| <= MAX_FRAME && Carried(entries[k])
    case _ => true
  }

  /** At any depth `src` is a pickle of `t` that does without the memo. */
  ghost predicate Pickles(pf: FloatParser, src: Src, t: Tree) {
    forall level: nat :: Denote(pf, src, map[], level) == Some(Meaning(t, map[]))
  }

  ghost predicate PicklesAll(pf: FloatParser, srcs: seq<Src>, ts: seq<Tree>) {
    |srcs| == |ts| && forall level: nat :: DenoteAll(pf, srcs, map[], level) == Some(Meanings(ts, map[]))
  }

  lemma OneMore(pf: FloatParser, src: Src, t: Tree, srcs: seq<Src>, ts: seq<Tree>)
    requires Pickles(pf, src, t) && PicklesAll(pf, srcs, ts)
    ensures PicklesAll(pf, [src] + srcs, [t] + ts)
  {
    hide Denote;
    assert ([src] + srcs)[1..] == srcs;
    forall level: nat ensures DenoteAll(pf, [src] + srcs, map[], level) == Some(Meanings([t] + ts, map[])) {
      assert Denote(pf, src, map[], level) == Some(Meaning(t, map[]));
      assert DenoteAll(pf, srcs, map[], level) == Some(Meanings(ts, map[]));
    }
  }

  /** Items put into a container in one batch. */
  lemma OneBatch(pf: FloatParser, srcs: seq<Src>, ts: seq<Tree>, pairs: bool, level: nat)
    requires PicklesAll(pf, srcs, ts) && (pairs ==> |srcs| % 2 == 0)
    ensures DenoteChunks(pf, [Chunk(true, srcs)], pairs, map[], level) == Some(Meanings(ts, map[]))
  {
    hide DenoteAll;
    var chunks := [Chunk(true, srcs)];
    assert DenoteAll(pf, srcs, map[], level) == Some(Meanings(ts, map[]));
    assert chunks[1..] == [] && ts + [] == ts;
  }

  lemma {:induction false} PickleOf(pf: FloatParser, t: Tree) returns (src: Src)
    requires Carried(t)
    ensures Pickles(pf, src, t) && (t.TDict? ==> src.SDict?)
    decreases t, 1
  {
    match t
    case TNone => src := SNone;
    case TBool(b) => src := SBool(b, false);
    case TInt(n) => src := SInt(n, IntLine);
    case TFloat(bits) => src := SFloat(bits);
    case TStr(s) => src := SStr(s, Unicode, NoPut);
    case TList(items) =>
      var srcs := PickleOfItems(pf, t, 0);
      src := SList(NoPut, [Chunk(true, srcs)]);
      forall level: nat ensures Denote(pf, src, map[], level) == Some(Meaning(t, map[])) {
        OneBatch(pf, srcs, items, false, level + 1);
        assert Finished(map[], level, TShared(items)) == map[];
      }
    case TDict(entries) =>
      var srcs, ts := PickleOfEntries(pf, t, entries.Keys);
      src := SDict(NoPut, [Chunk(true, srcs)]);
      assert (map k | k in entries.Keys :: entries[k]) == entries;
      forall level: nat ensures Denote(pf, src, map[], level) == Some(Meaning(t, map[])) {
        OneBatch(pf, srcs, ts, true, level + 1);
        assert Finished(map[], level, t) == map[];
        assert Assign(map[], ts) == map[] + entries == entries;
      }
  }

  lemma {:induction false} PickleOfItems(pf: FloatParser, t: Tree, i: nat) returns (srcs: seq<Src>)
    requires t.TList? && i <= |t.items| && Carried(t)
    ensures PicklesAll(pf, srcs, t.items[i..])
    decreases t, 0, |t.items| - i
  {
    if i == |t.items| {
      srcs := [];
    } else {
      var first := PickleOf(pf, t.items[i]);
      var others := PickleOfItems(pf, t, i + 1);
      srcs := [first] + others;
      OneMore(pf, first, t.items[i], others, t.items[i + 1..]);
      assert t.items[i..] == [t.items[i]] + t.items[i + 1..];
    }
  }

  /** The entries under `keys`, in some order: keys and values in turn. */
  lemma {:induction false} PickleOfEntries(pf: FloatParser, t: Tree, keys: set<bytes>)
    returns (srcs: seq<Src>, ts: seq<Tree>)
    requires t.TDict? && keys <= t.entries.Keys && Carried(t)
    ensures PicklesAll(pf, srcs, ts) && StringKeys(ts)
    ensures forall base :: Assign(base, ts) == base + map k | k in keys :: t.entries[k]
    decreases t, 0, |keys|
  {
    hide Assign, Denote, DenoteAll, StringKeys, Carried;
    if keys == {} {
      NoEntries(pf);
      srcs, ts := [], [];
      forall base ensures Assign(base, ts) == base + map k | k in keys :: t.entries[k] {
        assert base + map[] == base;
      }
    } else {
      var k :| k in keys;
      var rest := keys - {k};
      CarriedEntry(t, k);
      var value := PickleOf(pf, t.entries[k]);
      var others, us := PickleOfEntries(pf, t, rest);
      var key := SStr(k, Unicode, NoPut);
      srcs, ts := [key] + ([value] + others), [TStr(k)] + ([t.entries[k]] + us);
      OneMore(pf, value, t.entries[k], others, us);
      KeyPickles(pf, k);
      OneMore(pf, key, TStr(k), [value] + others, [t.entries[k]] + us);
      PairFirst(k, t.entries[k], us);
      forall base ensures Assign(base, ts) == base + map k | k in keys :: t.entries[k] {
        assert Assign(base, ts) == Assign(base[k := t.entries[k]], us);
        EntryFirst(base, t.entries, keys, k);
      }
    }
  }

  lemma CarriedEntry(t: Tree, k: bytes)
    requires t.TDict? && k in t.entries && Carried(t)
    ensures |k| <= MAX_FRAME && Carried(t.entries[k])
  {
  }

  lemma KeyPickles(pf: FloatParser, k: bytes)
    requires |k| <= MAX_FRAME
    ensures Pickles(pf, SStr(k, Unicode, NoPut), TStr(k))
  {
  }

  lemma NoEntries(pf: FloatParser)
    ensures PicklesAll(pf, [], []) && StringKeys([]) && forall base :: Assign(base, []) == base
  {
  }

  lemma EntryFirst(base: map<bytes, Tree>, entries: map<bytes, Tree>, keys: set<bytes>, k: bytes)
    requires keys <= entries.Keys && k in keys
    ensures base[k := entries[k]] + (map x | x in keys - {k} :: entries[x]) == base + map x | x in keys :: entries[x]
  {
  }

  lemma PairFirst(k: bytes, v: Tree, us: seq<Tree>)
    requires StringKeys(us)
    ensures var ts := [TStr(k)] + ([v] + us);
      StringKeys(ts) && forall base :: Assign(base, ts) == Assign(base[k := v], us)
  {
    var ts := [TStr(k)] + ([v] + us);
    assert ts[2..] == us && ts[0] == TStr(k) && ts[1] == v;
    forall i | 0 <= i < |ts| && i % 2 == 0 ensures ts[i].TStr? {
      if i >= 2 { assert ts[i] == us[i - 2]; }
    }
  }

  /** Every dict of carried values has bytes that decode to it. */
  lemma EveryDictRoundTrips(pf: FloatParser, t: Tree) returns (input: bytes, id: nat, h: Heap)
    requires Carried(t) && t.TDict?
    ensures Run(pf, input, START) == Decoded(id, h) && Represents(h, {}, Dict(id), t)
  {
    var src := PickleOf(pf, t);
    assert Denote(pf, src, map[], 0) == Some(Meaning(t, map[]));
    hide Denote, Run, Represents, Emit;
    id, h := PickleRoundTrip.UnpickleInvertsPickling(pf, false, 0, src, []);
    input := [] + Emit(src) + [STOP] + [];
  }
}
