/** The unpickler inverts the pickler: the bytes of a value, run from any state, leave that
    value on the stack. */
module PickleRoundTrip {
  import opened Common
  import opened Bytes
  import opened Pickle
  import opened PickleEncoding
  import opened PickleOps

  /** The dicts being filled are all there already. */
  ghost predicate Below(open: seq<Val>, h: Heap) { forall o :: o in Opened(open) ==> o < |h| }

  /** A step that only adds dicts. */
  lemma Grows(h: Heap, h': Heap, open: seq<Val>)
    requires h <= h' && Below(open, h)
    ensures Keeps(h, Opened(open), h', Opened(open)) && Below(open, h')
  {
  }

  /** The machine reads `Emit(src)` and ends with one more value on its stack: the one
      `src` denotes. Nothing that was in the heap has changed. */
  lemma {:induction false} Simulate(pf: FloatParser, src: Src, m: Memo, rest: bytes, st: State, open: seq<Val>)
    returns (v: Val, st': State)
    requires Denote(pf, src, m, |open|).Some? && Agrees(st, m, open) && Below(open, st.heap)
    ensures Run(pf, Emit(src) + rest, st) == Run(pf, rest, st')
    ensures st'.stack == st.stack + [v] && st.heap <= st'.heap
    ensures Represents(st'.heap, Opened(open), v, Denote(pf, src, m, |open|).value.tree)
    ensures Agrees(st', Denote(pf, src, m, |open|).value.memo, open)
    decreases src, 1
  {
    hide Run, Agrees;
    match src
    case STuple(_, _, _) => v, st' := SimulateTuple(pf, src, m, rest, st, open);
    case SList(_, _) => v, st' := SimulateList(pf, src, m, rest, st, open);
    case SDict(_, _) => v, st' := SimulateDict(pf, src, m, rest, st, open);
    case SStr(_, _, _) => v, st' := SimulateMemo(pf, src, m, rest, st, open);
    case SGet(_, _) => v, st' := SimulateMemo(pf, src, m, rest, st, open);
    case _ =>
      v, st' := SimulateScalar(pf, src, m, rest, st, Opened(open));
      AgreesFrame(st, m, open, st');
  }

  /** What neither holds other values nor uses the memo. */
  lemma SimulateScalar(pf: FloatParser, src: Src, m: Memo, rest: bytes, st: State, open: set<nat>)
    returns (v: Val, st': State)
    requires Denote(pf, src, m, 0).Some?
    requires src.SNone? || src.SBool? || src.SInt? || src.SFloat? || src.SFloatLine?
    ensures Run(pf, Emit(src) + rest, st) == Run(pf, rest, st')
    ensures st' == Pushed(st, v) && Represents(st'.heap, open, v, Denote(pf, src, m, 0).value.tree)
  {
    hide Run, EmitInt, IndexByte, BigEndian, FromBigEndian;
    match src
    case SNone =>
      v, st' := Nil, Pushed(st, Nil);
      RunConstant(pf, NONE, rest, st, v);
    case SBool(b, line) =>
      v, st' := Bool(b), Pushed(st, Bool(b));
      if line {
        var digits: bytes := [0x30, if b then 0x31 else 0x30];
        assert digits + [NL] == [0x30, if b then 0x31 else 0x30, NL];
        RunLine(pf, INT, digits, rest, st, v);
      } else {
        RunConstant(pf, if b then NEWTRUE else NEWFALSE, rest, st, v);
      }
    case SInt(n, form) =>
      v, st' := Int(n), Pushed(st, Int(n));
      RunInt(pf, n, form, rest, st);
    case SFloat(bits) =>
      v, st' := Float(bits), Pushed(st, Float(bits));
      BigEndianRoundTrip(bits, 8);
      DropPrefix(BigEndian(bits, 8), rest);
      RunImmediate(pf, BINFLOAT, BigEndian(bits, 8), rest, st, v);
    case SFloatLine(line) =>
      v := Float(pf(line).value);
      st' := Pushed(st, v);
      RunLine(pf, FLOAT, line, rest, st, v);
  }

  /** Strings, and values fetched from the memo. */
  lemma SimulateMemo(pf: FloatParser, src: Src, m: Memo, rest: bytes, st: State, open: seq<Val>)
    returns (v: Val, st': State)
    requires Denote(pf, src, m, |open|).Some? && Agrees(st, m, open) && (src.SStr? || src.SGet?)
    ensures Run(pf, Emit(src) + rest, st) == Run(pf, rest, st')
    ensures st'.stack == st.stack + [v] && st.heap <= st'.heap
    ensures Represents(st'.heap, Opened(open), v, Denote(pf, src, m, |open|).value.tree)
    ensures Agrees(st', Denote(pf, src, m, |open|).value.memo, open)
  {
    hide Run, EmitStr, EmitPut, Opened;
    match src
    case SStr(s, form, put) =>
      v := Str(s);
      RunStr(pf, s, form, EmitPut(put) + rest, st);
      st' := RunPut(pf, put, rest, Pushed(st, v), m, Known(TStr(s)), open);
      Regroup(EmitStr(s, form), EmitPut(put), rest);
    case SGet(i, long) =>
      v, st' := st.memo[i], Pushed(st, st.memo[i]);
      assert SlotAgrees(st.heap, open, st.memo[i], m[i]);
      hide Represents;
      RunGet(pf, i, long, rest, st, v);
  }

  lemma {:induction false} SimulateList(pf: FloatParser, src: Src, m: Memo, rest: bytes, st: State, open: seq<Val>)
    returns (v: Val, st': State)
    requires src.SList? && Denote(pf, src, m, |open|).Some? && Agrees(st, m, open) && Below(open, st.heap)
    ensures Run(pf, Emit(src) + rest, st) == Run(pf, rest, st')
    ensures st'.stack == st.stack + [v] && st.heap <= st'.heap
    ensures Represents(st'.heap, Opened(open), v, Denote(pf, src, m, |open|).value.tree)
    ensures Agrees(st', Denote(pf, src, m, |open|).value.memo, open)
    decreases src, 0
  {
    hide Run, EmitChunks, DenoteChunks, Opened, Agrees, Represents, RepresentsAll, Keeps, Below;
    var open' := open + [List([])];
    var m1 := PutIn(m, src.put, Filling(|open|));
    var tail := EmitChunks(src.chunks, APPEND, APPENDS) + rest;
    var st1 := Pushed(st, List([]));
    RunConstant(pf, EMPTY_LIST, EmitPut(src.put) + tail, st, List([]));
    ListOpened(st, m, open, st1);
    var st2 := RunPut(pf, src.put, tail, st1, m, Filling(|open|), open');
    var ys;
    ys, st' := SimulateListChunks(pf, src.chunks, m1, rest, st2, st.stack, [], [], open');
    v := List(ys);
    var d := DenoteChunks(pf, src.chunks, false, m1, |open'|).value;
    assert [] + d.trees == d.trees;
    ListStands(st'.heap, Opened(open), ys, d.trees);
    AgreesFinish(st', d.memo, open, List([]), TShared(d.trees));
    Regroup4([EMPTY_LIST], EmitPut(src.put), EmitChunks(src.chunks, APPEND, APPENDS), rest);
  }

  /** An empty list has been pushed, to be filled. */
  lemma ListOpened(st: State, m: Memo, open: seq<Val>, st1: State)
    requires Agrees(st, m, open) && Below(open, st.heap) && st1 == Pushed(st, List([]))
    ensures var open' := open + [List([])];
      && Opened(open') == Opened(open) && Below(open', st.heap) && Agrees(st1, m, open')
      && RepresentsAll(st.heap, Opened(open'), [], [])
  {
    OpenedMore(open, List([]));
    AgreesFrame(st, m, open, st1);
    AgreesOpenList(st1, m, open);
  }

  lemma ListStands(h: Heap, open: set<nat>, vs: seq<Val>, ts: seq<Tree>)
    requires RepresentsAll(h, open, vs, ts)
    ensures Represents(h, open, List(vs), TList(ts)) && Represents(h, open, List([]), TShared(ts))
  {
  }

  lemma {:induction false} SimulateDict(pf: FloatParser, src: Src, m: Memo, rest: bytes, st: State, open: seq<Val>)
    returns (v: Val, st': State)
    requires src.SDict? && Denote(pf, src, m, |open|).Some? && Agrees(st, m, open) && Below(open, st.heap)
    ensures Run(pf, Emit(src) + rest, st) == Run(pf, rest, st')
    ensures v.Dict? && st'.stack == st.stack + [v] && st.heap <= st'.heap
    ensures Represents(st'.heap, Opened(open), v, Denote(pf, src, m, |open|).value.tree)
    ensures Agrees(st', Denote(pf, src, m, |open|).value.memo, open)
    decreases src, 0
  {
    hide Run, EmitChunks, DenoteChunks, Assign, Agrees, Opened;
    var d, m1 := |st.heap|, PutIn(m, src.put, Filling(|open|));
    var tail := EmitChunks(src.chunks, SETITEM, SETITEMS) + rest;
    var st1 := Pushed(st, Dict(d)).(heap := st.heap + [map[]]);
    RunOperate(pf, EMPTY_DICT, EmitPut(src.put) + tail, st, st1);
    AgreesOpen(st, m, open, st1);
    var st2 := RunPut(pf, src.put, tail, st1, m, Filling(|open|), open + [Dict(d)]);
    OpenedMore(open, Dict(d));
    st' := SimulateDictChunks(pf, src.chunks, m1, rest, st2, st.stack, open, d, map[]);
    v := Dict(d);
    assert st1.heap[..d] == st.heap;
    var entries := Assign(map[], DenoteChunks(pf, src.chunks, true, m1, |open| + 1).value.trees);
    FinishedDict(st'.heap, open, d, entries);
    AgreesFinish(st', DenoteChunks(pf, src.chunks, true, m1, |open| + 1).value.memo, open, v, TDict(entries));
    Regroup4([EMPTY_DICT], EmitPut(src.put), EmitChunks(src.chunks, SETITEM, SETITEMS), rest);
  }

  lemma FinishedDict(h: Heap, open: seq<Val>, d: nat, entries: map<bytes, Tree>)
    requires d < |h| && d !in Opened(open) && RepresentsMap(h, Opened(open + [Dict(d)]), h[d], entries)
    ensures Represents(h, Opened(open), Dict(d), TDict(entries))
  {
    OpenedMore(open, Dict(d));
    FrameMap(h, Opened(open + [Dict(d)]), h[d], entries, h, Opened(open));
  }

  lemma {:induction false} SimulateTuple(pf: FloatParser, src: Src, m: Memo, rest: bytes, st: State, open: seq<Val>)
    returns (v: Val, st': State)
    requires src.STuple? && Denote(pf, src, m, |open|).Some? && Agrees(st, m, open) && Below(open, st.heap)
    ensures Run(pf, Emit(src) + rest, st) == Run(pf, rest, st')
    ensures st'.stack == st.stack + [v] && st.heap <= st'.heap
    ensures Represents(st'.heap, Opened(open), v, Denote(pf, src, m, |open|).value.tree)
    ensures Agrees(st', Denote(pf, src, m, |open|).value.memo, open)
    decreases src, 0
  {
    hide Run, EmitTuple, DenoteAll, Opened;
    var vs, st1 := SimulateTupleItems(pf, src.items, src.counted, m, EmitPut(src.put) + rest, st, open);
    v := List(vs);
    var d := DenoteAll(pf, src.items, m, |open|).value;
    var st2 := st1.(stack := st.stack + [v]);
    AgreesFrame(st1, d.memo, open, st2);
    assert Represents(st2.heap, Opened(open), v, TList(d.trees));
    hide Agrees;
    st' := RunPut(pf, src.put, rest, st2, d.memo, Known(TList(d.trees)), open);
    Regroup(EmitTuple(src.items, src.counted), EmitPut(src.put), rest);
  }

  lemma {:induction false} SimulateTupleItems(pf: FloatParser, items: seq<Src>, counted: bool, m: Memo, rest: bytes,
      st: State, open: seq<Val>)
    returns (vs: seq<Val>, st': State)
    requires DenoteAll(pf, items, m, |open|).Some? && Agrees(st, m, open) && (counted ==> |items| <= 3)
    requires Below(open, st.heap)
    ensures Run(pf, EmitTuple(items, counted) + rest, st) == Run(pf, rest, st'.(stack := st.stack + [List(vs)]))
    ensures st.heap <= st'.heap
    ensures RepresentsAll(st'.heap, Opened(open), vs, DenoteAll(pf, items, m, |open|).value.trees)
    ensures Agrees(st', DenoteAll(pf, items, m, |open|).value.memo, open)
    decreases items, 1
  {
    hide Run, EmitAll, DenoteAll, TopMark, TupleOp, Represents, Agrees, Opened;
    if counted {
      var op := TupleOp(|items|);
      vs, st' := SimulateAll(pf, items, m, [op] + rest, st, open);
      RunCountedTuple(pf, rest, st', st.stack, vs);
      Regroup(EmitAll(items), [op], rest);
    } else {
      RunMark(pf, EmitAll(items) + ([TUPLE] + rest), st);
      AgreesFrame(st, m, open, Pushed(st, Mark));
      vs, st' := SimulateAll(pf, items, m, [TUPLE] + rest, Pushed(st, Mark), open);
      NoMarks(st'.heap, Opened(open), vs, DenoteAll(pf, items, m, |open|).value.trees);
      RunMarkedTuple(pf, rest, st', st.stack, vs);
      Regroup4([MARK], EmitAll(items), [TUPLE], rest);
    }
  }

  lemma {:induction false} SimulateAll(pf: FloatParser, srcs: seq<Src>, m: Memo, rest: bytes, st: State, open: seq<Val>)
    returns (vs: seq<Val>, st': State)
    requires DenoteAll(pf, srcs, m, |open|).Some? && Agrees(st, m, open) && Below(open, st.heap)
    ensures Run(pf, EmitAll(srcs) + rest, st) == Run(pf, rest, st')
    ensures st'.stack == st.stack + vs && st.heap <= st'.heap
    ensures RepresentsAll(st'.heap, Opened(open), vs, DenoteAll(pf, srcs, m, |open|).value.trees)
    ensures Agrees(st', DenoteAll(pf, srcs, m, |open|).value.memo, open)
    decreases srcs, 0
  {
    hide Run, Represents, Emit, Denote, Agrees, Opened, Keeps, Below;
    if srcs == [] {
      vs, st' := [], st;
      assert EmitAll(srcs) + rest == rest;
    } else {
      var first := Denote(pf, srcs[0], m, |open|).value;
      var v, st1 := Simulate(pf, srcs[0], m, EmitAll(srcs[1..]) + rest, st, open);
      Grows(st.heap, st1.heap, open);
      var ws;
      ws, st' := SimulateAll(pf, srcs[1..], first.memo, rest, st1, open);
      vs := [v] + ws;
      Regroup(Emit(srcs[0]), EmitAll(srcs[1..]), rest);
      Grows(st1.heap, st'.heap, open);
      Frame(st1.heap, Opened(open), v, first.tree, st'.heap, Opened(open));
    }
  }

  /** The items of one chunk, up to the opcode that puts them into the container. */
  lemma {:induction false} SimulateItems(pf: FloatParser, c: Chunk, op: byte, m: Memo, rest: bytes, st: State,
      open: seq<Val>)
    returns (vs: seq<Val>, st': State)
    requires DenoteAll(pf, c.items, m, |open|).Some? && Agrees(st, m, open) && Below(open, st.heap)
    ensures Run(pf, EmitChunk(c, op) + rest, st)
         == Run(pf, [op] + rest, st')
    ensures st'.stack == st.stack + (if c.batched then [Mark] else []) + vs && st.heap <= st'.heap
    ensures RepresentsAll(st'.heap, Opened(open), vs, DenoteAll(pf, c.items, m, |open|).value.trees)
    ensures Agrees(st', DenoteAll(pf, c.items, m, |open|).value.memo, open)
    ensures Mark !in vs
    decreases c.items, 1
  {
    hide Run, Agrees, Represents, DenoteAll, Opened, EmitAll;
    var st1 := if c.batched then Pushed(st, Mark) else st;
    AgreesFrame(st, m, open, st1);
    var tail := EmitAll(c.items) + ([op] + rest);
    vs, st' := SimulateAll(pf, c.items, m, [op] + rest, st1, open);
    NoMarks(st'.heap, Opened(open), vs, DenoteAll(pf, c.items, m, |open|).value.trees);
    if c.batched {
      RunMark(pf, tail, st);
      Regroup4([MARK], EmitAll(c.items), [op], rest);
    } else {
      Regroup(EmitAll(c.items), [op], rest);
    }
  }

  lemma {:induction false} SimulateListChunks(pf: FloatParser, chunks: seq<Chunk>, m: Memo, rest: bytes, st: State,
      base: seq<Val>, xs: seq<Val>, ts: seq<Tree>, open: seq<Val>)
    returns (ys: seq<Val>, st': State)
    requires DenoteChunks(pf, chunks, false, m, |open|).Some? && Agrees(st, m, open) && Below(open, st.heap)
    requires st.stack == base + [List(xs)] && RepresentsAll(st.heap, Opened(open), xs, ts)
    ensures Run(pf, EmitChunks(chunks, APPEND, APPENDS) + rest, st) == Run(pf, rest, st')
    ensures st'.stack == base + [List(ys)] && st.heap <= st'.heap
    ensures RepresentsAll(st'.heap, Opened(open), ys, ts + DenoteChunks(pf, chunks, false, m, |open|).value.trees)
    ensures Agrees(st', DenoteChunks(pf, chunks, false, m, |open|).value.memo, open)
    decreases chunks
  {
    hide Run, TopMark, Represents, EmitChunk, DenoteAll, Agrees, Opened, Keeps, Below;
    if chunks == [] {
      ys, st' := xs, st;
      assert EmitChunks(chunks, APPEND, APPENDS) + rest == rest;
      assert ts + [] == ts;
    } else {
      var c := chunks[0];
      var op := if c.batched then APPENDS else APPEND;
      var tail := EmitChunks(chunks[1..], APPEND, APPENDS) + rest;
      var first := DenoteAll(pf, c.items, m, |open|).value;
      var vs, st1 := SimulateItems(pf, c, op, m, tail, st, open);
      var st2 := st1.(stack := base + [List(xs + vs)]);
      RunAppend(pf, c.batched, tail, st1, base, xs, vs);
      Grows(st.heap, st1.heap, open);
      Grows(st1.heap, st2.heap, open);
      FrameAll(st.heap, Opened(open), xs, ts, st1.heap, Opened(open));
      AgreesFrame(st1, first.memo, open, st2);
      ys, st' := SimulateListChunks(pf, chunks[1..], first.memo, rest, st2, base, xs + vs, ts + first.trees, open);
      var others := DenoteChunks(pf, chunks[1..], false, first.memo, |open|).value.trees;
      assert ts + first.trees + others == ts + (first.trees + others);
      Regroup(EmitChunk(c, op), EmitChunks(chunks[1..], APPEND, APPENDS), rest);
    }
  }

  lemma {:induction false} AssignConcat(entries: map<bytes, Tree>, ts: seq<Tree>, us: seq<Tree>)
    requires |ts| % 2 == 0 && StringKeys(ts + us)
    ensures StringKeys(ts) && StringKeys(us)
    ensures Assign(entries, ts + us) == Assign(Assign(entries, ts), us)
    decreases |ts|
  {
    assert forall i :: 0 <= i < |ts| ==> (ts + us)[i] == ts[i];
    forall i | 0 <= i < |us| && i % 2 == 0 ensures us[i].TStr? {
      assert (ts + us)[|ts| + i] == us[i];
    }
    if ts == [] {
      assert ts + us == us;
    } else {
      assert (ts + us)[2..] == ts[2..] + us;
      AssignConcat(entries[ts[0].s := ts[1]], ts[2..], us);
    }
  }

  /** SETITEM and SETITEMS write into the open dict `d` what `Assign` says, and nowhere else. */
  lemma {:induction false} DictSetAllRepresents(stack: seq<Val>, d: nat, h: Heap, vs: seq<Val>, ts: seq<Tree>,
      entries: map<bytes, Tree>, open: set<nat>)
    returns (h': Heap)
    requires stack != [] && stack[|stack| - 1] == Dict(d) && d < |h| && d in open && (forall o :: o in open ==> o < |h|)
    requires StringKeys(ts) && RepresentsAll(h, open, vs, ts) && RepresentsMap(h, open, h[d], entries)
    ensures DictSetAll(stack, h, vs) == Some(h')
    ensures |h'| == |h| && h' == h[d := h'[d]]
    ensures RepresentsMap(h', open, h'[d], Assign(entries, ts))
    decreases |vs|
  {
    if vs == [] {
      h' := h;
    } else {
      assert Represents(h, open, vs[0], ts[0]) && Represents(h, open, vs[1], ts[1]);
      var h1 := h[d := h[d][ts[0].s := vs[1]]];
      assert RepresentsMap(h, open, h1[d], entries[ts[0].s := ts[1]]);
      FrameMap(h, open, h1[d], entries[ts[0].s := ts[1]], h1, open);
      FrameAll(h, open, vs, ts, h1, open);
      assert RepresentsAll(h1, open, vs[2..], ts[2..]);
      h' := DictSetAllRepresents(stack, d, h1, vs[2..], ts[2..], entries[ts[0].s := ts[1]], open);
    }
  }

  /** `d` is the innermost open dict. */
  lemma {:induction false} SimulateDictChunks(pf: FloatParser, chunks: seq<Chunk>, m: Memo, rest: bytes, st: State,
      base: seq<Val>, outer: seq<Val>, d: nat, entries: map<bytes, Tree>)
    returns (st': State)
    requires DenoteChunks(pf, chunks, true, m, |outer| + 1).Some?
    requires StringKeys(DenoteChunks(pf, chunks, true, m, |outer| + 1).value.trees)
    requires Agrees(st, m, outer + [Dict(d)]) && Below(outer + [Dict(d)], st.heap)
    requires st.stack == base + [Dict(d)] && d < |st.heap|
    requires RepresentsMap(st.heap, Opened(outer + [Dict(d)]), st.heap[d], entries)
    ensures Run(pf, EmitChunks(chunks, SETITEM, SETITEMS) + rest, st) == Run(pf, rest, st')
    ensures st'.stack == st.stack && |st.heap| <= |st'.heap| && st.heap[..d] == st'.heap[..d]
    ensures RepresentsMap(st'.heap, Opened(outer + [Dict(d)]), st'.heap[d],
                          Assign(entries, DenoteChunks(pf, chunks, true, m, |outer| + 1).value.trees))
    ensures Agrees(st', DenoteChunks(pf, chunks, true, m, |outer| + 1).value.memo, outer + [Dict(d)])
    decreases chunks
  {
    hide Run, DictSetAll, TopMark, Represents, EmitChunk, DenoteAll, Agrees, RepresentsMap, RepresentsAll, Opened;
    hide Keeps, Below;
    if chunks == [] {
      st' := st;
      assert EmitChunks(chunks, SETITEM, SETITEMS) + rest == rest;
    } else {
      var c, open := chunks[0], outer + [Dict(d)];
      var op := if c.batched then SETITEMS else SETITEM;
      var tail := EmitChunks(chunks[1..], SETITEM, SETITEMS) + rest;
      var first := DenoteAll(pf, c.items, m, |open|).value;
      var others := DenoteChunks(pf, chunks[1..], true, first.memo, |open|).value.trees;
      AssignConcat(entries, first.trees, others);
      var vs, st1 := SimulateItems(pf, c, op, m, tail, st, open);
      Grows(st.heap, st1.heap, open);
      FrameMap(st.heap, Opened(open), st.heap[d], entries, st1.heap, Opened(open));
      InnermostOpen(outer, d, st1.heap);
      SameSize(st1.heap, Opened(open), vs, first.trees);
      var h := DictSetAllRepresents(st.stack, d, st1.heap, vs, first.trees, entries, Opened(open));
      var st2 := st1.(stack := st.stack, heap := h);
      RunSet(pf, c.batched, tail, st1, st.stack, vs);
      Written(st1.heap, h, outer, d);
      AgreesFrame(st1, first.memo, open, st2);
      st' := SimulateDictChunks(pf, chunks[1..], first.memo, rest, st2, base, outer, d, Assign(entries, first.trees));
      assert st.heap[..d] == st1.heap[..d] == h[..d];
      Regroup(EmitChunk(c, op), EmitChunks(chunks[1..], SETITEM, SETITEMS), rest);
    }
  }

  lemma SameSize(h: Heap, open: set<nat>, vs: seq<Val>, ts: seq<Tree>)
    requires RepresentsAll(h, open, vs, ts)
    ensures |vs| == |ts|
  {
  }

  lemma InnermostOpen(outer: seq<Val>, d: nat, h: Heap)
    requires Below(outer + [Dict(d)], h)
    ensures d in Opened(outer + [Dict(d)]) && forall o :: o in Opened(outer + [Dict(d)]) ==> o < |h|
  {
    OpenedMore(outer, Dict(d));
  }

  /** Writing into an open dict. */
  lemma Written(h: Heap, h': Heap, outer: seq<Val>, d: nat)
    requires d < |h| && |h'| == |h| && h' == h[d := h'[d]] && Below(outer + [Dict(d)], h)
    ensures Keeps(h, Opened(outer + [Dict(d)]), h', Opened(outer + [Dict(d)])) && Below(outer + [Dict(d)], h')
  {
    InnermostOpen(outer, d, h);
  }

  lemma RunStop(pf: FloatParser, rest: bytes, st: State, below: seq<Val>, id: nat)
    requires st.stack == below + [Dict(id)]
    ensures Run(pf, [STOP] + rest, st) == Decoded(id, st.heap)
  {
    assert ([STOP] + rest)[1..] == rest;
    assert ReadImmediate(pf, STOP, rest) == NotImmediate;
  }

  /** The round trip: a pickled dict, with or without a protocol header, decodes to a
      dict standing for the value it was made from, whatever follows it. */
  lemma UnpickleInvertsPickling(pf: FloatParser, header: bool, protocol: byte, src: Src, tail: bytes)
    returns (id: nat, h: Heap)
    requires src.SDict? && Denote(pf, src, map[], 0).Some?
    ensures Run(pf, Pickled(header, protocol, src) + tail, START) == Decoded(id, h)
    ensures Represents(h, {}, Dict(id), Denote(pf, src, map[], 0).value.tree)
  {
    hide Run, Emit, Represents, Denote;
    var body := Emit(src) + ([STOP] + tail);
    var v, st := SimulateDict(pf, src, map[], [STOP] + tail, START, []);
    id, h := v.id, st.heap;
    assert Opened([]) == {};
    RunStop(pf, tail, st, [], id);
    if header {
      assert ([protocol] + body)[1..] == body;
      RunStep(pf, PROTO, [protocol], body, START, START);
      assert [PROTO, protocol] == [PROTO] + [protocol];
      Regroup4([PROTO, protocol], Emit(src), [STOP], tail);
    } else {
      assert [] + Emit(src) == Emit(src);
      Regroup(Emit(src), [STOP], tail);
    }
  }

  function Pickled(header: bool, protocol: byte, src: Src): bytes {
    (if header then [0x80, protocol] else []) + Emit(src) + [0x2E]
  }
}
