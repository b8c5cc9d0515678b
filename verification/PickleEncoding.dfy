/** What a Python pickler may write.

    A `Src` is a pickle before it is bytes: a value together with every choice the
    pickler makes for it (integer width, string form, memo stores, batching). `Denote`
    gives its value, `Emit` its bytes; `Represents` says what a machine value stands for. */
module PickleEncoding {
  import opened Common
  import opened Bytes
  import opened Pickle

  /** A Python value as the sink sees it: tuples read back as lists. `TShared` marks the
      places where a list that occurs elsewhere was fetched from the memo. */
  datatype Tree =
    | TNone
    | TBool(b: bool)
    | TInt(n: int)
    | TFloat(bits: nat)
    | TStr(s: bytes)
    | TList(items: seq<Tree>)
    | TShared(items: seq<Tree>)
    | TDict(entries: map<bytes, Tree>)

  datatype Put = NoPut | BinPut(i: byte) | LongBinPut(j: nat) | MemoizePut

  datatype IntForm = Int1 | Int2 | Int4 | LongBytes(k: nat) | IntLine | LongLine(suffix: bool)

  datatype StrForm = Unicode | ShortUnicode | ShortString

  datatype Src =
    | SNone
    | SBool(b: bool, line: bool)
    | SInt(n: int, form: IntForm)
    | SFloat(bits: nat)
    | SFloatLine(text: bytes)
    | SStr(s: bytes, strForm: StrForm, put: Put)
    | SGet(i: nat, long: bool)
    | STuple(items: seq<Src>, counted: bool, put: Put)
    | SList(put: Put, chunks: seq<Chunk>)
    | SDict(put: Put, chunks: seq<Chunk>)

  /** Items added to a container together: under a mark, or one at a time. A dict's items
      are its keys and values in turn. */
  datatype Chunk = Chunk(batched: bool, items: seq<Src>)

  /** What the pickler knows about a memo index: the list or dict it is filling at some depth
      of nesting, or a finished value. */
  datatype Slot = Filling(level: nat) | Known(tree: Tree)

  type Memo = map<nat, Slot>

  // ---- meaning ----

  datatype Meaning = Meaning(tree: Tree, memo: Memo)
  datatype Meanings = Meanings(trees: seq<Tree>, memo: Memo)

  predicate IntFits(n: int, form: IntForm) {
    match form
    case Int1 => 0 <= n < 0x100
    case Int2 => 0 <= n < 0x1_0000
    case Int4 => -0x8000_0000 <= n < 0x8000_0000
    case LongBytes(k) => k <= 8 && 0 <= 2 * n + Pow256(k) && 2 * n < Pow256(k)
    case _ => IsInt64(n)
  }

  predicate StrFits(s: bytes, form: StrForm) {
    |s| <= if form == Unicode then MAX_FRAME else 0xFF
  }

  predicate PutFits(put: Put) { put.LongBinPut? ==> put.j < 0x1_0000_0000 }

  function PutIn(m: Memo, put: Put, what: Slot): Memo {
    match put
    case NoPut => m
    case BinPut(i) => m[i as nat := what]
    case LongBinPut(j) => m[j := what]
    case MemoizePut => m[|m| := what]
  }

  /** The list or dict at `level` is finished: from now on it may be fetched. */
  function Finished(m: Memo, level: nat, tree: Tree): Memo {
    map i | i in m :: if m[i] == Filling(level) then Known(tree) else m[i]
  }

  /** The value of a pickle and the memo after it; None when no pickler writes it. `level`
      is the number of lists and dicts around it that are being filled. */
  function Denote(pf: FloatParser, src: Src, m: Memo, level: nat): Option<Meaning>
    decreases src
  {
    match src
    case SNone => Some(Meaning(TNone, m))
    case SBool(b, _) => Some(Meaning(TBool(b), m))
    case SInt(n, form) => if IntFits(n, form) then Some(Meaning(TInt(n), m)) else None
    case SFloat(bits) => if bits < Pow256(8) then Some(Meaning(TFloat(bits), m)) else None
    case SFloatLine(line) =>
      if NL in line || pf(line).None? then None else Some(Meaning(TFloat(pf(line).value), m))
    case SStr(s, form, put) =>
      if StrFits(s, form) && PutFits(put) then Some(Meaning(TStr(s), PutIn(m, put, Known(TStr(s))))) else None
    case SGet(i, long) =>
      if i in m && m[i].Known? && i < (if long then 0x1_0000_0000 else 0x100) then Some(Meaning(m[i].tree, m))
      else None
    case STuple(items, counted, put) =>
      var d := DenoteAll(pf, items, m, level);
      if d.None? || !PutFits(put) || (counted && |items| > 3) then None
      else
        var tree := TList(d.value.trees);
        Some(Meaning(tree, PutIn(d.value.memo, put, Known(tree))))
    case SList(put, chunks) =>
      var d := DenoteChunks(pf, chunks, false, PutIn(m, put, Filling(level)), level + 1);
      if d.None? || !PutFits(put) then None
      else Some(Meaning(TList(d.value.trees), Finished(d.value.memo, level, TShared(d.value.trees))))
    case SDict(put, chunks) =>
      var d := DenoteChunks(pf, chunks, true, PutIn(m, put, Filling(level)), level + 1);
      if d.None? || !PutFits(put) || !StringKeys(d.value.trees) then None
      else
        var tree := TDict(Assign(map[], d.value.trees));
        Some(Meaning(tree, Finished(d.value.memo, level, tree)))
  }

  function DenoteAll(pf: FloatParser, srcs: seq<Src>, m: Memo, level: nat): (d: Option<Meanings>)
    ensures d.Some? ==> |d.value.trees| == |srcs|
    decreases srcs
  {
    if srcs == [] then Some(Meanings([], m))
    else
      match Denote(pf, srcs[0], m, level)
      case None => None
      case Some(first) =>
        match DenoteAll(pf, srcs[1..], first.memo, level)
        case None => None
        case Some(others) => Some(Meanings([first.tree] + others.trees, others.memo))
  }

  /** An element is one item of a list, or a key and a value of a dict. */
  function DenoteChunks(pf: FloatParser, chunks: seq<Chunk>, pairs: bool, m: Memo, level: nat): (d: Option<Meanings>)
    ensures d.Some? && pairs ==> |d.value.trees| % 2 == 0
    decreases chunks
  {
    if chunks == [] then Some(Meanings([], m))
    else
      var c := chunks[0];
      if !ChunkFits(c, pairs) then None
      else
        match DenoteAll(pf, c.items, m, level)
        case None => None
        case Some(first) =>
          match DenoteChunks(pf, chunks[1..], pairs, first.memo, level)
          case None => None
          case Some(others) => Some(Meanings(first.trees + others.trees, others.memo))
  }

  predicate ChunkFits(c: Chunk, pairs: bool) {
    if c.batched then pairs ==> |c.items| % 2 == 0
    else |c.items| == if pairs then 2 else 1
  }

  predicate StringKeys(ts: seq<Tree>) {
    |ts| % 2 == 0 && forall i :: 0 <= i < |ts| && i % 2 == 0 ==> ts[i].TStr?
  }

  /** Keys and values in turn, assigned in order: the last value of a key wins. */
  function Assign(entries: map<bytes, Tree>, ts: seq<Tree>): map<bytes, Tree>
    requires StringKeys(ts)
    decreases |ts|
  {
    if ts == [] then entries else Assign(entries[ts[0].s := ts[1]], ts[2..])
  }

  // ---- bytes, as the pickle format has them ----

  function EmitPut(put: Put): bytes {
    match put
    case NoPut => []
    case BinPut(i) => [0x71, i]
    case LongBinPut(j) => [0x72] + LittleEndian(j, 4)
    case MemoizePut => [0x94]
  }

  /** `n` in `k` bytes of two's complement, low byte first. */
  function TwosBytes(n: int, k: nat): bytes
    requires 0 <= 2 * n + Pow256(k)
  {
    var wrapped: int := if n < 0 then n + Pow256(k) else n;
    LittleEndian(wrapped, k)
  }

  function EmitInt(n: int, form: IntForm): bytes
    requires IntFits(n, form)
  {
    match form
    case Int1 => [0x4B, n]
    case Int2 => [0x4D] + LittleEndian(n, 2)
    case Int4 => Pow256Values(); [0x4A] + TwosBytes(n, 4)
    case LongBytes(k) => [0x8A] + ([k] + TwosBytes(n, k))
    case IntLine => [0x49] + (FormatInt(n) + [0x0A])
    case LongLine(suffix) => [0x4C] + (FormatInt(n) + (if suffix then [0x4C] else []) + [0x0A])
  }

  function EmitStr(s: bytes, form: StrForm): bytes
    requires StrFits(s, form)
  {
    match form
    case Unicode => [0x58] + (LittleEndian(|s|, 4) + s)
    case ShortUnicode => [0x8C] + ([|s|] + s)
    case ShortString => [0x55] + ([|s|] + s)
  }

  function TupleOp(n: nat): byte
    requires n <= 3
  {
    if n == 0 then 0x29 else 0x85 + n - 1
  }

  function Emit(src: Src): bytes
    decreases src
  {
    match src
    case SNone => [0x4E]
    case SBool(b, line) =>
      if line then [0x49] + [0x30, if b then 0x31 else 0x30, 0x0A]
      else [if b then 0x88 else 0x89]
    case SInt(n, form) => if IntFits(n, form) then EmitInt(n, form) else []
    case SFloat(bits) => [0x47] + BigEndian(bits, 8)
    case SFloatLine(line) => [0x46] + (line + [0x0A])
    case SStr(s, form, put) => (if StrFits(s, form) then EmitStr(s, form) else []) + EmitPut(put)
    case SGet(i, long) =>
      if long then [0x6A] + LittleEndian(i, 4) else if i < 0x100 then [0x68, i] else []
    case STuple(items, counted, put) =>
      EmitTuple(items, counted) + EmitPut(put)
    case SList(put, chunks) => [0x5D] + EmitPut(put) + EmitChunks(chunks, 0x61, 0x65)
    case SDict(put, chunks) => [0x7D] + EmitPut(put) + EmitChunks(chunks, 0x73, 0x75)
  }

  function EmitTuple(items: seq<Src>, counted: bool): bytes
    decreases items, 1
  {
    if counted && |items| <= 3 then EmitAll(items) + [TupleOp(|items|)]
    else [0x28] + EmitAll(items) + [0x74]
  }

  function EmitAll(srcs: seq<Src>): bytes
    decreases srcs, 0
  {
    if srcs == [] then [] else Emit(srcs[0]) + EmitAll(srcs[1..])
  }

  function EmitChunk(c: Chunk, op: byte): bytes
    decreases c
  {
    if c.batched then [0x28] + EmitAll(c.items) + [op] else EmitAll(c.items) + [op]
  }

  function EmitChunks(chunks: seq<Chunk>, one: byte, many: byte): bytes
    decreases chunks
  {
    if chunks == [] then []
    else
      var c := chunks[0];
      EmitChunk(c, if c.batched then many else one) + EmitChunks(chunks[1..], one, many)
  }

  // ---- a machine value stands for a tree ----

  /** In heap `h`, `v` stands for `t`, and no dict it reaches is in `open`: those are still
      being filled. Finished dicts may be shared; a list fetched from the memo is the slice
      that was remembered when the list was made, and so is empty. */
  ghost predicate Represents(h: Heap, open: set<nat>, v: Val, t: Tree)
    decreases t
  {
    match t
    case TNone => v == Nil
    case TBool(b) => v == Bool(b)
    case TInt(n) => v == Int(n)
    case TFloat(bits) => v == Float(bits)
    case TStr(s) => v == Str(s)
    case TList(ts) =>
      v.List? && |v.items| == |ts| && forall i :: 0 <= i < |ts| ==> Represents(h, open, v.items[i], ts[i])
    case TShared(_) => v == List([])
    case TDict(entries) =>
      v.Dict? && v.id < |h| && v.id !in open && h[v.id].Keys == entries.Keys
      && forall k :: k in entries ==> Represents(h, open, h[v.id][k], entries[k])
  }

  ghost predicate RepresentsAll(h: Heap, open: set<nat>, vs: seq<Val>, ts: seq<Tree>) {
    |vs| == |ts| && forall i :: 0 <= i < |ts| ==> Represents(h, open, vs[i], ts[i])
  }

  ghost predicate RepresentsMap(h: Heap, open: set<nat>, o: Object, entries: map<bytes, Tree>) {
    o.Keys == entries.Keys && forall k :: k in entries ==> Represents(h, open, o[k], entries[k])
  }

  /** From `h` to `h'` only open dicts changed and new ones came; of those that were there,
      no closed one was opened. */
  ghost predicate Keeps(h: Heap, open: set<nat>, h': Heap, open': set<nat>) {
    && |h| <= |h'| && (forall i :: 0 <= i < |h| && i !in open ==> h'[i] == h[i])
    && forall o :: o in open' ==> o in open || o >= |h|
  }

  lemma {:induction false} Frame(h: Heap, open: set<nat>, v: Val, t: Tree, h': Heap, open': set<nat>)
    requires Represents(h, open, v, t) && Keeps(h, open, h', open')
    ensures Represents(h', open', v, t)
    decreases t
  {
    match t
    case TList(ts) =>
      forall i | 0 <= i < |ts| ensures Represents(h', open', v.items[i], ts[i]) {
        Frame(h, open, v.items[i], ts[i], h', open');
      }
    case TDict(entries) =>
      forall k | k in entries ensures Represents(h', open', h'[v.id][k], entries[k]) {
        Frame(h, open, h[v.id][k], entries[k], h', open');
      }
    case _ =>
  }

  lemma FrameAll(h: Heap, open: set<nat>, vs: seq<Val>, ts: seq<Tree>, h': Heap, open': set<nat>)
    requires RepresentsAll(h, open, vs, ts) && Keeps(h, open, h', open')
    ensures RepresentsAll(h', open', vs, ts)
  {
    hide Keeps, Represents;
    forall i | 0 <= i < |ts| ensures Represents(h', open', vs[i], ts[i]) {
      Frame(h, open, vs[i], ts[i], h', open');
    }
  }

  lemma FrameMap(h: Heap, open: set<nat>, o: Object, entries: map<bytes, Tree>, h': Heap, open': set<nat>)
    requires RepresentsMap(h, open, o, entries) && Keeps(h, open, h', open')
    ensures RepresentsMap(h', open', o, entries)
  {
    hide Keeps, Represents;
    forall k | k in entries ensures Represents(h', open', o[k], entries[k]) {
      Frame(h, open, o[k], entries[k], h', open');
    }
  }

  // ---- lists that occur more than once ----

  /** The tree without marks: lists fetched from the memo with their items, or without. */
  function Unmarked(t: Tree, whole: bool): Tree {
    match t
    case TShared(ts) => TList(if whole then seq(|ts|, i requires 0 <= i < |ts| => Unmarked(ts[i], whole)) else [])
    case TList(ts) => TList(seq(|ts|, i requires 0 <= i < |ts| => Unmarked(ts[i], whole)))
    case TDict(entries) => TDict(map k | k in entries :: Unmarked(entries[k], whole))
    case _ => t
  }

  /** No list with items in it was fetched. */
  ghost predicate SharesNothing(t: Tree) {
    match t
    case TShared(ts) => ts == []
    case TList(ts) => forall i :: 0 <= i < |ts| ==> SharesNothing(ts[i])
    case TDict(entries) => forall k :: k in entries ==> SharesNothing(entries[k])
    case _ => true
  }

  /** A machine value stands for at most one tree, up to lists fetched from the memo. */
  lemma {:induction false} RepresentsUnique(h: Heap, v: Val, open: set<nat>, t: Tree, open': set<nat>, t': Tree)
    requires Represents(h, open, v, t) && Represents(h, open', v, t')
    ensures Unmarked(t, false) == Unmarked(t', false)
    decreases t
  {
    match t
    case TShared(_) => EmptyUnmarked(h, open', t');
    case TList(ts) =>
      if t'.TShared? {
        EmptyUnmarked(h, open, t);
      } else {
        var a, b := Unmarked(t, false).items, Unmarked(t', false).items;
        forall i | 0 <= i < |ts| ensures a[i] == b[i] {
          RepresentsUnique(h, v.items[i], open, ts[i], open', t'.items[i]);
        }
        assert a == b;
      }
    case TDict(entries) =>
      var a, b := Unmarked(t, false).entries, Unmarked(t', false).entries;
      forall k | k in entries ensures a[k] == b[k] {
        RepresentsUnique(h, h[v.id][k], open, entries[k], open', t'.entries[k]);
      }
      assert a == b;
    case _ =>
  }

  lemma EmptyUnmarked(h: Heap, open: set<nat>, t: Tree)
    requires Represents(h, open, List([]), t)
    ensures Unmarked(t, false) == TList([])
  {
  }

  lemma {:induction false} RepresentsUnmarked(h: Heap, open: set<nat>, v: Val, t: Tree)
    requires Represents(h, open, v, t)
    ensures Represents(h, open, v, Unmarked(t, false))
    decreases t
  {
    match t
    case TList(ts) =>
      forall i | 0 <= i < |ts| ensures Represents(h, open, v.items[i], Unmarked(ts[i], false)) {
        RepresentsUnmarked(h, open, v.items[i], ts[i]);
      }
    case TDict(entries) =>
      forall k | k in entries ensures Represents(h, open, h[v.id][k], Unmarked(entries[k], false)) {
        RepresentsUnmarked(h, open, h[v.id][k], entries[k]);
      }
    case _ =>
  }

  lemma {:induction false} UnmarkedOnce(t: Tree)
    ensures Unmarked(Unmarked(t, true), false) == Unmarked(t, true)
  {
    match t
    case TList(ts) =>
      forall i | 0 <= i < |ts| ensures Unmarked(Unmarked(ts[i], true), false) == Unmarked(ts[i], true) {
        UnmarkedOnce(ts[i]);
      }
    case TShared(ts) =>
      forall i | 0 <= i < |ts| ensures Unmarked(Unmarked(ts[i], true), false) == Unmarked(ts[i], true) {
        UnmarkedOnce(ts[i]);
      }
    case TDict(entries) =>
      forall k | k in entries ensures Unmarked(Unmarked(entries[k], true), false) == Unmarked(entries[k], true) {
        UnmarkedOnce(entries[k]);
      }
    case _ =>
  }

  lemma {:induction false} SharedMatters(t: Tree)
    ensures Unmarked(t, true) == Unmarked(t, false) <==> SharesNothing(t)
  {
    match t
    case TList(ts) =>
      var a, b := Unmarked(t, true).items, Unmarked(t, false).items;
      assert forall i :: 0 <= i < |ts| ==> a[i] == Unmarked(ts[i], true) && b[i] == Unmarked(ts[i], false);
      forall i | 0 <= i < |ts| ensures a[i] == b[i] <==> SharesNothing(ts[i]) { SharedMatters(ts[i]); }
    case TDict(entries) =>
      var a, b := Unmarked(t, true).entries, Unmarked(t, false).entries;
      assert forall k :: k in entries ==> a[k] == Unmarked(entries[k], true) && b[k] == Unmarked(entries[k], false);
      forall k | k in entries ensures a[k] == b[k] <==> SharesNothing(entries[k]) { SharedMatters(entries[k]); }
    case _ =>
  }

  /** What a decoded value stands for is the value pickled, its shared lists included, exactly
      if none of these has items. */
  lemma WholeExactly(h: Heap, open: set<nat>, v: Val, t: Tree)
    requires Represents(h, open, v, t)
    ensures Represents(h, open, v, Unmarked(t, true)) <==> SharesNothing(t)
  {
    hide Represents, Unmarked;
    RepresentsUnmarked(h, open, v, t);
    SharedMatters(t);
    UnmarkedOnce(t);
    if Represents(h, open, v, Unmarked(t, true)) { RepresentsUnique(h, v, open, Unmarked(t, true), open, t); }
  }
}
