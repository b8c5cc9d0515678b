/** Whole runs of one rule: what the ring counts, what an event carries, and when the
    rule may fire. A run is the engine's inputs in order; rules do not affect each other. */
module NotifyRuns {
  import opened Model
  import opened Notify

  datatype Input = Log(e: Entry, at: Time) | Tick(at: Time)

  /** The rule beside its history, which it does not read: the events so far, the last
      tick, and the matches since the last fire, one list for each interval between ticks. */
  datatype World = World(
    lastSeen: map<string, Time>,
    r: RuleState,
    fired: seq<Event>,
    gens: seq<seq<Captured>>,
    lastTick: Time)

  predicate Observes(c: Config, r: RuleState, e: Entry) {
    c.kind == Threshold && !r.disabled && Matches(c, e)
  }

  /** One more match in the newest interval. */
  function Noted(gens: seq<seq<Captured>>, m: Captured): (g: seq<seq<Captured>>)
    requires gens != []
    ensures |g| == |gens|
  {
    gens[|gens| - 1 := gens[|gens| - 1] + [m]]
  }

  function Step(c: Config, w: World, x: Input): (w': World)
    requires RingOk(c, w.r) && w.gens != []
    ensures RingOk(c, w'.r) && w'.gens != []
  {
    match x
    case Log(e, at) =>
      World(w.lastSeen[e.app := at], Observed(c, w.r, e, at), w.fired,
            if Observes(c, w.r, e) then Noted(w.gens, Captured(e, at)) else w.gens, w.lastTick)
    case Tick(at) =>
      var (r', event) := Ticked(c, w.r, at, LastSeen(w.lastSeen, c.app));
      World(w.lastSeen, r', if event.Some? then w.fired + [event.value] else w.fired,
            if event.Some? then [[]] else if w.r.disabled then w.gens else w.gens + [[]], at)
  }

  /** The run of a rule from the moment its ticker starts. */
  function Run(c: Config, start: Time, xs: seq<Input>): (w: World)
    requires Built(c)
    ensures RingOk(c, w.r) && w.gens != []
  {
    if xs == [] then World(map[], Initial(c), [], [[]], start)
    else Step(c, Run(c, start, xs[..|xs| - 1]), xs[|xs| - 1])
  }

  function Flat(gens: seq<seq<Captured>>): seq<Captured> {
    if gens == [] then [] else Flat(gens[..|gens| - 1]) + gens[|gens| - 1]
  }

  /** The matches of the newest `n` intervals. */
  function Recent(gens: seq<seq<Captured>>, n: nat): seq<Captured> {
    if n == 0 || gens == [] then [] else Recent(gens[..|gens| - 1], n - 1) + gens[|gens| - 1]
  }

  // ---- the ring refines the history ----

  /** The ring from its oldest slot to its current one. */
  function Unrolled(r: RuleState): (s: seq<nat>)
    requires r.cur < |r.buckets|
    ensures |s| == |r.buckets|
  {
    r.buckets[r.cur + 1..] + r.buckets[..r.cur + 1]
  }

  /** The sizes of the newest `n` intervals, oldest first; missing ones are empty. */
  function Sizes(gens: seq<seq<Captured>>, n: nat): (s: seq<nat>)
    ensures |s| == n
    decreases n
  {
    if n == 0 then []
    else if gens == [] then Sizes([], n - 1) + [0]
    else Sizes(gens[..|gens| - 1], n - 1) + [|gens[|gens| - 1]|]
  }

  lemma {:induction false} SizesTail(gens: seq<seq<Captured>>, n: nat)
    requires n > 0
    ensures Sizes(gens, n)[1..] == Sizes(gens, n - 1)
    decreases n
  {
    if n > 1 {
      var init := if gens == [] then [] else gens[..|gens| - 1];
      SizesTail(init, n - 1);
      assert Sizes(gens, n)[1..] == Sizes(init, n - 1)[1..] + [Sizes(gens, n)[n - 1]];
    }
  }

  lemma {:induction false} SizesEmpty(n: nat)
    ensures Sizes([], n) == seq(n, _ => 0) && Sizes([[]], n) == seq(n, _ => 0)
  {
    if n > 0 {
      SizesEmpty(n - 1);
      var gens: seq<seq<Captured>> := [[]];
      assert gens[..0] == [];
    }
  }

  lemma NextSlot(cur: nat, n: nat)
    requires cur < n
    ensures (cur + 1) % n == if cur + 1 < n then cur + 1 else 0
  {
  }

  lemma UnrolledAdvances(r: RuleState)
    requires r.cur < |r.buckets|
    ensures Unrolled(Advanced(r)) == Unrolled(r)[1..] + [0] && |Advanced(r).buckets| == |r.buckets|
  {
    NextSlot(r.cur, |r.buckets|);
    var b, next := r.buckets, Advanced(r).cur;
    if next == r.cur + 1 {
      assert b[next := 0][next + 1..] == b[r.cur + 1..][1..];
      assert b[next := 0][..next + 1] == b[..r.cur + 1] + [0];
    } else {
      assert b[next := 0][next + 1..] == b[1..] && b[next := 0][..1] == [0];
      assert b[r.cur + 1..] == [] && b[..r.cur + 1] == b;
    }
  }

  lemma UnrolledBump(r: RuleState)
    requires r.cur < |r.buckets|
    ensures var s, n := Unrolled(r), |r.buckets|;
      Unrolled(r.(buckets := r.buckets[r.cur := r.buckets[r.cur] + 1])) == s[n - 1 := s[n - 1] + 1]
  {
  }

  ghost predicate Refines(c: Config, w: World)
    requires Built(c) && RingOk(c, w.r)
  {
    c.kind == Threshold ==> |w.r.buckets| == BucketCount(c) && Unrolled(w.r) == Sizes(w.gens, BucketCount(c))
  }

  lemma RefinesObserved(c: Config, w: World, e: Entry, at: Time)
    requires Built(c) && RingOk(c, w.r) && w.gens != [] && Refines(c, w)
    ensures Refines(c, Step(c, w, Log(e, at)))
  {
    if Observes(c, w.r, e) {
      var n := BucketCount(c);
      UnrolledBump(w.r);
      var s, t := Sizes(w.gens, n), Sizes(Noted(w.gens, Captured(e, at)), n);
      var init := w.gens[..|w.gens| - 1];
      assert Noted(w.gens, Captured(e, at))[..|w.gens| - 1] == init;
      assert t == s[n - 1 := s[n - 1] + 1];
    }
  }

  lemma RefinesTicked(c: Config, w: World, at: Time)
    requires Built(c) && RingOk(c, w.r) && w.gens != [] && Refines(c, w)
    ensures Refines(c, Step(c, w, Tick(at)))
  {
    hide Sum, Pruned, Fired, Sizes, Unrolled, Advanced;
    if c.kind == Threshold && !w.r.disabled {
      var n := BucketCount(c);
      var p := w.r.(entries := Pruned(w.r.entries, at - c.window));
      var f := Fired(c, p, at).(entries := [], buckets := seq(n, _ => 0));
      FiredKeepsRing(c, p, at);
      UnrolledSame(p, w.r);
      UnrolledAdvances(p);
      UnrolledAdvances(f);
      SizesGrow(w.gens, n);
      UnrolledZero(f);
      SizesEmpty(n);
    }
  }

  lemma UnrolledSame(p: RuleState, r: RuleState)
    requires r.cur < |r.buckets| && p.cur == r.cur && p.buckets == r.buckets
    ensures Unrolled(p) == Unrolled(r)
  {
  }

  lemma UnrolledZero(f: RuleState)
    requires f.cur < |f.buckets| && f.buckets == seq(|f.buckets|, _ => 0)
    ensures Unrolled(f)[1..] + [0] == f.buckets
  {
    assert forall k :: 0 <= k < |f.buckets| ==> Unrolled(f)[k] == 0;
  }

  lemma SizesGrow(gens: seq<seq<Captured>>, n: nat)
    requires n > 0
    ensures Sizes(gens + [[]], n) == Sizes(gens, n)[1..] + [0]
  {
    SizesTail(gens, n);
    assert (gens + [[]])[..|gens|] == gens;
  }

  lemma FiredKeepsRing(c: Config, r: RuleState, now: Time)
    ensures Fired(c, r, now).buckets == r.buckets && Fired(c, r, now).cur == r.cur
  {
  }

  /** In every run, at every moment, the ring holds the sizes of the newest intervals. */
  lemma {:induction false} RunRefines(c: Config, start: Time, xs: seq<Input>)
    requires Built(c)
    ensures Refines(c, Run(c, start, xs))
  {
    if xs == [] {
      var r, n := Initial(c), BucketCount(c);
      SizesEmpty(n);
    } else {
      hide Step, Refines;
      var init, x := xs[..|xs| - 1], xs[|xs| - 1];
      RunRefines(c, start, init);
      var w := Run(c, start, init);
      match x {
        case Log(e, at) => RefinesObserved(c, w, e, at);
        case Tick(at) => RefinesTicked(c, w, at);
      }
    }
  }

  lemma {:induction false} SumConcat(a: seq<nat>, b: seq<nat>)
    ensures Sum(a + b) == Sum(a) + Sum(b)
    decreases |b|
  {
    if b == [] {
      assert a + b == a;
    } else {
      var last := |b| - 1;
      assert (a + b)[..|a| + last] == a + b[..last] && (a + b)[|a| + last] == b[last];
      SumConcat(a, b[..last]);
    }
  }

  lemma {:induction false} SumSizes(gens: seq<seq<Captured>>, n: nat)
    ensures Sum(Sizes(gens, n)) == |Recent(gens, n)|
    decreases n
  {
    if n > 0 {
      SumSizes(if gens == [] then [] else gens[..|gens| - 1], n - 1);
      var s := Sizes(gens, n);
      assert s[..n - 1] == Sizes(if gens == [] then [] else gens[..|gens| - 1], n - 1);
    }
  }

  /** What a tick adds up: the matches of the newest intervals since the last fire. */
  lemma TickCounts(c: Config, start: Time, xs: seq<Input>)
    requires Built(c) && c.kind == Threshold
    ensures Sum(Run(c, start, xs).r.buckets) == |Recent(Run(c, start, xs).gens, BucketCount(c))|
  {
    hide Sum, Recent, Run;
    var w := Run(c, start, xs);
    RunRefines(c, start, xs);
    SumConcat(w.r.buckets[w.r.cur + 1..], w.r.buckets[..w.r.cur + 1]);
    SumConcat(w.r.buckets[..w.r.cur + 1], w.r.buckets[w.r.cur + 1..]);
    assert w.r.buckets[..w.r.cur + 1] + w.r.buckets[w.r.cur + 1..] == w.r.buckets;
    SumSizes(w.gens, BucketCount(c));
  }

  // ---- the history is a part of the inputs ----

  /** The position after the last tick at which the rule fired. */
  function SinceFire(c: Config, start: Time, xs: seq<Input>): (n: nat)
    requires Built(c)
    ensures n <= |xs|
  {
    if xs == [] then 0
    else if |Run(c, start, xs).fired| > |Run(c, start, xs[..|xs| - 1]).fired| then |xs|
    else SinceFire(c, start, xs[..|xs| - 1])
  }

  /** The entries among some inputs that satisfy the rule. */
  function Matching(c: Config, xs: seq<Input>): seq<Captured> {
    if xs == [] then []
    else
      var x := xs[|xs| - 1];
      Matching(c, xs[..|xs| - 1]) + if x.Log? && Matches(c, x.e) then [Captured(x.e, x.at)] else []
  }

  lemma MatchingMore(c: Config, xs: seq<Input>, n: nat)
    requires n < |xs|
    ensures var x := xs[|xs| - 1];
      Matching(c, xs[n..])
      == Matching(c, xs[..|xs| - 1][n..]) + if x.Log? && Matches(c, x.e) then [Captured(x.e, x.at)] else []
  {
    assert xs[n..][..|xs| - n - 1] == xs[..|xs| - 1][n..];
  }

  /** One input: either the rule fires and the history starts afresh, or the history grows
      by the input if it is a match. */
  lemma HistoryStep(c: Config, w: World, x: Input)
    requires RingOk(c, w.r) && w.gens != [] && c.kind == Threshold && (w.r.disabled ==> Flat(w.gens) == [])
    ensures var w' := Step(c, w, x);
      if |w'.fired| > |w.fired| then Flat(w'.gens) == []
      else
        && w'.r.disabled == w.r.disabled
        && Flat(w'.gens) == Flat(w.gens)
           + if !w.r.disabled && x.Log? && Matches(c, x.e) then [Captured(x.e, x.at)] else []
  {
    hide Sum, Pruned, Entries, Flat;
    FlatNone();
    FlatTicked(w.gens);
    assert Flat(w.gens) + [] == Flat(w.gens);
    if x.Log? { FlatNoted(w.gens, Captured(x.e, x.at)); }
  }

  lemma FlatNoted(gens: seq<seq<Captured>>, m: Captured)
    requires gens != []
    ensures Flat(Noted(gens, m)) == Flat(gens) + [m]
  {
    assert Noted(gens, m)[..|gens| - 1] == gens[..|gens| - 1];
  }

  lemma FlatTicked(gens: seq<seq<Captured>>)
    ensures Flat(gens + [[]]) == Flat(gens)
  {
    assert (gens + [[]])[..|gens|] == gens;
  }

  lemma FlatNone()
    ensures Flat([[]]) == [] && Flat([]) == []
  {
    var gens: seq<seq<Captured>> := [[]];
    assert gens[..0] == [];
  }

  /** The history of a threshold rule is made of exactly the matching entries among the
      inputs after its last fire; a retired rule has none. */
  lemma {:induction false} HistoryIsMatching(c: Config, start: Time, xs: seq<Input>)
    requires Built(c) && c.kind == Threshold
    ensures var w := Run(c, start, xs);
      Flat(w.gens) == if w.r.disabled then [] else Matching(c, xs[SinceFire(c, start, xs)..])
  {
    if xs == [] {
      FlatNone();
    } else {
      var init, x := xs[..|xs| - 1], xs[|xs| - 1];
      var w := Run(c, start, init);
      HistoryIsMatching(c, start, init);
      HistoryStep(c, w, x);
      hide Step, Flat;
      if |Run(c, start, xs).fired| > |w.fired| {
        NoneMatching(c);
        assert xs[|xs|..] == [];
      } else {
        MatchingMore(c, xs, SinceFire(c, start, init));
      }
    }
  }

  lemma NoneMatching(c: Config)
    ensures Matching(c, []) == []
  {
  }

  // ---- the window error ----

  function Latest(start: Time, xs: seq<Input>): Time {
    if xs == [] then start else xs[|xs| - 1].at
  }

  /** The clock does not run backwards. */
  ghost predicate Monotone(start: Time, xs: seq<Input>) {
    xs == [] || (Monotone(start, xs[..|xs| - 1]) && Latest(start, xs[..|xs| - 1]) <= xs[|xs| - 1].at)
  }

  function LastTick(start: Time, xs: seq<Input>): Time {
    if xs == [] then start
    else if xs[|xs| - 1].Tick? then xs[|xs| - 1].at
    else LastTick(start, xs[..|xs| - 1])
  }

  /** And ticks come exactly one slot apart. */
  ghost predicate Steady(start: Time, xs: seq<Input>) {
    xs == [] ||
    (Steady(start, xs[..|xs| - 1]) && Latest(start, xs[..|xs| - 1]) <= xs[|xs| - 1].at
     && (xs[|xs| - 1].Tick? ==> xs[|xs| - 1].at == LastTick(start, xs[..|xs| - 1]) + SLOT))
  }

  /** Interval `g` of `gens` lies between two ticks; `last` is the newest tick. */
  ghost predicate Timed(gens: seq<seq<Captured>>, last: Time, latest: Time) {
    last <= latest &&
    forall g, i :: 0 <= g < |gens| && 0 <= i < |gens[g]| ==>
      var age := |gens| - 1 - g;
      last - age * SLOT <= gens[g][i].at <= latest && (age >= 1 ==> gens[g][i].at <= last - (age - 1) * SLOT)
  }

  lemma TimedNoted(gens: seq<seq<Captured>>, last: Time, latest: Time, m: Captured)
    requires gens != [] && Timed(gens, last, latest) && latest <= m.at
    ensures Timed(Noted(gens, m), last, m.at)
  {
    var gens': seq<seq<Captured>> := Noted(gens, m);
    forall g, i | 0 <= g < |gens'| && 0 <= i < |gens'[g]|
      ensures var age := |gens'| - 1 - g;
        last - age * SLOT <= gens'[g][i].at <= m.at && (age >= 1 ==> gens'[g][i].at <= last - (age - 1) * SLOT)
    {
      assert i < |gens[g]| ==> gens'[g][i] == gens[g][i];
    }
  }

  lemma TimedTicked(gens: seq<seq<Captured>>, last: Time, latest: Time)
    requires Timed(gens, last, latest) && latest <= last + SLOT
    ensures Timed(gens + [[]], last + SLOT, last + SLOT)
  {
    var gens': seq<seq<Captured>> := gens + [[]];
    forall g, i | 0 <= g < |gens'| && 0 <= i < |gens'[g]|
      ensures var age := |gens'| - 1 - g;
        last + SLOT - age * SLOT <= gens'[g][i].at <= last + SLOT
        && (age >= 1 ==> gens'[g][i].at <= last + SLOT - (age - 1) * SLOT)
    {
      assert g < |gens| && gens'[g][i] == gens[g][i];
    }
  }

  lemma {:induction false} RunTimed(c: Config, start: Time, xs: seq<Input>)
    requires Built(c) && Steady(start, xs)
    ensures Run(c, start, xs).lastTick == LastTick(start, xs)
    ensures !Run(c, start, xs).r.disabled ==> Timed(Run(c, start, xs).gens, LastTick(start, xs), Latest(start, xs))
    ensures LastTick(start, xs) <= Latest(start, xs)
  {
    if xs != [] {
      var init, x := xs[..|xs| - 1], xs[|xs| - 1];
      RunTimed(c, start, init);
      var w := Run(c, start, init);
      var last, latest := LastTick(start, init), Latest(start, init);
      DisabledStays(c, w, x);
      if !w.r.disabled {
        match x {
          case Log(e, at) =>
            TimedNoted(w.gens, last, latest, Captured(e, at));
            assert Timed(w.gens, last, at);
          case Tick(at) =>
            TimedTicked(w.gens, last, latest);
        }
      }
    }
  }

  lemma DisabledStays(c: Config, w: World, x: Input)
    requires RingOk(c, w.r) && w.gens != []
    ensures w.r.disabled ==> Step(c, w, x).r == w.r && Step(c, w, x).fired == w.fired
  {
    hide TickThreshold, TickSilence;
  }

  function CountYounger(ms: seq<Captured>, now: Time, age: Time): nat {
    if ms == [] then 0
    else CountYounger(ms[..|ms| - 1], now, age) + if now - ms[|ms| - 1].at < age then 1 else 0
  }

  lemma {:induction false} CountConcat(a: seq<Captured>, b: seq<Captured>, now: Time, age: Time)
    ensures CountYounger(a + b, now, age) == CountYounger(a, now, age) + CountYounger(b, now, age)
    decreases |b|
  {
    if b == [] {
      assert a + b == a;
    } else {
      var last := |b| - 1;
      assert (a + b)[..|a| + last] == a + b[..last] && (a + b)[|a| + last] == b[last];
      CountConcat(a, b[..last], now, age);
    }
  }

  lemma {:induction false} CountBounds(ms: seq<Captured>, now: Time, age: Time)
    ensures CountYounger(ms, now, age) <= |ms|
    ensures (forall i :: 0 <= i < |ms| ==> now - ms[i].at < age) ==> CountYounger(ms, now, age) == |ms|
    ensures (forall i :: 0 <= i < |ms| ==> now - ms[i].at >= age) ==> CountYounger(ms, now, age) == 0
  {
    if ms != [] { CountBounds(ms[..|ms| - 1], now, age); }
  }

  /** With ticks one slot apart, the sum over the `n` newest intervals counts every match
      younger than the window, and none as old as the window and a slot. */
  lemma {:induction false} WindowError(gens: seq<seq<Captured>>, n: nat, last: Time, latest: Time, now: Time,
      window: Time)
    requires Timed(gens, last, latest) && latest <= now && n * SLOT >= window && n * SLOT < window + SLOT
    requires window > 0 && now == last + SLOT
    ensures CountYounger(Flat(gens), now, window) <= |Recent(gens, n)| <= CountYounger(Flat(gens), now, window + SLOT)
  {
    WindowErrorFrom(gens, n, n, last, now, window);
  }

  /** The same with the newest `m - n` intervals already cut off. */
  lemma {:induction false} WindowErrorFrom(gens: seq<seq<Captured>>, n: nat, m: nat, last: Time, now: Time,
      window: Time)
    requires n <= m && window > 0 && m * SLOT >= window && m * SLOT < window + SLOT && now == last + SLOT
    requires Spaced(gens, m - n, last)
    ensures CountYounger(Flat(gens), now, window) <= |Recent(gens, n)| <= CountYounger(Flat(gens), now, window + SLOT)
    decreases |gens|
  {
    hide Flat, Recent, CountYounger, Spaced;
    Unfold(gens, n, now, window);
    if gens != [] {
      var init, newest := gens[..|gens| - 1], gens[|gens| - 1];
      if n > 0 {
        assert gens == init + [newest];
        SpacedSplits(init, newest, m - n, last);
        CountConcat(Flat(init), newest, now, window);
        CountConcat(Flat(init), newest, now, window + SLOT);
        CountBounds(newest, now, window);
        CountBounds(newest, now, window + SLOT);
        WindowErrorFrom(init, n - 1, m, last, now, window);
      } else {
        SpacedOld(gens, m, last);
        AllOld(gens, last, now, m, window);
      }
    }
  }

  /** Interval `g` of `gens` lies between ticks one slot apart, the newest `age` slots ago. */
  ghost predicate Spaced(gens: seq<seq<Captured>>, age: nat, last: Time) {
    forall g, i :: 0 <= g < |gens| && 0 <= i < |gens[g]| ==>
      var a := |gens| - 1 - g + age;
      last - a * SLOT <= gens[g][i].at && (a >= 1 ==> gens[g][i].at <= last - (a - 1) * SLOT)
  }

  lemma SpacedSplits(init: seq<seq<Captured>>, newest: seq<Captured>, age: nat, last: Time)
    requires Spaced(init + [newest], age, last)
    ensures Spaced(init, age + 1, last)
    ensures forall i :: 0 <= i < |newest| ==> last - age * SLOT <= newest[i].at
  {
    var gens := init + [newest];
    assert forall g :: 0 <= g < |init| ==> gens[g] == init[g];
    assert gens[|init|] == newest;
  }

  lemma SpacedOld(gens: seq<seq<Captured>>, age: nat, last: Time)
    requires Spaced(gens, age, last) && age >= 1
    ensures forall g, i :: 0 <= g < |gens| && 0 <= i < |gens[g]| ==> gens[g][i].at <= last - (age - 1) * SLOT
  {
  }

  lemma Unfold(gens: seq<seq<Captured>>, n: nat, now: Time, window: Time)
    ensures gens == [] ==> Flat(gens) == [] && Recent(gens, n) == [] && CountYounger([], now, window) == 0
    ensures n == 0 ==> Recent(gens, n) == []
    ensures gens != [] ==> Flat(gens) == Flat(gens[..|gens| - 1]) + gens[|gens| - 1]
    ensures gens != [] && n > 0 ==> Recent(gens, n) == Recent(gens[..|gens| - 1], n - 1) + gens[|gens| - 1]
  {
  }

  lemma {:induction false} AllOld(gens: seq<seq<Captured>>, last: Time, now: Time, m: nat, window: Time)
    requires m * SLOT >= window && now == last + SLOT && m >= 1
    requires forall g, i :: 0 <= g < |gens| && 0 <= i < |gens[g]| ==> gens[g][i].at <= last - (m - 1) * SLOT
    ensures CountYounger(Flat(gens), now, window) == 0
    decreases |gens|
  {
    if gens != [] {
      var init, newest := gens[..|gens| - 1], gens[|gens| - 1];
      CountConcat(Flat(init), newest, now, window);
      CountBounds(newest, now, window);
      AllOld(init, last, now, m, window);
    }
  }

  /** A rested rule fires when the window holds the threshold, and when it fires, the
      window and one slot do: no alarm is missed, none is more than a slot stale. */
  lemma AlarmsAreTimely(c: Config, start: Time, xs: seq<Input>, now: Time)
    requires Built(c) && c.kind == Threshold && Steady(start, xs + [Tick(now)])
    ensures var w := Run(c, start, xs);
      var event := Ticked(c, w.r, now, LastSeen(w.lastSeen, c.app)).1;
      && (!w.r.disabled && Rested(c, w.r, now) && CountYounger(Flat(w.gens), now, c.window) >= c.threshold
          ==> event.Some?)
      && (event.Some? ==>
          && CountYounger(Flat(w.gens), now, c.window) <= event.value.count
          && c.threshold <= event.value.count <= CountYounger(Flat(w.gens), now, c.window + SLOT))
  {
    hide Run, Sum, Recent, Pruned, Flat, CountYounger;
    var w := Run(c, start, xs);
    assert (xs + [Tick(now)])[..|xs|] == xs;
    RunTimed(c, start, xs);
    TickCounts(c, start, xs);
    if !w.r.disabled {
      WindowError(w.gens, BucketCount(c), LastTick(start, xs), Latest(start, xs), now, c.window);
    }
  }
}
