/** Exactly when a rule fires, read off the inputs of a run. */
module NotifyExactly {
  import opened Common
  import opened Model
  import opened Notify
  import opened NotifyRuns
  import opened NotifySafety

  // ---- what the conditions are about ----

  /** Input `j` is an entry of the rule's application. */
  predicate Heard(c: Config, xs: seq<Input>, j: nat) { j < |xs| && xs[j].Log? && xs[j].e.app == c.app }

  /** At tick `k` the application had been heard within the window. */
  ghost predicate HeardWithin(c: Config, xs: seq<Input>, k: nat)
    requires k < |xs|
  {
    xs[k].Tick? && exists j: nat :: j < k && Heard(c, xs, j) && xs[k].at - xs[j].at < c.window
  }

  ghost function FireCount(c: Config, start: Time, xs: seq<Input>): nat
    requires Built(c)
  {
    if xs == [] then 0
    else FireCount(c, start, xs[..|xs| - 1]) + if FiresAt(c, start, xs, |xs| - 1) then 1 else 0
  }

  /** After `n` fires the rule may fire again. */
  predicate MayFire(c: Config, n: nat) {
    c.maxFires.Some? ==> n < if c.maxFires.value <= 0 then 1 else c.maxFires.value
  }

  /** Every fire so far is at least the cooldown ago. */
  ghost predicate CooledDown(c: Config, start: Time, xs: seq<Input>, now: Time)
    requires Built(c)
  {
    forall i: nat :: FiresAt(c, start, xs, i) ==> now - xs[i].at >= c.cooldown
  }

  /** After every fire so far, some tick found the application heard again. */
  ghost predicate SpokeSince(c: Config, start: Time, xs: seq<Input>)
    requires Built(c)
  {
    forall i: nat :: FiresAt(c, start, xs, i) ==> exists k: nat :: i < k < |xs| && HeardWithin(c, xs, k)
  }

  ghost predicate QuietForWindow(c: Config, xs: seq<Input>, now: Time) {
    && (exists j: nat :: Heard(c, xs, j))
    && forall j: nat :: Heard(c, xs, j) ==> now - xs[j].at >= c.window
  }

  // ---- the same, input by input ----

  function LastHeard(c: Config, xs: seq<Input>): Option<Time> {
    if xs == [] then None
    else if Heard(c, xs, |xs| - 1) then Some(xs[|xs| - 1].at)
    else LastHeard(c, xs[..|xs| - 1])
  }

  lemma {:induction false} LastHeardReads(c: Config, start: Time, xs: seq<Input>)
    requires Monotone(start, xs)
    ensures var t := LastHeard(c, xs);
      && (t.None? <==> forall j: nat :: !Heard(c, xs, j))
      && (t.Some? ==>
          && t.value <= Latest(start, xs)
          && (exists j: nat :: Heard(c, xs, j) && xs[j].at == t.value)
          && (forall j: nat :: Heard(c, xs, j) ==> xs[j].at <= t.value))
  {
    if xs != [] {
      var init, n := xs[..|xs| - 1], |xs| - 1;
      LastHeardReads(c, start, init);
      forall j: nat | j < n ensures Heard(c, init, j) <==> Heard(c, xs, j) && init[j] == xs[j] {}
      hide LastHeard;
      UnfoldHeard(c, xs);
      hide Heard;
      if LastHeard(c, init).Some? && !Heard(c, xs, n) {
        var j: nat :| Heard(c, init, j) && init[j].at == LastHeard(c, init).value;
        HeardInside(c, init, j);
      }
      forall j: nat | Heard(c, xs, j) ensures j == n || Heard(c, init, j) { HeardInside(c, xs, j); }
    }
  }

  lemma UnfoldHeard(c: Config, xs: seq<Input>)
    requires xs != []
    ensures LastHeard(c, xs) == if Heard(c, xs, |xs| - 1) then Some(xs[|xs| - 1].at) else LastHeard(c, xs[..|xs| - 1])
  {
  }

  lemma HeardInside(c: Config, xs: seq<Input>, j: nat)
    ensures Heard(c, xs, j) ==> j < |xs|
  {
  }

  lemma WithinIs(c: Config, start: Time, xs: seq<Input>, k: nat)
    requires Monotone(start, xs) && k < |xs| && xs[k].Tick?
    ensures var t := LastHeard(c, xs[..k]);
      HeardWithin(c, xs, k) <==> t.Some? && xs[k].at - t.value < c.window
  {
    var before := xs[..k];
    MonotonePrefix(start, xs, k);
    LastHeardReads(c, start, before);
    forall j: nat | j < k ensures Heard(c, before, j) <==> Heard(c, xs, j) && before[j] == xs[j] {}
    hide LastHeard, Heard;
    var t := LastHeard(c, before);
    if HeardWithin(c, xs, k) {
      var j: nat :| j < k && Heard(c, xs, j) && xs[k].at - xs[j].at < c.window;
      assert Heard(c, before, j);
    }
    if t.Some? && xs[k].at - t.value < c.window {
      var j: nat :| Heard(c, before, j) && before[j].at == t.value;
      HeardInside(c, before, j);
      assert Heard(c, xs, j);
    }
  }

  lemma {:induction false} HeardInRun(c: Config, start: Time, xs: seq<Input>)
    requires Built(c)
    ensures LastSeen(Run(c, start, xs).lastSeen, c.app) == LastHeard(c, xs)
  {
    if xs != [] {
      HeardInRun(c, start, xs[..|xs| - 1]);
      hide Ticked, Observed;
    }
  }

  lemma FiresEarlier(c: Config, start: Time, xs: seq<Input>, i: nat)
    requires Built(c) && i < |xs| - 1
    ensures FiresAt(c, start, xs, i) <==> FiresAt(c, start, xs[..|xs| - 1], i)
  {
    hide Run;
    var init := xs[..|xs| - 1];
    assert init[..i + 1] == xs[..i + 1] && init[..i] == xs[..i];
  }

  lemma FiresNow(c: Config, start: Time, xs: seq<Input>)
    requires Built(c) && xs != []
    ensures var w := Run(c, start, xs[..|xs| - 1]);
      FiresAt(c, start, xs, |xs| - 1) <==> Step(c, w, xs[|xs| - 1]).fired != w.fired
  {
    hide Step;
    assert xs[..|xs|] == xs;
  }

  /** When the rule last fired. */
  ghost function LastFire(c: Config, start: Time, xs: seq<Input>): Option<Time>
    requires Built(c)
  {
    if xs == [] then None
    else if FiresAt(c, start, xs, |xs| - 1) then Some(xs[|xs| - 1].at)
    else LastFire(c, start, xs[..|xs| - 1])
  }

  lemma {:induction false} LastFireReads(c: Config, start: Time, xs: seq<Input>)
    requires Built(c) && Monotone(start, xs)
    ensures var t := LastFire(c, start, xs);
      && (t.None? <==> forall i: nat :: !FiresAt(c, start, xs, i))
      && (t.Some? ==>
          && t.value <= Latest(start, xs)
          && (exists i: nat :: FiresAt(c, start, xs, i) && xs[i].at == t.value)
          && (forall i: nat :: FiresAt(c, start, xs, i) ==> xs[i].at <= t.value))
  {
    hide Run, FiresAt;
    FiresInside(c, start, xs);
    if xs != [] {
      var init, n := xs[..|xs| - 1], |xs| - 1;
      LastFireReads(c, start, init);
      FiresInside(c, start, init);
      forall i: nat | i < n ensures FiresAt(c, start, init, i) <==> FiresAt(c, start, xs, i) {
        FiresEarlier(c, start, xs, i);
      }
      UnfoldFire(c, start, xs);
      hide LastFire;
      if LastFire(c, start, init).Some? && !FiresAt(c, start, xs, n) {
        var i: nat :| FiresAt(c, start, init, i) && init[i].at == LastFire(c, start, init).value;
        assert FiresAt(c, start, xs, i);
      }
    }
  }

  lemma FiresInside(c: Config, start: Time, xs: seq<Input>)
    requires Built(c)
    ensures forall i: nat :: FiresAt(c, start, xs, i) ==> i < |xs|
  {
    hide Run;
  }

  lemma UnfoldFire(c: Config, start: Time, xs: seq<Input>)
    requires Built(c) && xs != []
    ensures LastFire(c, start, xs)
      == if FiresAt(c, start, xs, |xs| - 1) then Some(xs[|xs| - 1].at) else LastFire(c, start, xs[..|xs| - 1])
  {
    hide FiresAt;
  }

  lemma {:induction false} FiresInRun(c: Config, start: Time, xs: seq<Input>)
    requires Built(c)
    ensures var w := Run(c, start, xs); w.r.lastFired == LastFire(c, start, xs) && |w.fired| == FireCount(c, start, xs)
  {
    if xs != [] {
      var init, x := xs[..|xs| - 1], xs[|xs| - 1];
      FiresInRun(c, start, init);
      FiresNow(c, start, xs);
      var w := Run(c, start, init);
      if x.Tick? { TickedFires(c, w.r, x.at, LastSeen(w.lastSeen, c.app)); }
      hide FiresAt, Ticked;
    }
  }

  /** The conditions on earlier fires, as the state has them. */
  lemma FiresRead(c: Config, start: Time, xs: seq<Input>, now: Time)
    requires Built(c) && Monotone(start, xs)
    ensures var r := Run(c, start, xs).r;
      && (CooledDown(c, start, xs, now) <==> r.lastFired.None? || now - r.lastFired.value >= c.cooldown)
      && (MayFire(c, FireCount(c, start, xs)) <==> !r.disabled)
  {
    FiresInRun(c, start, xs);
    LastFireReads(c, start, xs);
    FiringSafety(c, start, xs);
    hide Run, FiresAt, LastFire, FireCount;
    var t := LastFire(c, start, xs);
    if t.Some? {
      var i: nat :| FiresAt(c, start, xs, i) && xs[i].at == t.value;
    }
  }

  // ---- silence rules ----

  /** It fired, and no tick since found the application heard. */
  ghost function Muted(c: Config, start: Time, xs: seq<Input>): bool
    requires Built(c)
  {
    if xs == [] then false
    else if FiresAt(c, start, xs, |xs| - 1) then true
    else if HeardWithin(c, xs, |xs| - 1) then false
    else Muted(c, start, xs[..|xs| - 1])
  }

  lemma WithinEarlier(c: Config, xs: seq<Input>, k: nat)
    requires k < |xs| - 1
    ensures HeardWithin(c, xs, k) <==> HeardWithin(c, xs[..|xs| - 1], k)
  {
    var init := xs[..|xs| - 1];
    forall j: nat | j < k ensures Heard(c, init, j) <==> Heard(c, xs, j) {}
    hide Heard;
    if j: nat :| j < k && Heard(c, xs, j) && xs[k].at - xs[j].at < c.window {
      assert Heard(c, init, j) && init[j] == xs[j];
    }
    if j: nat :| j < k && Heard(c, init, j) && init[k].at - init[j].at < c.window {
      assert Heard(c, xs, j) && init[j] == xs[j];
    }
  }

  ghost predicate HeardAfter(c: Config, xs: seq<Input>, i: nat) {
    exists k: nat :: i < k < |xs| && HeardWithin(c, xs, k)
  }

  lemma HeardAfterMore(c: Config, xs: seq<Input>, i: nat)
    requires i < |xs| - 1
    ensures HeardAfter(c, xs, i) <==> HeardAfter(c, xs[..|xs| - 1], i) || HeardWithin(c, xs, |xs| - 1)
  {
    var init, n := xs[..|xs| - 1], |xs| - 1;
    forall k: nat | k < n ensures HeardWithin(c, xs, k) <==> HeardWithin(c, init, k) { WithinEarlier(c, xs, k); }
    hide HeardWithin;
    if k: nat :| i < k < |init| && HeardWithin(c, init, k) { assert HeardWithin(c, xs, k); }
    if k: nat :| i < k < |xs| && HeardWithin(c, xs, k) { assert k < n ==> HeardWithin(c, init, k); }
  }

  lemma {:induction false} MutedReads(c: Config, start: Time, xs: seq<Input>)
    requires Built(c)
    ensures Muted(c, start, xs) <==> exists i: nat :: FiresAt(c, start, xs, i) && !HeardAfter(c, xs, i)
  {
    hide Run, FiresAt, HeardAfter, HeardWithin;
    FiresInside(c, start, xs);
    if xs != [] {
      var init, n := xs[..|xs| - 1], |xs| - 1;
      MutedReads(c, start, init);
      FiresInside(c, start, init);
      forall i: nat | i < n
        ensures FiresAt(c, start, init, i) <==> FiresAt(c, start, xs, i)
        ensures HeardAfter(c, xs, i) <==> HeardAfter(c, init, i) || HeardWithin(c, xs, n)
      {
        FiresEarlier(c, start, xs, i);
        HeardAfterMore(c, xs, i);
      }
      NoneAfterEnd(c, xs);
      UnfoldMuted(c, start, xs);
      hide Muted;
      if i: nat :| FiresAt(c, start, init, i) && !HeardAfter(c, init, i) { assert FiresAt(c, start, xs, i); }
      if i: nat :| FiresAt(c, start, xs, i) && !HeardAfter(c, xs, i) { assert i < n ==> FiresAt(c, start, init, i); }
    }
  }

  lemma NoneAfterEnd(c: Config, xs: seq<Input>)
    requires xs != []
    ensures !HeardAfter(c, xs, |xs| - 1)
  {
  }

  lemma UnfoldMuted(c: Config, start: Time, xs: seq<Input>)
    requires Built(c) && xs != []
    ensures var n := |xs| - 1;
      Muted(c, start, xs)
      == (FiresAt(c, start, xs, n) || (!HeardWithin(c, xs, n) && Muted(c, start, xs[..n])))
  {
    hide FiresAt, HeardWithin;
  }

  /** What one tick of a silence rule does to its flag and its fires. */
  lemma SilenceTick(c: Config, w: World, at: Time)
    requires RingOk(c, w.r) && w.gens != [] && c.kind == Silence
    ensures var w', last := Step(c, w, Tick(at)), LastSeen(w.lastSeen, c.app);
      && (w'.fired != w.fired <==>
          && !w.r.disabled && last.Some? && at - last.value >= c.window && !w.r.silenced
          && (w.r.lastFired.None? || at - w.r.lastFired.value >= c.cooldown))
      && (!w.r.disabled ==>
          w'.r.silenced == (w'.fired != w.fired || (last.Some? && at - last.value >= c.window && w.r.silenced)))
      && (w.r.disabled ==> w'.r.disabled)
  {
    hide TickThreshold;
  }

  lemma {:induction false} SilencedIs(c: Config, start: Time, xs: seq<Input>)
    requires Built(c) && c.kind == Silence && Monotone(start, xs)
    ensures var r := Run(c, start, xs).r; !r.disabled ==> r.silenced == Muted(c, start, xs)
    ensures Muted(c, start, xs) ==> LastHeard(c, xs).Some?
  {
    if xs != [] {
      var init, x, n := xs[..|xs| - 1], xs[|xs| - 1], |xs| - 1;
      var w := Run(c, start, init);
      SilencedIs(c, start, init);
      FiresNow(c, start, xs);
      HeardInRun(c, start, init);
      UnfoldMuted(c, start, xs);
      UnfoldHeard(c, xs);
      if x.Tick? {
        SilenceTick(c, w, x.at);
        WithinIs(c, start, xs, n);
      }
      hide Muted, FiresAt, HeardWithin, LastHeard, Ticked;
    }
  }

  /** At any tick of a run with a clock that does not run backwards, a silence rule fires if and
      only if it may fire at all, its application was heard, the last time at least a window
      ago, every fire is at least the cooldown ago, and since each of them some tick found the
      application heard within the window. */
  lemma SilenceFiresExactly(c: Config, start: Time, xs: seq<Input>, now: Time)
    requires Built(c) && c.kind == Silence && Monotone(start, xs + [Tick(now)])
    ensures FiresAt(c, start, xs + [Tick(now)], |xs|) <==>
      && MayFire(c, FireCount(c, start, xs)) && CooledDown(c, start, xs, now)
      && QuietForWindow(c, xs, now) && SpokeSince(c, start, xs)
  {
    var ys := xs + [Tick(now)];
    assert ys[..|xs|] == xs;
    var w := Run(c, start, xs);
    FiresNow(c, start, ys);
    SilenceTick(c, w, now);
    FiresRead(c, start, xs, now);
    HeardInRun(c, start, xs);
    LastHeardReads(c, start, xs);
    SilencedIs(c, start, xs);
    MutedReads(c, start, xs);
    hide Run, Step, FiresAt, FireCount, CooledDown, MayFire, LastHeard, Muted, Heard, HeardWithin;
    QuietIs(c, start, xs, now);
    assert SpokeSince(c, start, xs) <==> !exists i: nat :: FiresAt(c, start, xs, i) && !HeardAfter(c, xs, i);
  }

  lemma QuietIs(c: Config, start: Time, xs: seq<Input>, now: Time)
    requires Monotone(start, xs)
    ensures var t := LastHeard(c, xs); QuietForWindow(c, xs, now) <==> t.Some? && now - t.value >= c.window
  {
    LastHeardReads(c, start, xs);
    hide LastHeard, Heard;
  }

  // ---- threshold rules ----

  /** The position after the `n`-th tick from the end. */
  function AfterTicks(xs: seq<Input>, n: nat): (p: nat)
    requires n > 0
    ensures p <= |xs|
  {
    if xs == [] then 0
    else if xs[|xs| - 1].Log? then AfterTicks(xs[..|xs| - 1], n)
    else if n == 1 then |xs|
    else AfterTicks(xs[..|xs| - 1], n - 1)
  }

  function Later(a: nat, b: nat): nat { if a >= b then a else b }

  /** The entries that satisfy the rule, of the `n` newest intervals between ticks and since the
      last fire. */
  function Counting(c: Config, start: Time, xs: seq<Input>, n: nat): seq<Captured>
    requires Built(c) && n > 0
  {
    Matching(c, xs[Later(AfterTicks(xs, n), SinceFire(c, start, xs))..])
  }

  lemma RecentNoted(gens: seq<seq<Captured>>, n: nat, m: Captured)
    requires gens != [] && n > 0
    ensures Recent(Noted(gens, m), n) == Recent(gens, n) + [m]
  {
    assert Noted(gens, m)[..|gens| - 1] == gens[..|gens| - 1];
  }

  lemma RecentTicked(gens: seq<seq<Captured>>, n: nat)
    requires n > 0
    ensures Recent(gens + [[]], n) == Recent(gens, n - 1) && Recent([[]], n) == []
  {
    assert (gens + [[]])[..|gens|] == gens && Recent(gens, n - 1) + [] == Recent(gens, n - 1);
    var one: seq<seq<Captured>> := [[]];
    assert one[..0] == [];
  }

  lemma CountingLogged(c: Config, start: Time, xs: seq<Input>, n: nat)
    requires Built(c) && n > 0 && xs != [] && xs[|xs| - 1].Log?
    ensures var x := xs[|xs| - 1];
      Counting(c, start, xs, n) == Counting(c, start, xs[..|xs| - 1], n)
        + if Matches(c, x.e) then [Captured(x.e, x.at)] else []
  {
    var init := xs[..|xs| - 1];
    assert SinceFire(c, start, xs) == SinceFire(c, start, init);
    MatchingMore(c, xs, Later(AfterTicks(init, n), SinceFire(c, start, init)));
    hide Run, Matching, SinceFire;
  }

  lemma CountingTicked(c: Config, start: Time, xs: seq<Input>, n: nat)
    requires Built(c) && n > 0 && xs != [] && xs[|xs| - 1].Tick?
    ensures var init := xs[..|xs| - 1];
      Counting(c, start, xs, n)
      == if |Run(c, start, xs).fired| > |Run(c, start, init).fired| || n == 1 then []
         else Counting(c, start, init, n - 1)
  {
    var init, x := xs[..|xs| - 1], xs[|xs| - 1];
    NoneMatching(c);
    assert xs[|xs|..] == [];
    hide Run;
    if |Run(c, start, xs).fired| <= |Run(c, start, init).fired| && n > 1 {
      var p := Later(AfterTicks(init, n - 1), SinceFire(c, start, init));
      MatchingMore(c, xs, p);
      assert Matching(c, init[p..]) + [] == Matching(c, init[p..]);
    }
  }

  lemma {:induction false} RecentIsCounting(c: Config, start: Time, xs: seq<Input>, n: nat)
    requires Built(c) && c.kind == Threshold && n > 0 && !Run(c, start, xs).r.disabled
    ensures Recent(Run(c, start, xs).gens, n) == Counting(c, start, xs, n)
  {
    hide Recent, Counting, Step;
    if xs == [] {
      CountingNothing(c, start, n);
      RecentTicked([[]], n);
    } else {
      var init, x := xs[..|xs| - 1], xs[|xs| - 1];
      var w := Run(c, start, init);
      StepGens(c, w, x);
      RecentIsCounting(c, start, init, n);
      if x.Log? {
        CountingLogged(c, start, xs, n);
        RecentNoted(w.gens, n, Captured(x.e, x.at));
        assert Counting(c, start, init, n) + [] == Counting(c, start, init, n);
      } else {
        CountingTicked(c, start, xs, n);
        RecentTicked(w.gens, n);
        if n > 1 { RecentIsCounting(c, start, init, n - 1); } else { RecentNone(w.gens); }
      }
    }
  }

  lemma CountingNothing(c: Config, start: Time, n: nat)
    requires Built(c) && n > 0
    ensures Counting(c, start, [], n) == []
  {
    var none: seq<Input> := [];
    assert none[0..] == [];
  }

  /** The history after one input to a rule that is not retired. */
  lemma StepGens(c: Config, w: World, x: Input)
    requires RingOk(c, w.r) && w.gens != [] && c.kind == Threshold && !Step(c, w, x).r.disabled
    ensures var w' := Step(c, w, x);
      && !w.r.disabled
      && match x
        case Log(e, at) => w'.gens == if Matches(c, e) then Noted(w.gens, Captured(e, at)) else w.gens
        case Tick(_) => w'.gens == if |w'.fired| > |w.fired| then [[]] else w.gens + [[]]
  {
    DisabledStays(c, w, x);
    hide TickThreshold;
  }

  lemma RecentNone(gens: seq<seq<Captured>>)
    ensures Recent(gens, 0) == []
  {
  }

  /** What one tick of a threshold rule does to its fires. */
  lemma ThresholdTick(c: Config, w: World, at: Time)
    requires RingOk(c, w.r) && w.gens != [] && c.kind == Threshold
    ensures var w' := Step(c, w, Tick(at));
      && (w'.fired != w.fired <==>
          && !w.r.disabled && Sum(w.r.buckets) >= c.threshold
          && (w.r.lastFired.None? || at - w.r.lastFired.value >= c.cooldown))
      && (w'.fired != w.fired ==>
          |w'.fired| == |w.fired| + 1 && w'.fired[|w.fired|].count == Sum(w.r.buckets) && w'.fired[|w.fired|].ts == at)
  {
    hide Sum, Pruned, Entries;
  }

  /** At any tick of such a run, a threshold rule fires if and only if it may fire at all, every
      fire is at least the cooldown ago, and the matches since the last fire, in the newest
      intervals that cover the window, reach the threshold; the event counts them. */
  lemma ThresholdFiresExactly(c: Config, start: Time, xs: seq<Input>, now: Time)
    requires Built(c) && c.kind == Threshold && Monotone(start, xs + [Tick(now)])
    ensures FiresAt(c, start, xs + [Tick(now)], |xs|) <==>
      && MayFire(c, FireCount(c, start, xs)) && CooledDown(c, start, xs, now)
      && |Counting(c, start, xs, BucketCount(c))| >= c.threshold
    ensures var before, after := Run(c, start, xs).fired, Run(c, start, xs + [Tick(now)]).fired;
      FiresAt(c, start, xs + [Tick(now)], |xs|) ==>
        |after| == |before| + 1 && after[|before|].ts == now
        && after[|before|].count == |Counting(c, start, xs, BucketCount(c))|
  {
    var ys := xs + [Tick(now)];
    assert ys[..|xs|] == xs;
    FiresNow(c, start, ys);
    ThresholdTick(c, Run(c, start, xs), now);
    FiresRead(c, start, xs, now);
    TickCounts(c, start, xs);
    if !Run(c, start, xs).r.disabled { RecentIsCounting(c, start, xs, BucketCount(c)); }
    hide Step, FiresAt, FireCount, CooledDown, MayFire, Counting, Sum, Recent;
  }

  /** The intervals of ten seconds that cover the window, and no more of them than it takes. */
  lemma IntervalsCover(c: Config)
    requires Built(c)
    ensures var n, slot := BucketCount(c), 10_000_000_000; (n - 1) * slot < c.window <= n * slot
  {
  }
}
