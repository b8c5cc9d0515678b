/** Whole runs again: the entries an event carries, and when fires may happen. */
module NotifySafety {
  import opened Common
  import opened Model
  import opened Notify
  import opened NotifyRuns

  // ---- captured entries ----

  ghost predicate Sorted(ms: seq<Captured>) {
    forall i, j :: 0 <= i < j < |ms| ==> ms[i].at <= ms[j].at
  }

  /** The matches that arrived at `cut` or later, in order. */
  function Within(ms: seq<Captured>, cut: Time): seq<Captured> {
    if ms == [] then []
    else (if ms[0].at >= cut then [ms[0]] else []) + Within(ms[1..], cut)
  }

  function Newest(n: nat, ms: seq<Captured>): seq<Captured> {
    if |ms| <= n then ms else ms[|ms| - n..]
  }

  /** How many matches at the front are older than `cut`. */
  function Stale(ms: seq<Captured>, cut: Time): (n: nat)
    ensures n <= |ms|
  {
    if ms == [] || ms[0].at >= cut then 0 else 1 + Stale(ms[1..], cut)
  }

  function Max(a: int, b: int): int { if a < b then b else a }

  /** Where the kept entries start: after the stale ones and before the newest fifty. */
  function KeptFrom(ms: seq<Captured>, cut: Time): (n: nat)
    ensures n <= |ms|
  {
    Max(|ms| - MAX_CAPTURED, Stale(ms, cut))
  }

  lemma {:induction false} StaleSplits(ms: seq<Captured>, cut: Time)
    requires Sorted(ms)
    ensures var n := Stale(ms, cut);
      (forall i :: 0 <= i < n ==> ms[i].at < cut) && (forall i :: n <= i < |ms| ==> ms[i].at >= cut)
    decreases |ms|
  {
    if ms != [] && ms[0].at < cut {
      StaleSplits(ms[1..], cut);
      forall i | 0 <= i < |ms| ensures i < Stale(ms, cut) ==> ms[i].at < cut
                               ensures Stale(ms, cut) <= i ==> ms[i].at >= cut
      {
        if i > 0 { assert ms[i] == ms[1..][i - 1]; }
      }
    }
  }

  lemma {:induction false} StaleUnique(ms: seq<Captured>, cut: Time, n: nat)
    requires n <= |ms| && (forall i :: 0 <= i < n ==> ms[i].at < cut) && (n < |ms| ==> ms[n].at >= cut)
    ensures Stale(ms, cut) == n
    decreases |ms|
  {
    if n > 0 {
      StaleUnique(ms[1..], cut, n - 1);
    }
  }

  lemma {:induction false} WithinSorted(ms: seq<Captured>, cut: Time)
    requires Sorted(ms)
    ensures Within(ms, cut) == ms[Stale(ms, cut)..]
    decreases |ms|
  {
    if ms != [] {
      WithinSorted(ms[1..], cut);
      if ms[0].at >= cut {
        StaleUnique(ms[1..], cut, 0);
        assert ms == [ms[0]] + ms[1..];
      }
    }
  }

  lemma {:induction false} PrunedIs(ms: seq<Captured>, cut: Time)
    ensures Pruned(ms, cut) == ms[Stale(ms, cut)..]
    decreases |ms|
  {
    if ms != [] && ms[0].at < cut { PrunedIs(ms[1..], cut); }
  }

  lemma {:induction false} StaleMonotone(ms: seq<Captured>, cut: Time, cut': Time)
    requires cut <= cut'
    ensures Stale(ms, cut) <= Stale(ms, cut')
    decreases |ms|
  {
    if ms != [] { StaleMonotone(ms[1..], cut, cut'); }
  }

  /** `entries` are what is kept of the matches `ms`, the newest at `latest`. */
  ghost predicate Kept(ms: seq<Captured>, entries: seq<Captured>, cut: Time, latest: Time) {
    && Sorted(ms) && cut <= latest
    && (forall i :: 0 <= i < |ms| ==> ms[i].at <= latest)
    && entries == ms[KeptFrom(ms, cut)..]
  }

  lemma StaleDropped(ms: seq<Captured>, from: nat, cut: Time)
    requires Sorted(ms) && from <= |ms|
    ensures Stale(ms[from..], cut) == Max(Stale(ms, cut) - from, 0)
  {
    StaleSplits(ms, cut);
    hide Stale;
    var k := Max(Stale(ms, cut) - from, 0);
    assert forall i :: 0 <= i < |ms| - from ==> ms[from..][i] == ms[from + i];
    StaleUnique(ms[from..], cut, k);
  }

  /** Pruning what was kept is keeping with the later cut. */
  lemma KeptPruned(ms: seq<Captured>, entries: seq<Captured>, cut: Time, latest: Time, cut': Time, latest': Time)
    requires Kept(ms, entries, cut, latest) && cut <= cut' <= latest' && latest <= latest'
    ensures Kept(ms, Pruned(entries, cut'), cut', latest')
  {
    hide Stale, Pruned, Sorted;
    var from := KeptFrom(ms, cut);
    StaleMonotone(ms, cut, cut');
    StaleDropped(ms, from, cut');
    PrunedIs(entries, cut');
    var k := Max(Stale(ms, cut') - from, 0);
    DropTwice(ms, from, k);
    assert KeptFrom(ms, cut') == from + k;
  }

  lemma DropTwice(ms: seq<Captured>, a: nat, b: nat)
    requires a + b <= |ms|
    ensures ms[a..][b..] == ms[a + b..]
  {
  }

  lemma KeptAppended(ms: seq<Captured>, entries: seq<Captured>, cut: Time, latest: Time, m: Captured)
    requires Kept(ms, entries, cut, latest) && latest <= m.at
    ensures Kept(ms + [m], (if |entries| == MAX_CAPTURED then entries[1..] else entries) + [m], cut, m.at)
  {
    var n, from := Stale(ms, cut), KeptFrom(ms, cut);
    StaleSplits(ms, cut);
    StaleUnique(ms + [m], cut, n);
    hide Stale;
    var dropped := if |entries| == MAX_CAPTURED then 1 else 0;
    assert KeptFrom(ms + [m], cut) == from + dropped;
    assert (ms + [m])[from + dropped..] == ms[from..][dropped..] + [m];
  }

  ghost predicate Keeps(c: Config, w: World, latest: Time) {
    !w.r.disabled ==> Kept(Flat(w.gens), w.r.entries, w.lastTick - c.window, latest)
  }

  lemma KeepsObserved(c: Config, w: World, latest: Time, e: Entry, at: Time)
    requires Built(c) && RingOk(c, w.r) && w.gens != [] && Keeps(c, w, latest) && latest <= at
    ensures Keeps(c, Step(c, w, Log(e, at)), at)
  {
    hide Kept, Flat;
    if Observes(c, w.r, e) {
      FlatNoted(w.gens, Captured(e, at));
      KeptAppended(Flat(w.gens), w.r.entries, w.lastTick - c.window, latest, Captured(e, at));
    } else if !w.r.disabled {
      KeptLater(Flat(w.gens), w.r.entries, w.lastTick - c.window, latest, at);
    }
  }

  lemma KeptLater(ms: seq<Captured>, entries: seq<Captured>, cut: Time, latest: Time, latest': Time)
    requires Kept(ms, entries, cut, latest) && latest <= latest'
    ensures Kept(ms, entries, cut, latest')
  {
    hide KeptFrom;
  }

  lemma KeepsTicked(c: Config, w: World, latest: Time, at: Time)
    requires Built(c) && RingOk(c, w.r) && w.gens != [] && Keeps(c, w, latest)
    requires w.lastTick <= latest <= at && (c.kind == Silence ==> Flat(w.gens) == [])
    ensures Keeps(c, Step(c, w, Tick(at)), at)
  {
    hide Step, Kept, Flat, RingOk, TickKeeps;
    TickLeaves(c, w, at);
    var w' := Step(c, w, Tick(at));
    if !w.r.disabled {
      KeptTicked(c.kind == Silence, Flat(w.gens), w.r.entries, w.lastTick - c.window, latest, at - c.window, at,
                 Flat(w'.gens), w'.r.entries);
    }
  }

  lemma KeptTicked(silence: bool, ms: seq<Captured>, entries: seq<Captured>, cut: Time, latest: Time, cut': Time,
      at: Time, ms': seq<Captured>, entries': seq<Captured>)
    requires Kept(ms, entries, cut, latest) && cut <= cut' <= at && latest <= at
    requires TickKeeps(silence, ms, entries, cut', ms', entries') && (silence ==> ms == [])
    ensures Kept(ms', entries', cut', at)
  {
    hide Kept, Pruned;
    KeptNone(cut', at);
    KeptPruned(ms, entries, cut, latest, cut', at);
    if silence { NoneKept(ms, entries, cut, latest); }
  }

  ghost predicate TickKeeps(silence: bool, ms: seq<Captured>, entries: seq<Captured>, cut: Time, ms': seq<Captured>,
      entries': seq<Captured>)
  {
    if silence then (ms' == [] || ms' == ms) && entries' == entries
    else (ms' == [] && entries' == []) || (ms' == ms && entries' == Pruned(entries, cut))
  }

  /** What a tick leaves of the history and of the captured entries. */
  lemma TickLeaves(c: Config, w: World, at: Time)
    requires Built(c) && RingOk(c, w.r) && w.gens != []
    ensures var w' := Step(c, w, Tick(at));
      && w'.lastTick == at && (w.r.disabled ==> w'.r.disabled)
      && (!w.r.disabled ==>
          TickKeeps(c.kind == Silence, Flat(w.gens), w.r.entries, at - c.window, Flat(w'.gens), w'.r.entries))
  {
    hide Flat, Pruned, Entries, TickThreshold, TickSilence, RingOk;
    FlatTicked(w.gens);
    FlatNone();
    if c.kind == Silence {
      SilenceKeepsEntries(c, w.r, at, LastSeen(w.lastSeen, c.app));
    } else {
      TickEntries(c, w.r, at);
    }
  }

  lemma NoneKept(ms: seq<Captured>, entries: seq<Captured>, cut: Time, latest: Time)
    requires Kept(ms, entries, cut, latest) && ms == []
    ensures entries == []
  {
  }

  lemma TickEntries(c: Config, r: RuleState, at: Time)
    requires RingOk(c, r) && c.kind == Threshold
    ensures var (r', event) := TickThreshold(c, r, at);
      if event.Some? then r'.entries == [] && event.value.entries == Entries(Pruned(r.entries, at - c.window))
      else r'.entries == Pruned(r.entries, at - c.window)
  {
    hide Sum, Pruned, Entries;
  }

  lemma KeptNone(cut: Time, latest: Time)
    requires cut <= latest
    ensures Kept([], [], cut, latest)
  {
  }

  lemma SilenceKeepsEntries(c: Config, r: RuleState, at: Time, last: Option<Time>)
    ensures TickSilence(c, r, at, last).0.entries == r.entries
  {
  }

  lemma {:induction false} SilenceNotesNothing(c: Config, start: Time, xs: seq<Input>)
    requires Built(c) && c.kind == Silence
    ensures Flat(Run(c, start, xs).gens) == []
  {
    FlatNone();
    if xs != [] {
      SilenceNotesNothing(c, start, xs[..|xs| - 1]);
      FlatTicked(Run(c, start, xs[..|xs| - 1]).gens);
      hide Flat, Ticked, Observed;
    }
  }

  lemma {:induction false} RunKeeps(c: Config, start: Time, xs: seq<Input>)
    requires Built(c) && Monotone(start, xs)
    ensures Keeps(c, Run(c, start, xs), Latest(start, xs))
    ensures Run(c, start, xs).lastTick <= Latest(start, xs)
  {
    if xs == [] {
      FlatNone();
      KeptNone(start - c.window, start);
    } else {
      var init, x := xs[..|xs| - 1], xs[|xs| - 1];
      var w := Run(c, start, init);
      RunKeeps(c, start, init);
      if c.kind == Silence { SilenceNotesNothing(c, start, init); }
      hide Keeps, Ticked, Observed;
      match x {
        case Log(e, at) => KeepsObserved(c, w, Latest(start, init), e, at);
        case Tick(at) => KeepsTicked(c, w, Latest(start, init), at);
      }
    }
  }

  /** An event carries exactly the newest fifty of the matches since the last fire that
      are still within the window, oldest first. */
  lemma EventsCarryNewest(c: Config, start: Time, xs: seq<Input>, now: Time)
    requires Built(c) && c.kind == Threshold && Monotone(start, xs + [Tick(now)])
    ensures var w := Run(c, start, xs);
      var event := Ticked(c, w.r, now, LastSeen(w.lastSeen, c.app)).1;
      event.Some? ==> event.value.entries == Entries(Newest(50, Within(Flat(w.gens), now - c.window)))
  {
    hide Flat, Pruned, TickThreshold, Run, Within, Kept, Entries, Newest, KeptFrom;
    var w := Run(c, start, xs);
    assert (xs + [Tick(now)])[..|xs|] == xs;
    RunKeeps(c, start, xs);
    if !w.r.disabled {
      var ms, cut := Flat(w.gens), now - c.window;
      KeptPruned(ms, w.r.entries, w.lastTick - c.window, Latest(start, xs), cut, now);
      KeptNewest(ms, Pruned(w.r.entries, cut), cut, now);
      TickEntries(c, w.r, now);
    }
  }

  lemma KeptNewest(ms: seq<Captured>, entries: seq<Captured>, cut: Time, latest: Time)
    requires Kept(ms, entries, cut, latest)
    ensures entries == Newest(MAX_CAPTURED, Within(ms, cut))
  {
    WithinSorted(ms, cut);
    NewestOfTail(ms, Stale(ms, cut));
    hide Within, Stale, Sorted;
  }

  lemma NewestOfTail(ms: seq<Captured>, n: nat)
    requires n <= |ms|
    ensures ms[Max(|ms| - MAX_CAPTURED, n)..] == Newest(MAX_CAPTURED, ms[n..])
  {
  }

  // ---- how often a rule fires ----

  /** Successive fires are at least the cooldown apart, and there are never more than
      `max_fires` allows, whatever the clock does. */
  lemma {:induction false} FiringSafety(c: Config, start: Time, xs: seq<Input>)
    requires Built(c)
    ensures Counted(c, Run(c, start, xs))
  {
    if xs != [] {
      FiringSafety(c, start, xs[..|xs| - 1]);
      CountedStep(c, Run(c, start, xs[..|xs| - 1]), xs[|xs| - 1]);
      hide Step, Counted;
    }
  }

  ghost predicate Counted(c: Config, w: World) {
    && (forall i :: 0 < i < |w.fired| ==> w.fired[i].ts - w.fired[i - 1].ts >= c.cooldown)
    && w.r.fires == |w.fired| && (Allowed(c) >= 0 ==> |w.fired| <= Allowed(c))
    && (w.r.disabled <==> 0 <= Allowed(c) <= |w.fired|)
    && w.r.lastFired == if w.fired == [] then None else Some(w.fired[|w.fired| - 1].ts)
  }

  /** Either nothing about fires changes, or one more happens that was due. */
  lemma TickedFires(c: Config, r: RuleState, now: Time, last: Option<Time>)
    requires RingOk(c, r)
    ensures var (r', event) := Ticked(c, r, now, last);
      if event.None? then r'.fires == r.fires && r'.disabled == r.disabled && r'.lastFired == r.lastFired
      else
        && !r.disabled && Rested(c, r, now) && event.value.ts == now && r'.lastFired == Some(now)
        && r'.fires == r.fires + 1 && r'.disabled == (Allowed(c) >= 0 && r.fires + 1 >= Allowed(c))
  {
    hide Sum, Pruned, Entries, Allowed;
  }

  lemma CountedStep(c: Config, w: World, x: Input)
    requires RingOk(c, w.r) && w.gens != [] && Counted(c, w)
    ensures Counted(c, Step(c, w, x))
  {
    hide Ticked, Allowed;
    if x.Tick? { TickedFires(c, w.r, x.at, LastSeen(w.lastSeen, c.app)); }
  }

  // ---- a silence rule speaks once per silence ----

  ghost predicate FiresAt(c: Config, start: Time, xs: seq<Input>, i: nat)
    requires Built(c)
  {
    i < |xs| && Run(c, start, xs[..i + 1]).fired != Run(c, start, xs[..i]).fired
  }

  ghost predicate HeardBetween(c: Config, xs: seq<Input>, i: nat, j: nat) {
    exists k :: i < k < j && k < |xs| && xs[k].Log? && xs[k].e.app == c.app
  }

  /** A silence rule, told at `latest` that its application has been quiet for long. */
  ghost predicate Quiet(c: Config, w: World, latest: Time) {
    w.r.silenced && c.app in w.lastSeen && latest - w.lastSeen[c.app] >= c.window
  }

  lemma FireQuiets(c: Config, w: World, x: Input)
    requires RingOk(c, w.r) && w.gens != [] && c.kind == Silence && Step(c, w, x).fired != w.fired
    ensures x.Tick? && Quiet(c, Step(c, w, x), x.at)
  {
    hide TickThreshold;
  }

  lemma QuietStays(c: Config, w: World, x: Input, latest: Time)
    requires RingOk(c, w.r) && w.gens != [] && c.kind == Silence && Quiet(c, w, latest) && latest <= x.at
    requires x.Log? ==> x.e.app != c.app
    ensures Quiet(c, Step(c, w, x), x.at) && Step(c, w, x).fired == w.fired
  {
    hide TickThreshold;
  }

  /** From a fire on, until the application is heard again, the rule stays silenced. */
  lemma {:induction false} StaysSilenced(c: Config, start: Time, xs: seq<Input>, i: nat, j: nat)
    requires Built(c) && c.kind == Silence && Monotone(start, xs) && FiresAt(c, start, xs, i) && i < j <= |xs|
    requires !HeardBetween(c, xs, i, j)
    ensures Quiet(c, Run(c, start, xs[..j]), Latest(start, xs[..j]))
    ensures Run(c, start, xs[..j]).fired == Run(c, start, xs[..i + 1]).fired
    decreases j
  {
    hide Step, Quiet;
    var w, x := Run(c, start, xs[..j - 1]), xs[j - 1];
    assert xs[..j][..j - 1] == xs[..j - 1] && xs[..j][j - 1] == x;
    if j == i + 1 {
      FireQuiets(c, w, x);
    } else {
      assert !HeardBetween(c, xs, i, j - 1);
      StaysSilenced(c, start, xs, i, j - 1);
      MonotonePrefix(start, xs, j);
      assert x.Log? ==> x.e.app != c.app;
      QuietStays(c, w, x, Latest(start, xs[..j - 1]));
    }
  }

  lemma {:induction false} MonotonePrefix(start: Time, xs: seq<Input>, j: nat)
    requires Monotone(start, xs) && j <= |xs|
    ensures Monotone(start, xs[..j])
    decreases |xs|
  {
    if j < |xs| {
      assert xs[..|xs| - 1][..j] == xs[..j];
      MonotonePrefix(start, xs[..|xs| - 1], j);
    } else {
      assert xs[..j] == xs;
    }
  }

  /** Between two fires of a silence rule its application logged at least once. */
  lemma SilenceHeardBetweenFires(c: Config, start: Time, xs: seq<Input>, i: nat, j: nat)
    requires Built(c) && c.kind == Silence && Monotone(start, xs)
    requires i < j && FiresAt(c, start, xs, i) && FiresAt(c, start, xs, j)
    ensures HeardBetween(c, xs, i, j)
  {
    if !HeardBetween(c, xs, i, j) {
      assert xs[..j + 1][..j] == xs[..j] && xs[..j + 1][j] == xs[j];
      FireQuiets(c, Run(c, start, xs[..j]), xs[j]);
      HeardLater(c, xs, i, j);
      hide Step, Run, Quiet;
      StaysSilenced(c, start, xs, i, j + 1);
      StaysSilenced(c, start, xs, i, j);
    }
  }

  lemma HeardLater(c: Config, xs: seq<Input>, i: nat, j: nat)
    requires i < j < |xs| && xs[j].Tick? && !HeardBetween(c, xs, i, j)
    ensures !HeardBetween(c, xs, i, j + 1)
  {
  }
}
