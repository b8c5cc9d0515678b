/** Runs of the write batcher, read off what happened: which entries were taken and received,
    and where the batches are cut. */
module BatcherRuns {
  import opened Model
  import opened Batcher

  // ---- what was taken, received and cut, from the events alone ----

  ghost predicate Closed(xs: seq<Event>) { exists i :: 0 <= i < |xs| && xs[i].Close? }

  /** The entries that found room, before Close, in a queue of four batches. */
  ghost function Taken(c: Settings, xs: seq<Event>): (t: seq<Entry>)
    decreases |xs|, 0
  {
    if xs == [] then []
    else
      var init, x := xs[..|xs| - 1], xs[|xs| - 1];
      Taken(c, init)
      + if x.Offer? && !Closed(init) && |Taken(c, init)| - Got(c, init) < 4 * c.size then [x.e] else []
  }

  /** How many of them the loop has received. */
  ghost function Got(c: Settings, xs: seq<Event>): nat
    decreases |xs|, 1
  {
    if xs == [] then 0 else Got(c, xs[..|xs| - 1]) + if Receives(c, xs) then 1 else 0
  }

  /** The last event receives an entry. */
  ghost predicate Receives(c: Settings, xs: seq<Event>)
    requires xs != []
    decreases |xs|, 0
  {
    xs[|xs| - 1].Receive? && Got(c, xs[..|xs| - 1]) < |Taken(c, xs[..|xs| - 1])|
  }

  /** The last event finds the channel closed and empty. */
  ghost predicate FindsEnd(c: Settings, xs: seq<Event>)
    requires xs != []
  {
    xs[|xs| - 1].Receive? && !Receives(c, xs) && Closed(xs[..|xs| - 1])
  }

  /** How many have been received since the last cut: a batch is cut when it is full, at every
      tick, and at the end. */
  ghost function Pending(c: Settings, xs: seq<Event>): nat
    decreases |xs|, 1
  {
    if xs == [] then 0
    else
      var p := Pending(c, xs[..|xs| - 1]);
      if Cuts(c, xs) then 0 else if Receives(c, xs) then p + 1 else p
  }

  ghost predicate Cuts(c: Settings, xs: seq<Event>)
    requires xs != []
    decreases |xs|, 0
  {
    xs[|xs| - 1].Tick? || FindsEnd(c, xs) || (Receives(c, xs) && Pending(c, xs[..|xs| - 1]) + 1 == c.size)
  }

  ghost predicate Ended(c: Settings, xs: seq<Event>) { exists n :: 0 < n <= |xs| && FindsEnd(c, xs[..n]) }

  /** One of the attempts allowed succeeds. */
  ghost predicate Succeeds(c: Settings, ok: Attempts) { exists i: nat :: 1 <= i <= c.maxRetries && ok(i) }

  /** How many entries the last event cuts off. */
  ghost function CutSize(c: Settings, xs: seq<Event>): nat
    requires xs != []
  {
    if Cuts(c, xs) then Pending(c, xs[..|xs| - 1]) + if Receives(c, xs) then 1 else 0 else 0
  }

  // ---- the batcher does just that ----

  /** Of the entries `t`, `g` were received, the last `p` of them since the last cut. */
  ghost predicate Holds(c: Settings, s: State, t: seq<Entry>, g: nat, p: nat, closed: bool, ended: bool) {
    && p <= g <= |t| && p < c.size && (ended ==> p == 0 && g == |t| && closed)
    && All(s.flushes) == t[..g - p] && s.batch == t[g - p..g] && s.queue == t[g..]
    && s.closed == closed && s.done == ended
  }

  ghost predicate Reads(c: Settings, xs: seq<Event>)
    requires Sensible(c)
  {
    Holds(c, Run(c, xs), Taken(c, xs), Got(c, xs), Pending(c, xs), Closed(xs), Ended(c, xs))
  }

  /** The last event flushes what it cuts off, inserted exactly if an attempt succeeds. */
  ghost predicate FlushesCut(c: Settings, xs: seq<Event>)
    requires Sensible(c) && xs != []
  {
    var n, g := CutSize(c, xs), Got(c, xs);
    var before, after := Run(c, xs[..|xs| - 1]).flushes, Run(c, xs).flushes;
    n <= g <= |Taken(c, xs)| &&
    after == before + if n == 0 then [] else [Flush(Taken(c, xs)[g - n..g], Succeeds(c, xs[|xs| - 1].ok))]
  }

  lemma {:induction false} EndsExactly(ok: Attempts, from: nat, max: nat)
    requires from <= max
    ensures ok(Ends(ok, from, max)) <==> exists i: nat :: from <= i <= max && ok(i)
    decreases max - from
  {
    var n := Ends(ok, from, max);
    if from < max && !ok(from) {
      EndsExactly(ok, from + 1, max);
      assert forall i: nat :: from <= i <= max && ok(i) ==> from + 1 <= i;
    }
  }

  lemma FlushedReads(c: Settings, s: State, ok: Attempts)
    requires Sensible(c)
    ensures var r := Flushed(c, s, ok);
      && r == s.(batch := [], flushes := r.flushes)
      && r.flushes == s.flushes + (if s.batch == [] then [] else [Flush(s.batch, Succeeds(c, ok))])
      && All(r.flushes) == All(s.flushes) + s.batch
  {
    EndsExactly(ok, 1, c.maxRetries);
    hide Ends;
    assert s.flushes + [] == s.flushes && All(s.flushes) + [] == All(s.flushes);
    var f := Flush(s.batch, Succeeds(c, ok));
    assert (s.flushes + [f])[..|s.flushes|] == s.flushes;
  }

  lemma ClosedMore(xs: seq<Event>)
    requires xs != []
    ensures Closed(xs) <==> Closed(xs[..|xs| - 1]) || xs[|xs| - 1].Close?
  {
    var init, n := xs[..|xs| - 1], |xs| - 1;
    if i :| 0 <= i < |xs| && xs[i].Close? { assert i < n ==> init[i].Close?; }
    if i :| 0 <= i < n && init[i].Close? { assert xs[i].Close?; }
    assert xs[n].Close? ==> Closed(xs);
  }

  lemma EndedMore(c: Settings, xs: seq<Event>)
    requires xs != []
    ensures Ended(c, xs) <==> Ended(c, xs[..|xs| - 1]) || FindsEnd(c, xs)
  {
    hide FindsEnd;
    var init := xs[..|xs| - 1];
    assert xs[..|xs|] == xs;
    forall n | 0 < n <= |init| ensures init[..n] == xs[..n] {}
    if n :| 0 < n <= |xs| && FindsEnd(c, xs[..n]) { assert n < |xs| ==> FindsEnd(c, init[..n]); }
    if n :| 0 < n <= |init| && FindsEnd(c, init[..n]) { assert FindsEnd(c, xs[..n]); }
  }

  lemma OfferHolds(c: Settings, s: State, t: seq<Entry>, g: nat, p: nat, closed: bool, ended: bool, e: Entry)
    requires Sensible(c) && Holds(c, s, t, g, p, closed, ended)
    ensures var room := !closed && |t| - g < 4 * c.size;
      var r := Next(c, s, Offer(e));
      Holds(c, r, t + (if room then [e] else []), g, p, closed, ended) && r.flushes == s.flushes
  {
    hide All;
    var more := t + [e];
    assert more[..g - p] == t[..g - p] && more[g - p..g] == t[g - p..g] && more[g..] == t[g..] + [e];
    assert t + [] == t;
  }

  lemma CloseHolds(c: Settings, s: State, t: seq<Entry>, g: nat, p: nat, closed: bool, ended: bool)
    requires Sensible(c) && Holds(c, s, t, g, p, closed, ended)
    ensures var r := Next(c, s, Close); Holds(c, r, t, g, p, true, ended) && r.flushes == s.flushes
  {
    hide All;
  }

  /** Everything received is flushed. */
  lemma FlushHolds(c: Settings, s: State, t: seq<Entry>, g: nat, p: nat, ok: Attempts)
    requires Sensible(c) && p <= g <= |t|
    requires All(s.flushes) == t[..g - p] && s.batch == t[g - p..g] && s.queue == t[g..]
    ensures var r := Flushed(c, s, ok);
      && All(r.flushes) == t[..g] && r.batch == t[g..g] && r.queue == t[g..] && r.closed == s.closed && r.done == s.done
      && r.flushes == s.flushes + if p == 0 then [] else [Flush(t[g - p..g], Succeeds(c, ok))]
  {
    FlushedReads(c, s, ok);
    hide Flushed, All, Succeeds;
    assert t[..g - p] + t[g - p..g] == t[..g] && t[g..g] == [];
  }

  lemma TickHolds(c: Settings, s: State, t: seq<Entry>, g: nat, p: nat, closed: bool, ended: bool, ok: Attempts)
    requires Sensible(c) && Holds(c, s, t, g, p, closed, ended)
    ensures var r := Next(c, s, Tick(ok));
      && Holds(c, r, t, g, 0, closed, ended)
      && r.flushes == s.flushes + if p == 0 then [] else [Flush(t[g - p..g], Succeeds(c, ok))]
  {
    FlushHolds(c, s, t, g, p, ok);
    hide Flushed, All, Succeeds;
    assert s.flushes + [] == s.flushes;
  }

  lemma TakeHolds(c: Settings, s: State, t: seq<Entry>, g: nat, p: nat, closed: bool, ended: bool, ok: Attempts)
    requires Sensible(c) && Holds(c, s, t, g, p, closed, ended) && g < |t|
    ensures var r, full := Next(c, s, Receive(ok)), p + 1 == c.size;
      && Holds(c, r, t, g + 1, if full then 0 else p + 1, closed, ended)
      && r.flushes == s.flushes + if full then [Flush(t[g - p..g + 1], Succeeds(c, ok))] else []
  {
    hide Flushed, All, Succeeds;
    var r := s.(queue := s.queue[1..], batch := s.batch + [s.queue[0]]);
    assert t[g - p..g] + [t[g]] == t[g - p..g + 1] && t[g..][1..] == t[g + 1..];
    assert s.flushes + [] == s.flushes;
    FlushHolds(c, r, t, g + 1, p + 1, ok);
  }

  lemma IdleHolds(c: Settings, s: State, t: seq<Entry>, g: nat, p: nat, closed: bool, ended: bool, ok: Attempts)
    requires Sensible(c) && Holds(c, s, t, g, p, closed, ended) && g == |t|
    ensures var r := Next(c, s, Receive(ok));
      && Holds(c, r, t, g, if closed then 0 else p, closed, ended || closed)
      && r.flushes == s.flushes + if closed && p > 0 then [Flush(t[g - p..g], Succeeds(c, ok))] else []
  {
    hide Flushed, All, Succeeds;
    assert s.flushes + [] == s.flushes;
    FlushHolds(c, s, t, g, p, ok);
  }

  /** What one event adds. */
  lemma OneEvent(c: Settings, xs: seq<Event>)
    requires xs != []
    ensures var init, x := xs[..|xs| - 1], xs[|xs| - 1];
      var t, g, p := Taken(c, init), Got(c, init), Pending(c, init);
      var takes, receives := x.Offer? && !Closed(init) && |t| - g < 4 * c.size, x.Receive? && g < |t|;
      var cuts := x.Tick? || (x.Receive? && !receives && Closed(init)) || (receives && p + 1 == c.size);
      && Taken(c, xs) == (if takes then t + [x.e] else t)
      && Got(c, xs) == (if receives then g + 1 else g)
      && Pending(c, xs) == (if cuts then 0 else if receives then p + 1 else p)
      && CutSize(c, xs) == (if cuts then if receives then p + 1 else p else 0)
      && (FindsEnd(c, xs) <==> x.Receive? && !receives && Closed(init))
  {
    hide Closed;
    var t := Taken(c, xs[..|xs| - 1]);
    assert t + [] == t;
  }

  lemma RunMore(c: Settings, xs: seq<Event>)
    requires Sensible(c) && xs != []
    ensures Run(c, xs) == Next(c, Run(c, xs[..|xs| - 1]), xs[|xs| - 1])
  {
    hide Next;
  }

  lemma OfferReads(c: Settings, xs: seq<Event>)
    requires Sensible(c) && xs != [] && Reads(c, xs[..|xs| - 1]) && (xs[|xs| - 1].Offer? || xs[|xs| - 1].Close?)
    ensures Reads(c, xs) && FlushesCut(c, xs)
  {
    OneEvent(c, xs);
    RunMore(c, xs);
    ClosedMore(xs);
    EndedMore(c, xs);
    hide Closed, Ended, Holds, Next, Succeeds, Run, Taken, Got, Pending, CutSize, FindsEnd;
    var init := xs[..|xs| - 1];
    var s, t, g, p := Run(c, init), Taken(c, init), Got(c, init), Pending(c, init);
    assert t + [] == t && s.flushes + [] == s.flushes;
    HoldsBounds(c, s, t, g, p, Closed(init), Ended(c, init));
    if xs[|xs| - 1].Offer? {
      OfferHolds(c, s, t, g, p, Closed(init), Ended(c, init), xs[|xs| - 1].e);
    } else {
      CloseHolds(c, s, t, g, p, Closed(init), Ended(c, init));
    }
  }

  lemma HoldsBounds(c: Settings, s: State, t: seq<Entry>, g: nat, p: nat, closed: bool, ended: bool)
    requires Holds(c, s, t, g, p, closed, ended)
    ensures p <= g <= |t| && p < c.size && (ended ==> p == 0 && g == |t| && closed)
  {
  }

  lemma TickReads(c: Settings, xs: seq<Event>)
    requires Sensible(c) && xs != [] && Reads(c, xs[..|xs| - 1]) && xs[|xs| - 1].Tick?
    ensures Reads(c, xs) && FlushesCut(c, xs)
  {
    OneEvent(c, xs);
    RunMore(c, xs);
    ClosedMore(xs);
    EndedMore(c, xs);
    hide Closed, Ended, Holds, Next, Succeeds, Run, Taken, Got, Pending, CutSize, FindsEnd;
    var init := xs[..|xs| - 1];
    var s, t, g, p := Run(c, init), Taken(c, init), Got(c, init), Pending(c, init);
    assert t + [] == t;
    HoldsBounds(c, s, t, g, p, Closed(init), Ended(c, init));
    TickHolds(c, s, t, g, p, Closed(init), Ended(c, init), xs[|xs| - 1].ok);
  }

  /** An entry is received. */
  lemma OneReceipt(c: Settings, xs: seq<Event>)
    requires xs != [] && xs[|xs| - 1].Receive? && Got(c, xs[..|xs| - 1]) < |Taken(c, xs[..|xs| - 1])|
    ensures var init := xs[..|xs| - 1];
      var full := Pending(c, init) + 1 == c.size;
      && Taken(c, xs) == Taken(c, init) && Got(c, xs) == Got(c, init) + 1
      && Pending(c, xs) == (if full then 0 else Pending(c, init) + 1)
      && CutSize(c, xs) == (if full then Pending(c, init) + 1 else 0)
      && Closed(xs) == Closed(init) && Ended(c, xs) == Ended(c, init)
  {
    hide Closed, Ended, Taken, Got, Pending, CutSize, FindsEnd;
    OneEvent(c, xs);
    ClosedMore(xs);
    EndedMore(c, xs);
  }

  lemma ReceiveReads(c: Settings, xs: seq<Event>)
    requires Sensible(c) && xs != [] && Reads(c, xs[..|xs| - 1]) && xs[|xs| - 1].Receive?
    requires Got(c, xs[..|xs| - 1]) < |Taken(c, xs[..|xs| - 1])|
    ensures Reads(c, xs) && FlushesCut(c, xs)
  {
    hide Closed, Ended, Holds, Next, Succeeds, Run, Taken, Got, Pending, CutSize;
    OneReceipt(c, xs);
    RunMore(c, xs);
    var init := xs[..|xs| - 1];
    var s, t, g, p := Run(c, init), Taken(c, init), Got(c, init), Pending(c, init);
    HoldsBounds(c, s, t, g, p, Closed(init), Ended(c, init));
    TakeHolds(c, s, t, g, p, Closed(init), Ended(c, init), xs[|xs| - 1].ok);
    assert g + 1 - (p + 1) == g - p;
  }

  lemma IdleReads(c: Settings, xs: seq<Event>)
    requires Sensible(c) && xs != [] && Reads(c, xs[..|xs| - 1]) && xs[|xs| - 1].Receive?
    requires Got(c, xs[..|xs| - 1]) >= |Taken(c, xs[..|xs| - 1])|
    ensures Reads(c, xs) && FlushesCut(c, xs)
  {
    OneEvent(c, xs);
    RunMore(c, xs);
    ClosedMore(xs);
    EndedMore(c, xs);
    hide Closed, Ended, Holds, Next, Succeeds, Run, Taken, Got, Pending, CutSize, FindsEnd;
    var init := xs[..|xs| - 1];
    var s, t, g, p := Run(c, init), Taken(c, init), Got(c, init), Pending(c, init);
    assert t + [] == t;
    HoldsBounds(c, s, t, g, p, Closed(init), Ended(c, init));
    IdleHolds(c, s, t, g, p, Closed(init), Ended(c, init), xs[|xs| - 1].ok);
  }

  /** In every run the finished batches, the current batch and the queue are the entries taken,
      in order, cut where the events say; and each event flushes exactly what it cuts, inserted
      if and only if one of the attempts allowed succeeds. */
  lemma {:induction false} RunReads(c: Settings, xs: seq<Event>)
    requires Sensible(c)
    ensures Reads(c, xs) && (xs != [] ==> FlushesCut(c, xs))
  {
    if xs == [] {
      NothingYet(c);
    } else {
      hide Reads, FlushesCut, Run;
      RunReads(c, xs[..|xs| - 1]);
      match xs[|xs| - 1] {
        case Offer(_) => OfferReads(c, xs);
        case Close => OfferReads(c, xs);
        case Tick(_) => TickReads(c, xs);
        case Receive(_) =>
          if Got(c, xs[..|xs| - 1]) < |Taken(c, xs[..|xs| - 1])| {
            ReceiveReads(c, xs);
          } else {
            IdleReads(c, xs);
          }
      }
    }
  }

  lemma NothingYet(c: Settings)
    requires Sensible(c)
    ensures Reads(c, [])
  {
    assert !Closed([]) && !Ended(c, []);
  }

  /** After a tick nothing received is left waiting: the finished batches are all the entries
      received so far, and the last of them, if there was one to cut, went in exactly if one of
      the attempts allowed succeeds. */
  lemma TickFlushes(c: Settings, xs: seq<Event>, ok: Attempts)
    requires Sensible(c)
    ensures var s, r := Run(c, xs), Run(c, xs + [Tick(ok)]);
      && Got(c, xs) <= |Taken(c, xs)|
      && r.batch == [] && All(r.flushes) == Taken(c, xs)[..Got(c, xs)]
      && r.flushes == s.flushes + (if s.batch == [] then [] else [Flush(s.batch, Succeeds(c, ok))])
  {
    hide Closed, Ended, Next, Succeeds, All, Taken, Got, Pending;
    assert (xs + [Tick(ok)])[..|xs|] == xs;
    RunReads(c, xs);
    TickHolds(c, Run(c, xs), Taken(c, xs), Got(c, xs), Pending(c, xs), Closed(xs), Ended(c, xs), ok);
  }

  /** The entries taken are those the producers were told were taken. */
  lemma {:induction false} TakenIsAccepted(c: Settings, xs: seq<Event>)
    requires Sensible(c)
    ensures Taken(c, xs) == Accepted(c, xs)
  {
    if xs != [] {
      TakenIsAccepted(c, xs[..|xs| - 1]);
      RunReads(c, xs[..|xs| - 1]);
      hide Run, Closed, Ended, Pending;
    }
  }

  // ---- settings ----

  /** Options that are set are kept; the others are 10,000 entries, 3 attempts and a first pause
      of a quarter of a second. */
  lemma SettingsExactly(o: Options)
    ensures var c := WithDefaults(o);
      && c.size == (if o.size > 0 then o.size else 10_000)
      && c.maxRetries == (if o.maxRetries > 0 then o.maxRetries else 3)
      && c.backoff == (if o.backoff > 0 then o.backoff else 250_000_000)
  {
  }

  /** The pause before attempt `i + 2` is the first pause times two to the `i`. */
  lemma {:induction false} PausesDouble(t: Time, i: nat)
    ensures Doubled(t, i) == t * Power2(i)
  {
    if i > 0 { PausesDouble(t, i - 1); }
  }

  function Power2(i: nat): nat { if i == 0 then 1 else 2 * Power2(i - 1) }
}
