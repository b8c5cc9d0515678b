/** The write batcher: entries queue up, are gathered into batches, and are inserted with
    a bounded number of attempts. */
module Batcher {
  import opened Model

  datatype Options = Options(size: int, maxRetries: int, backoff: Time)

  datatype Settings = Settings(size: nat, maxRetries: nat, backoff: Time)

  predicate Sensible(c: Settings) { c.size > 0 && c.maxRetries > 0 && c.backoff > 0 }

  function WithDefaults(o: Options): (c: Settings)
    ensures Sensible(c)
  {
    Settings(if o.size <= 0 then 10_000 else o.size, if o.maxRetries <= 0 then 3 else o.maxRetries,
             if o.backoff <= 0 then 250_000_000 else o.backoff)
  }

  /** Which attempts of one flush the database lets succeed, by number from 1. */
  type Attempts = nat -> bool

  /** The number of the attempt that ends a flush: the first success, or the last allowed. */
  function Ends(ok: Attempts, from: nat, max: nat): (n: nat)
    requires from <= max
    ensures from <= n <= max && (forall j :: from <= j < n ==> !ok(j)) && (n < max ==> ok(n))
    decreases max - from
  {
    if from == max || ok(from) then from else Ends(ok, from + 1, max)
  }

  datatype Flush = Flush(entries: seq<Entry>, ok: bool)

  /** `flushes` are the batches done with, inserted or dropped, oldest first. */
  datatype State = State(queue: seq<Entry>, batch: seq<Entry>, flushes: seq<Flush>, closed: bool, done: bool)

  const START := State([], [], [], false, false)

  /** Entries waiting for the loop; the channel's capacity. */
  function Capacity(c: Settings): nat { 4 * c.size }

  function Flushed(c: Settings, s: State, ok: Attempts): State
    requires Sensible(c)
  {
    if s.batch == [] then s
    else s.(batch := [], flushes := s.flushes + [Flush(s.batch, ok(Ends(ok, 1, c.maxRetries)))])
  }

  // ---- what can happen ----

  datatype Event =
    | Offer(e: Entry)        // a producer sends: taken when there is room
    | Receive(ok: Attempts)  // the loop takes the next entry, or finds the channel closed
    | Tick(ok: Attempts)     // the flush interval
    | Close

  predicate Takes(c: Settings, s: State) { !s.closed && |s.queue| < Capacity(c) }

  function Next(c: Settings, s: State, x: Event): State
    requires Sensible(c)
  {
    match x
    case Offer(e) => if Takes(c, s) then s.(queue := s.queue + [e]) else s
    case Close => s.(closed := true)
    case Tick(ok) => if s.done then s else Flushed(c, s, ok)
    case Receive(ok) =>
      if s.done then s
      else if s.queue == [] then if s.closed then Flushed(c, s, ok).(done := true) else s
      else
        var t := s.(queue := s.queue[1..], batch := s.batch + [s.queue[0]]);
        if |t.batch| >= c.size then Flushed(c, t, ok) else t
  }

  function Run(c: Settings, xs: seq<Event>): State
    requires Sensible(c)
  {
    if xs == [] then START else Next(c, Run(c, xs[..|xs| - 1]), xs[|xs| - 1])
  }

  /** The entries that were taken, in order. */
  function Accepted(c: Settings, xs: seq<Event>): seq<Entry>
    requires Sensible(c)
  {
    if xs == [] then []
    else
      var init, x := xs[..|xs| - 1], xs[|xs| - 1];
      Accepted(c, init) + if x.Offer? && Takes(c, Run(c, init)) then [x.e] else []
  }

  function All(fs: seq<Flush>): seq<Entry> {
    if fs == [] then [] else All(fs[..|fs| - 1]) + fs[|fs| - 1].entries
  }

  /** The entries of the batches that went in, or of those that did not. */
  function Part(fs: seq<Flush>, ok: bool): seq<Entry> {
    if fs == [] then []
    else Part(fs[..|fs| - 1], ok) + if fs[|fs| - 1].ok == ok then fs[|fs| - 1].entries else []
  }

  // ---- the program ----

  class Batcher {
    const c: Settings
    var queue: seq<Entry>
    var batch: seq<Entry>
    var dropped: nat
    var closed: bool
    var done: bool
    var store: seq<Entry>
    ghost var flushes: seq<Flush>

    ghost predicate Valid()
      reads this
    {
      Sensible(c) && dropped == |Part(flushes, false)| && store == Part(flushes, true)
    }

    ghost function Abstract(): State reads this { State(queue, batch, flushes, closed, done) }

    constructor (o: Options)
      ensures Valid() && Abstract() == START && c == WithDefaults(o)
    {
      c := WithDefaults(o);
      queue, batch, dropped, closed, done, store, flushes := [], [], 0, false, false, [], [];
    }

    /** The non-blocking send; the blocking one waits until this would succeed. */
    method TryAppend(e: Entry) returns (taken: bool)
      requires Valid() && !closed
      modifies this`queue
      ensures Valid() && taken == Takes(c, old(Abstract())) && Abstract() == Next(c, old(Abstract()), Offer(e))
    {
      if |queue| < 4 * c.size {
        queue := queue + [e];
        return true;
      }
      return false;
    }

    /** Attempts until one succeeds or all are used; the pause doubles every time. */
    method FlushWithRetry(ok: Attempts) returns (pauses: seq<Time>)
      requires Valid() && batch != []
      modifies this`dropped, this`store, this`flushes
      ensures Valid()
      ensures flushes == old(flushes) + [Flush(batch, ok(Ends(ok, 1, c.maxRetries)))]
      ensures |pauses| + 1 == Ends(ok, 1, c.maxRetries)
      ensures forall i :: 0 <= i < |pauses| ==> pauses[i] == Doubled(c.backoff, i)
    {
      hide Part, Ends;
      pauses := [];
      var delay, attempt := c.backoff, 1;
      ghost var f := Flush(batch, ok(Ends(ok, 1, c.maxRetries)));
      PartMore(flushes, f);
      while true
        invariant Valid() && flushes == old(flushes) && store == old(store) && dropped == old(dropped)
        invariant 1 <= attempt <= c.maxRetries && |pauses| == attempt - 1
        invariant Ends(ok, 1, c.maxRetries) == Ends(ok, attempt, c.maxRetries)
        invariant delay == Doubled(c.backoff, attempt - 1)
        invariant forall i :: 0 <= i < |pauses| ==> pauses[i] == Doubled(c.backoff, i)
        decreases c.maxRetries - attempt
      {
        EndsAt(ok, attempt, c.maxRetries);
        if ok(attempt) {
          store := store + batch;
          flushes := flushes + [f];
          return;
        }
        if attempt >= c.maxRetries {
          dropped := dropped + |batch|;
          flushes := flushes + [f];
          return;
        }
        pauses := pauses + [delay];
        delay := delay * 2;
        attempt := attempt + 1;
      }
    }

    method FlushBatch(ok: Attempts)
      requires Valid()
      modifies this
      ensures Valid() && Abstract() == Flushed(c, old(Abstract()), ok)
    {
      if |batch| == 0 { return; }
      var pauses := FlushWithRetry(ok);
      batch := [];
    }

    /** One turn of the loop on the channel. */
    method TakeNext(ok: Attempts)
      requires Valid() && !done && (queue != [] || closed)
      modifies this
      ensures Valid() && Abstract() == Next(c, old(Abstract()), Receive(ok))
    {
      if queue == [] {
        FlushBatch(ok);
        done := true;
        return;
      }
      batch := batch + [queue[0]];
      queue := queue[1..];
      if |batch| >= c.size { FlushBatch(ok); }
    }

    method TickFlush(ok: Attempts)
      requires Valid() && !done
      modifies this
      ensures Valid() && Abstract() == Next(c, old(Abstract()), Tick(ok))
    {
      FlushBatch(ok);
    }

    /** Waits until the loop has drained the channel; `oks` are the flushes to come. */
    method CloseAndWait(oks: nat -> Attempts)
      requires Valid() && !done
      modifies this
      ensures Valid() && closed && done && queue == [] && batch == []
      ensures All(flushes) == All(old(flushes)) + old(batch) + old(queue)
    {
      closed := true;
      var n := 0;
      while !done
        invariant Valid() && closed
        invariant All(flushes) + batch + queue == All(old(flushes)) + old(batch) + old(queue)
        invariant done ==> queue == [] && batch == []
        decreases !done, |queue|
      {
        hide All, Part, Ends;
        ghost var s := Abstract();
        TakeNext(oks(n));
        NextConserves(c, s, Receive(oks(n)));
        n := n + 1;
      }
      assert All(flushes) + [] + [] == All(flushes);
    }
  }

  function Doubled(t: Time, n: nat): Time { if n == 0 then t else 2 * Doubled(t, n - 1) }

  lemma PartMore(fs: seq<Flush>, f: Flush)
    ensures Part(fs + [f], f.ok) == Part(fs, f.ok) + f.entries && Part(fs + [f], !f.ok) == Part(fs, !f.ok)
  {
    assert (fs + [f])[..|fs|] == fs;
  }

  lemma EndsAt(ok: Attempts, n: nat, max: nat)
    requires n <= max
    ensures Ends(ok, n, max) == if n == max || ok(n) then n else Ends(ok, n + 1, max)
  {
  }

  // ---- conservation ----

  function Held(s: State): seq<Entry> { All(s.flushes) + s.batch + s.queue }

  lemma FlushedConserves(c: Settings, s: State, ok: Attempts)
    requires Sensible(c)
    ensures Held(Flushed(c, s, ok)) == Held(s)
    ensures Flushed(c, s, ok).batch == []
  {
    hide Ends;
    if s.batch != [] {
      var f := Flush(s.batch, ok(Ends(ok, 1, c.maxRetries)));
      assert (s.flushes + [f])[..|s.flushes|] == s.flushes;
      assert All(s.flushes) + s.batch + [] + s.queue == All(s.flushes) + s.batch + s.queue;
    }
  }

  /** No step but an accepted offer changes what is held, and it adds at the end. */
  lemma NextConserves(c: Settings, s: State, x: Event)
    requires Sensible(c)
    ensures Held(Next(c, s, x)) == Held(s) + if x.Offer? && Takes(c, s) then [x.e] else []
  {
    hide All, Flushed;
    assert Held(s) + [] == Held(s);
    match x
    case Offer(e) =>
      assert All(s.flushes) + s.batch + (s.queue + [e]) == All(s.flushes) + s.batch + s.queue + [e];
    case Close =>
    case Tick(ok) => FlushedConserves(c, s, ok);
    case Receive(ok) =>
      FlushedConserves(c, s, ok);
      if s.queue != [] {
        var t := s.(queue := s.queue[1..], batch := s.batch + [s.queue[0]]);
        assert [s.queue[0]] + s.queue[1..] == s.queue;
        assert Held(t) == All(s.flushes) + s.batch + ([s.queue[0]] + s.queue[1..]);
        FlushedConserves(c, t, ok);
      }
  }

  ghost predicate Sized(c: Settings, s: State) {
    && |s.batch| < c.size && |s.queue| <= Capacity(c)
    && (forall i :: 0 <= i < |s.flushes| ==> 0 < |s.flushes[i].entries| <= c.size)
    && (s.done ==> s.closed && s.queue == [] && s.batch == [])
  }

  lemma NextSized(c: Settings, s: State, x: Event)
    requires Sensible(c) && Sized(c, s)
    ensures Sized(c, Next(c, s, x))
  {
    hide Ends;
  }

  /** For every schedule of offers, receipts, ticks, failures and Close: the accepted
      entries, in order, are the batches done with, the current batch and the queue; no
      batch is empty or over the size, and the queue never exceeds its capacity. */
  lemma {:induction false} Conserved(c: Settings, xs: seq<Event>)
    requires Sensible(c)
    ensures Held(Run(c, xs)) == Accepted(c, xs) && Sized(c, Run(c, xs))
  {
    hide Next, Sized, Held;
    if xs == [] {
      NothingHeld(c);
    } else {
      var init, x := xs[..|xs| - 1], xs[|xs| - 1];
      Conserved(c, init);
      NextConserves(c, Run(c, init), x);
      NextSized(c, Run(c, init), x);
    }
  }

  lemma NothingHeld(c: Settings)
    requires Sensible(c)
    ensures Held(START) == [] && Sized(c, START)
  {
  }

  lemma {:induction false} PartsSum(fs: seq<Flush>)
    ensures |All(fs)| == |Part(fs, true)| + |Part(fs, false)|
    ensures multiset(All(fs)) == multiset(Part(fs, true)) + multiset(Part(fs, false))
  {
    if fs != [] { PartsSum(fs[..|fs| - 1]); }
  }

  /** Once closed, one receipt for each queued entry and one more end the loop. */
  lemma {:induction false} ClosedDrains(c: Settings, s: State, oks: seq<Attempts>)
    requires Sensible(c) && s.closed && |oks| > |s.queue|
    ensures Drain(c, s, oks).done
    decreases |oks|
  {
    hide Ends;
    if !s.done && s.queue != [] {
      ClosedDrains(c, Next(c, s, Receive(oks[0])), oks[1..]);
    } else {
      StaysDone(c, Next(c, s, Receive(oks[0])), oks[1..]);
    }
  }

  function Drain(c: Settings, s: State, oks: seq<Attempts>): State
    requires Sensible(c)
    decreases |oks|
  {
    if oks == [] then s else Drain(c, Next(c, s, Receive(oks[0])), oks[1..])
  }

  lemma {:induction false} StaysDone(c: Settings, s: State, oks: seq<Attempts>)
    requires Sensible(c) && s.done
    ensures Drain(c, s, oks).done
    decreases |oks|
  {
    if oks != [] { StaysDone(c, s, oks[1..]); }
  }

  /** After Close every accepted entry was inserted or dropped, exactly once. */
  lemma ClosedAccounts(c: Settings, xs: seq<Event>)
    requires Sensible(c) && Run(c, xs).done
    ensures var fs := Run(c, xs).flushes;
      && All(fs) == Accepted(c, xs)
      && |Part(fs, true)| + |Part(fs, false)| == |Accepted(c, xs)|
      && multiset(Part(fs, true)) + multiset(Part(fs, false)) == multiset(Accepted(c, xs))
  {
    Conserved(c, xs);
    hide Run, All, Part, Accepted;
    var s := Run(c, xs);
    assert All(s.flushes) + [] + [] == All(s.flushes);
    PartsSum(s.flushes);
  }
}
