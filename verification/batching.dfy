/**
 * The write-batching state machine of the database context: `AddOrUpdate` routing one
 * insert statement either into the pending batch or straight to the session, the flush
 * when the counter reaches `BatchSize`, and `Dispose` flushing what is left before the
 * session is released.
 *
 * Each public call is one atomic transition on an immutable `Context` (the lock around
 * the batch only serialises these steps). Whatever the session executes is appended to
 * an event log, so that loss, duplication and ordering become sequence equalities.
 * Whether the driver's `Execute` throws is a parameter of the step.
 */
module Batching {
  import opened Int32s

  /** What one `Execute` call sends: a single statement, or a batch run as one unit. */
  datatype Unit<S> = Single(stmt: S) | Batch(stmts: seq<S>)

  /** The outcome of the driver's `Execute`, which the context cannot see into. */
  datatype ExecResult = Succeeded | Threw

  /** What the session saw, in order. */
  datatype Event<S> = Executed(unit: Unit<S>) | Failed(unit: Unit<S>) | SessionReleased

  /**
   * The mutable fields of the context: the pending batch, `_currentBatchSize`,
   * `BatchSize`, `UseBatching`, and the session's log.
   */
  datatype Context<S> = Context(
    pending: seq<S>,
    count: int32,
    batchSize: int32,
    useBatching: bool,
    log: seq<Event<S>>)

  /** The context after a public call, and whether the call ended with an exception. */
  datatype Step<S> = Step(ctx: Context<S>, threw: bool)

  const DefaultBatchSize: int32 := 50

  /** The field initialisers: empty batch, counter 0, `BatchSize` 50, batching off. */
  function Init<S>(): (c: Context<S>)
    ensures c.pending == [] && c.count == 0 && c.log == []
    ensures c.batchSize == DefaultBatchSize && !c.useBatching
    ensures Bounded(c)
  {
    Context([], 0, DefaultBatchSize, false, [])
  }

  /** The `BatchSize` property setter: any `int` is accepted. */
  function SetBatchSize<S>(c: Context<S>, n: int32): (r: Context<S>)
    ensures r.batchSize == n
    ensures r.pending == c.pending && r.count == c.count && r.log == c.log
    ensures r.useBatching == c.useBatching
  {
    c.(batchSize := n)
  }

  /** The `UseBatching` property setter; a pending batch is kept as it is. */
  function SetUseBatching<S>(c: Context<S>, b: bool): (r: Context<S>)
    ensures r.useBatching == b
    ensures r.pending == c.pending && r.count == c.count && r.log == c.log
    ensures r.batchSize == c.batchSize
  {
    c.(useBatching := b)
  }

  /** The statements of one unit, in the order the session applies them. */
  function StmtsOf<S>(u: Unit<S>): seq<S>
  {
    match u
    case Single(s) => [s]
    case Batch(ss) => ss
  }

  /** The statements the session executed successfully, in order. */
  function Delivered<S>(log: seq<Event<S>>): seq<S>
  {
    if |log| == 0 then []
    else
      var last := log[|log| - 1];
      Delivered(log[..|log| - 1]) + (if last.Executed? then StmtsOf(last.unit) else [])
  }

  /** The log entry one `Execute` call leaves. */
  function Record<S>(u: Unit<S>, exec: ExecResult): Event<S>
  {
    if exec == Succeeded then Executed(u) else Failed(u)
  }

  /** The counter represents the length of the pending batch, wrapping as a C# `int` does. */
  predicate Tracks<S>(c: Context<S>)
  {
    c.count == Wrap32(|c.pending|)
  }

  /** The documented buffer invariant: counter equals pending length, strictly below `BatchSize`. */
  predicate Bounded<S>(c: Context<S>)
  {
    1 <= c.batchSize && c.count as int == |c.pending| < c.batchSize as int
  }

  /**
   * `AddOrUpdate` after the statement is built. With batching on, the statement is appended
   * and the counter incremented; when the counter then EQUALS `BatchSize` the whole batch is
   * executed, and only if that returns are the counter and the batch reset. With batching
   * off the statement is executed on its own.
   */
  function Add<S>(c: Context<S>, s: S, exec: ExecResult): (r: Step<S>)
    ensures r.ctx.batchSize == c.batchSize && r.ctx.useBatching == c.useBatching
    ensures c.log <= r.ctx.log && |r.ctx.log| <= |c.log| + 1
    ensures c.useBatching ==> Delivered(r.ctx.log) + r.ctx.pending == Delivered(c.log) + c.pending + [s]
    ensures !c.useBatching ==> r.ctx.pending == c.pending && r.ctx.count == c.count
    ensures !c.useBatching ==> r.ctx.log == c.log + [Record(Single(s), exec)]
    ensures !c.useBatching && exec == Succeeded ==> Delivered(r.ctx.log) == Delivered(c.log) + [s]
    ensures r.threw <==> exec == Threw && |r.ctx.log| == |c.log| + 1
  {
    if c.useBatching then
      var pending := c.pending + [s];
      var count := Inc32(c.count);
      if count == c.batchSize then
        var log := c.log + [Record(Batch(pending), exec)];
        assert log[..|log| - 1] == c.log;
        if exec == Succeeded then
          Step(c.(pending := [], count := 0, log := log), false)
        else
          Step(c.(pending := pending, count := count, log := log), true)
      else
        Step(c.(pending := pending, count := count), false)
    else
      var log := c.log + [Record(Single(s), exec)];
      assert log[..|log| - 1] == c.log;
      Step(c.(log := log), exec == Threw)
  }

  /**
   * `Dispose`: when the counter is positive the pending batch is executed, and then the
   * session is released. An exception from that execution leaves `Dispose` before the
   * release. The batch and the counter are not reset.
   */
  function Dispose<S>(c: Context<S>, exec: ExecResult): (r: Step<S>)
    ensures r.ctx.pending == c.pending && r.ctx.count == c.count
    ensures r.ctx.batchSize == c.batchSize && r.ctx.useBatching == c.useBatching
    ensures c.log <= r.ctx.log
    ensures r.threw <==> c.count > 0 && exec == Threw
    ensures |r.ctx.log| > |c.log|
    ensures !r.threw ==> r.ctx.log[|r.ctx.log| - 1] == SessionReleased
  {
    if c.count > 0 then
      match exec
      case Succeeded => Step(c.(log := c.log + [Executed(Batch(c.pending)), SessionReleased]), false)
      case Threw => Step(c.(log := c.log + [Failed(Batch(c.pending))]), true)
    else
      Step(c.(log := c.log + [SessionReleased]), false)
  }

  // ---------------------------------------------------------------------------
  // Invariants of single steps
  // ---------------------------------------------------------------------------

  /** Every step keeps the counter representing the pending length, whatever the driver does. */
  lemma AddPreservesTracking<S>(c: Context<S>, s: S, exec: ExecResult)
    requires Tracks(c)
    ensures Tracks(Add(c, s, exec).ctx)
  {
    if c.useBatching {
      IncWrap(|c.pending|);
      assert |c.pending + [s]| == |c.pending| + 1;
    }
  }

  /** While the counter is small it is exactly the pending length, so it is positive iff a batch is pending. */
  lemma TrackedCountIsLength<S>(c: Context<S>)
    requires Tracks(c) && |c.pending| <= Int32Max as int
    ensures c.count as int == |c.pending|
    ensures c.count > 0 <==> c.pending != []
  {
    WrapSmall(|c.pending|);
  }

  /**
   * With batching on and the buffer invariant holding, an add that lets the session succeed
   * flushes exactly when the pending batch then reaches `BatchSize`; the flush sends every
   * pending statement as one unit and resets both counter and batch.
   */
  lemma AddFlushesAtThreshold<S>(c: Context<S>, s: S)
    requires c.useBatching && Bounded(c)
    ensures var r := Add(c, s, Succeeded).ctx;
      && (|c.pending| + 1 == c.batchSize as int <==> r.log == c.log + [Executed(Batch(c.pending + [s]))])
      && (|c.pending| + 1 == c.batchSize as int ==> r.pending == [] && r.count == 0)
      && (|c.pending| + 1 < c.batchSize as int ==> r.log == c.log && r.pending == c.pending + [s])
  {
    assert Inc32(c.count) as int == c.count as int + 1;
  }

  /** A successful add keeps the buffer invariant, provided `BatchSize` is not changed. */
  lemma AddKeepsBound<S>(c: Context<S>, s: S)
    requires Bounded(c)
    ensures Bounded(Add(c, s, Succeeded).ctx)
  {
    if c.useBatching {
      assert Inc32(c.count) as int == c.count as int + 1;
      assert |c.pending + [s]| == |c.pending| + 1;
    }
  }

  // ---------------------------------------------------------------------------
  // Runs of adds
  // ---------------------------------------------------------------------------

  /** `AddOrUpdate` called once per statement, each call's execution succeeding. */
  function AddAll<S>(c: Context<S>, ss: seq<S>): (r: Context<S>)
    ensures r.batchSize == c.batchSize && r.useBatching == c.useBatching
    decreases |ss|
  {
    if ss == [] then c else AddAll(Add(c, ss[0], Succeeded).ctx, ss[1..])
  }

  /** The consecutive `b`-sized slices of `xs`, leaving out an incomplete tail. */
  function FullBatches<S>(xs: seq<S>, b: nat): (bs: seq<seq<S>>)
    requires b >= 1
    ensures |bs| == |xs| / b
    ensures forall i :: 0 <= i < |bs| ==> |bs[i]| == b
    decreases |xs|
  {
    if |xs| < b then []
    else
      DivStep(|xs|, b);
      [xs[..b]] + FullBatches(xs[b..], b)
  }

  /** What is left of `xs` after its full `b`-sized slices. */
  function Remainder<S>(xs: seq<S>, b: nat): (rest: seq<S>)
    requires b >= 1
    ensures |rest| == |xs| % b
    decreases |xs|
  {
    if |xs| < b then xs
    else
      DivStep(|xs|, b);
      Remainder(xs[b..], b)
  }

  lemma DivStep(n: nat, b: nat)
    requires 1 <= b <= n
    ensures (n - b) / b + 1 == n / b && (n - b) % b == n % b
  {
    var q, r := (n - b) / b, (n - b) % b;
    assert n == b * (q + 1) + r;
    DivUnique(n, b, q + 1, r);
  }

  lemma DivUnique(n: nat, b: nat, q: int, r: int)
    requires 1 <= b && 0 <= r < b && n == b * q + r
    ensures n / b == q && n % b == r
  {
    var q', r' := n / b, n % b;
    if q' < q {
      MulAtLeast(b, q', q);
    } else if q' > q {
      MulAtLeast(b, q, q');
    }
  }

  lemma MulAtLeast(b: nat, lo: int, hi: int)
    requires lo < hi
    ensures b * lo + b <= b * hi
  {
    var d := hi - lo - 1;
    assert b * hi == b * lo + b + b * d;
  }

  /** All statements of a sequence of batches, in order. */
  function Flatten<S>(bs: seq<seq<S>>): seq<S>
  {
    if bs == [] then [] else bs[0] + Flatten(bs[1..])
  }

  /** The log entries of successfully executed batches. */
  function BatchEvents<S>(bs: seq<seq<S>>): (es: seq<Event<S>>)
    ensures |es| == |bs|
    ensures forall i :: 0 <= i < |bs| ==> es[i] == Executed(Batch(bs[i]))
  {
    if bs == [] then [] else [Executed(Batch(bs[0]))] + BatchEvents(bs[1..])
  }

  /** Slicing into full batches and a remainder loses and repeats nothing. */
  lemma {:induction false} SlicesCover<S>(xs: seq<S>, b: nat)
    requires b >= 1
    ensures Flatten(FullBatches(xs, b)) + Remainder(xs, b) == xs
    decreases |xs|
  {
    if |xs| >= b {
      SlicesCover(xs[b..], b);
      assert FullBatches(xs, b)[1..] == FullBatches(xs[b..], b);
      assert xs == xs[..b] + xs[b..];
    }
  }

  /** What a log delivers is what its two halves deliver, in order. */
  lemma {:induction false} DeliveredAppend<S>(a: seq<Event<S>>, b: seq<Event<S>>)
    ensures Delivered(a + b) == Delivered(a) + Delivered(b)
    decreases |b|
  {
    if b == [] {
      assert a + b == a;
    } else {
      var b' := b[..|b| - 1];
      var last := b[|b| - 1];
      assert (a + b)[..|a + b| - 1] == a + b';
      assert (a + b)[|a + b| - 1] == last;
      DeliveredAppend(a, b');
    }
  }

  lemma {:induction false} DeliveredBatchEvents<S>(log: seq<Event<S>>, bs: seq<seq<S>>)
    ensures Delivered(log + BatchEvents(bs)) == Delivered(log) + Flatten(bs)
    decreases |bs|
  {
    DeliveredAppend(log, BatchEvents(bs));
    DeliveredOfBatches(bs);
  }

  lemma {:induction false} DeliveredOfBatches<S>(bs: seq<seq<S>>)
    ensures Delivered(BatchEvents(bs)) == Flatten(bs)
    decreases |bs|
  {
    if bs != [] {
      var head: seq<Event<S>> := [Executed(Batch(bs[0]))];
      assert head[..0] == [];
      assert Delivered(head) == bs[0];
      assert BatchEvents(bs) == head + BatchEvents(bs[1..]);
      DeliveredAppend(head, BatchEvents(bs[1..]));
      DeliveredOfBatches(bs[1..]);
    }
  }

  /**
   * With batching on, a fixed `BatchSize` and every execution succeeding, a run of adds
   * executes exactly the full `BatchSize` slices of (pending ++ added), in order, one unit
   * each; the remainder stays pending and the buffer invariant still holds.
   */
  lemma {:induction false} AddAllBatches<S>(c: Context<S>, ss: seq<S>)
    requires c.useBatching && Bounded(c)
    ensures var r := AddAll(c, ss);
      && r.log == c.log + BatchEvents(FullBatches(c.pending + ss, c.batchSize as nat))
      && r.pending == Remainder(c.pending + ss, c.batchSize as nat)
      && Bounded(r)
    decreases |ss|
  {
    var b := c.batchSize as nat;
    if ss == [] {
      assert c.pending + ss == c.pending;
    } else {
      var s := ss[0];
      var c1 := Add(c, s, Succeeded).ctx;
      AddFlushesAtThreshold(c, s);
      AddKeepsBound(c, s);
      var r := AddAll(c1, ss[1..]);
      assert AddAll(c, ss) == r;
      AddAllBatches(c1, ss[1..]);
      if |c.pending| + 1 == b {
        var head := [Executed(Batch(c.pending + [s]))];
        var tail := BatchEvents(FullBatches(ss[1..], b));
        assert c1.pending + ss[1..] == ss[1..];
        assert c1.log == c.log + head;
        assert r.log == c1.log + tail;
        FlushedSlice(c.pending, s, ss, b);
        AppendAssoc(c.log, head, tail);
      } else {
        assert c1.pending + ss[1..] == c.pending + ss;
      }
    }
  }

  lemma AppendAssoc<T>(a: seq<T>, b: seq<T>, c: seq<T>)
    ensures (a + b) + c == a + (b + c)
  {
  }

  /** When the pending batch plus one more statement fills a batch, that is the first slice. */
  lemma FlushedSlice<S>(pending: seq<S>, s: S, ss: seq<S>, b: nat)
    requires b >= 1 && |pending| + 1 == b && ss != [] && ss[0] == s
    ensures BatchEvents(FullBatches(pending + ss, b))
      == [Executed(Batch(pending + [s]))] + BatchEvents(FullBatches(ss[1..], b))
    ensures Remainder(pending + ss, b) == Remainder(ss[1..], b)
  {
    var xs := pending + ss;
    assert xs[..b] == pending + [s];
    assert xs[b..] == ss[1..];
    var bs := FullBatches(xs, b);
    assert bs == [pending + [s]] + FullBatches(ss[1..], b);
    assert bs[1..] == FullBatches(ss[1..], b);
  }

  /**
   * With batching on, a fixed `BatchSize` and every execution succeeding, a run of adds
   * loses, repeats and reorders nothing: the statements delivered so far followed by the
   * pending batch grow by exactly the added ones. Derived from the slicing of the run.
   */
  lemma AddAllDelivers<S>(c: Context<S>, ss: seq<S>)
    requires c.useBatching && Bounded(c)
    ensures Delivered(AddAll(c, ss).log) + AddAll(c, ss).pending == Delivered(c.log) + c.pending + ss
  {
    AddAllBatches(c, ss);
    SliceDelivery(c.log, c.pending + ss, c.batchSize as nat);
  }

  /** Executing the full slices of `xs` and keeping the remainder pending accounts for all of `xs`. */
  lemma SliceDelivery<S>(log: seq<Event<S>>, xs: seq<S>, b: nat)
    requires b >= 1
    ensures Delivered(log + BatchEvents(FullBatches(xs, b))) + Remainder(xs, b) == Delivered(log) + xs
  {
    var bs := FullBatches(xs, b);
    DeliveredBatchEvents(log, bs);
    SlicesCover(xs, b);
    AppendAssoc(Delivered(log), Flatten(bs), Remainder(xs, b));
  }

  /**
   * A run of adds in which each `Execute` may succeed or throw, the caller carrying on
   * after an exception: `outs[i]` is what the driver does on the `i`-th call.
   */
  function AddRun<S>(c: Context<S>, ss: seq<S>, outs: seq<ExecResult>): (r: Context<S>)
    requires |outs| == |ss|
    ensures r.batchSize == c.batchSize && r.useBatching == c.useBatching
    ensures c.log <= r.log && |r.log| <= |c.log| + |ss|
    decreases |ss|
  {
    if ss == [] then c else AddRun(Add(c, ss[0], outs[0]).ctx, ss[1..], outs[1..])
  }

  /**
   * With batching on, no run of adds loses, repeats or reorders a statement, whichever
   * executions throw: a failed flush keeps its batch pending, and what was delivered
   * followed by what is pending grows by exactly the added statements.
   */
  lemma {:induction false} AddRunDelivers<S>(c: Context<S>, ss: seq<S>, outs: seq<ExecResult>)
    requires c.useBatching && |outs| == |ss|
    ensures var r := AddRun(c, ss, outs);
      Delivered(r.log) + r.pending == Delivered(c.log) + c.pending + ss
    decreases |ss|
  {
    if ss == [] {
      assert c.pending + ss == c.pending;
    } else {
      var c1 := Add(c, ss[0], outs[0]).ctx;
      var r := AddRun(c1, ss[1..], outs[1..]);
      assert AddRun(c, ss, outs) == r;
      var before, step := Delivered(c.log) + c.pending, Delivered(c1.log) + c1.pending;
      assert step == before + [ss[0]];
      AddRunDelivers(c1, ss[1..], outs[1..]);
      assert Delivered(r.log) + r.pending == step + ss[1..];
      assert [ss[0]] + ss[1..] == ss;
      assert before + [ss[0]] + ss[1..] == before + ss;
    }
  }

  /**
   * From an empty batch, `n` successful adds flush exactly `n / BatchSize` times, each
   * flush carrying exactly `BatchSize` statements, and leave `n % BatchSize` pending.
   */
  lemma FlushCountFromEmpty<S>(c: Context<S>, ss: seq<S>)
    requires c.useBatching && 1 <= c.batchSize && c.pending == [] && c.count == 0
    ensures |AddAll(c, ss).log| == |c.log| + |ss| / c.batchSize as int
    ensures forall i :: |c.log| <= i < |AddAll(c, ss).log| ==>
      AddAll(c, ss).log[i].Executed? && AddAll(c, ss).log[i].unit.Batch?
      && |AddAll(c, ss).log[i].unit.stmts| == c.batchSize as int
    ensures |AddAll(c, ss).pending| == |ss| % c.batchSize as int
  {
    var b := c.batchSize as nat;
    AddAllBatches(c, ss);
    assert c.pending + ss == ss;
    var r := AddAll(c, ss);
    var bs := FullBatches(ss, b);
    assert r.log == c.log + BatchEvents(bs);
    forall i | |c.log| <= i < |r.log|
      ensures r.log[i].Executed? && r.log[i].unit.Batch? && |r.log[i].unit.stmts| == b
    {
      assert r.log[i] == BatchEvents(bs)[i - |c.log|];
    }
  }

  /** `BatchSize - 1` adds from an empty batch execute nothing; `BatchSize` adds execute them all as one batch. */
  lemma ThresholdRuns<S>(c: Context<S>, ss: seq<S>)
    requires c.useBatching && 1 <= c.batchSize && c.pending == [] && c.count == 0
    ensures |ss| == c.batchSize as int - 1 ==> AddAll(c, ss).log == c.log && AddAll(c, ss).pending == ss
    ensures |ss| == c.batchSize as int ==>
      AddAll(c, ss).log == c.log + [Executed(Batch(ss))] && AddAll(c, ss).pending == []
  {
    var b := c.batchSize as nat;
    AddAllBatches(c, ss);
    assert c.pending + ss == ss;
    if |ss| == b {
      assert ss[..b] == ss && ss[b..] == [];
      assert FullBatches(ss, b) == [ss];
    }
  }

  // ---------------------------------------------------------------------------
  // Dispose
  // ---------------------------------------------------------------------------

  /**
   * A successful `Dispose` executes the pending batch exactly once when one is pending,
   * nothing otherwise, and releases the session after that execution and last.
   */
  lemma DisposeFlushesOnce<S>(c: Context<S>)
    requires Tracks(c) && |c.pending| <= Int32Max as int
    ensures var r := Dispose(c, Succeeded).ctx;
      && (c.pending != [] ==> r.log == c.log + [Executed(Batch(c.pending)), SessionReleased])
      && (c.pending == [] ==> r.log == c.log + [SessionReleased])
      && Delivered(r.log) == Delivered(c.log) + c.pending
  {
    TrackedCountIsLength(c);
    var r := Dispose(c, Succeeded).ctx;
    if c.pending != [] {
      var l1 := c.log + [Executed(Batch(c.pending))];
      assert l1[..|l1| - 1] == c.log;
      assert r.log == l1 + [SessionReleased];
      assert r.log[..|r.log| - 1] == l1;
    } else {
      assert r.log[..|r.log| - 1] == c.log;
    }
  }

  /**
   * End to end with batching on: a run of successful adds followed by a successful
   * `Dispose` delivers every statement exactly once, in the order added, and then releases
   * the session.
   */
  lemma AddThenDisposeDeliversAll<S>(c: Context<S>, ss: seq<S>)
    requires c.useBatching && Bounded(c)
    ensures var r := Dispose(AddAll(c, ss), Succeeded).ctx;
      && Delivered(r.log) == Delivered(c.log) + c.pending + ss
      && r.log[|r.log| - 1] == SessionReleased
  {
    var m := AddAll(c, ss);
    AddAllBatches(c, ss);
    AddAllDelivers(c, ss);
    WrapSmall(|m.pending|);
    DisposeFlushesOnce(m);
  }

  /**
   * Turning batching off with a batch pending loses nothing: a later add executes its own
   * statement at once and leaves the batch alone, and a successful `Dispose` then delivers
   * the batch. The later statement reaches the session before the older pending ones.
   */
  lemma BatchingOffKeepsPending<S>(c: Context<S>, s: S)
    requires Tracks(c) && |c.pending| <= Int32Max as int
    ensures var c1 := SetUseBatching(c, false);
      var a := Add(c1, s, Succeeded).ctx;
      var r := Dispose(a, Succeeded).ctx;
      && a.pending == c.pending && a.count == c.count
      && Delivered(a.log) == Delivered(c.log) + [s]
      && Delivered(r.log) == Delivered(c.log) + [s] + c.pending
  {
    var a := Add(SetUseBatching(c, false), s, Succeeded).ctx;
    DisposeFlushesOnce(a);
  }

  // ---------------------------------------------------------------------------
  // Behaviour of the equality test
  // ---------------------------------------------------------------------------

  /**
   * The flush test is an equality, and a flush that throws skips the reset: the counter
   * is left at `BatchSize` and the next add, even a successful one, does not flush.
   */
  lemma FailedFlushStopsFlushing<S>(c: Context<S>, s: S, t: S)
    requires c.useBatching && Bounded(c) && |c.pending| + 1 == c.batchSize as int
    requires c.batchSize < Int32Max
    ensures var r1 := Add(c, s, Threw);
      && r1.threw && r1.ctx.count == c.batchSize && r1.ctx.pending == c.pending + [s]
      && var r2 := Add(r1.ctx, t, Succeeded).ctx;
      && r2.log == r1.ctx.log
      && r2.count as int == c.batchSize as int + 1
      && r2.pending == c.pending + [s, t]
  {
    assert Inc32(c.count) as int == c.count as int + 1;
    assert c.pending + [s] + [t] == c.pending + [s, t];
  }

  /** Lowering `BatchSize` below the counter also stops flushing on the following adds. */
  lemma ShrunkBatchSizeStopsFlushing<S>(c: Context<S>, n: int32, s: S)
    requires c.useBatching && Tracks(c) && |c.pending| < Int32Max as int
    requires n as int <= |c.pending|
    ensures var r := Add(SetBatchSize(c, n), s, Succeeded).ctx;
      r.log == c.log && r.pending == c.pending + [s]
  {
    WrapSmall(|c.pending|);
  }

  /** The flush test `>=` instead of `==`: a batch at or above `BatchSize` is flushed. */
  function AddCorrected<S>(c: Context<S>, s: S, exec: ExecResult): (r: Step<S>)
    ensures r.ctx.batchSize == c.batchSize && r.ctx.useBatching == c.useBatching
    ensures c.log <= r.ctx.log && |r.ctx.log| <= |c.log| + 1
    ensures c.useBatching ==> Delivered(r.ctx.log) + r.ctx.pending == Delivered(c.log) + c.pending + [s]
  {
    if c.useBatching then
      var pending := c.pending + [s];
      var count := Inc32(c.count);
      if count >= c.batchSize then
        var log := c.log + [Record(Batch(pending), exec)];
        assert log[..|log| - 1] == c.log;
        if exec == Succeeded then
          Step(c.(pending := [], count := 0, log := log), false)
        else
          Step(c.(pending := pending, count := count, log := log), true)
      else
        Step(c.(pending := pending, count := count), false)
    else
      var log := c.log + [Record(Single(s), exec)];
      assert log[..|log| - 1] == c.log;
      Step(c.(log := log), exec == Threw)
  }

  /**
   * With the corrected test, every successful add restores the buffer invariant from ANY
   * tracked state, including one left by a failed flush or a lowered `BatchSize`.
   */
  lemma CorrectedAddRestoresBound<S>(c: Context<S>, s: S)
    requires c.useBatching && Tracks(c) && 1 <= c.batchSize && |c.pending| < Int32Max as int
    ensures Bounded(AddCorrected(c, s, Succeeded).ctx)
  {
    WrapSmall(|c.pending|);
    WrapSmall(|c.pending| + 1);
    IncWrap(|c.pending|);
    assert |c.pending + [s]| == |c.pending| + 1;
  }

  /** `Dispose` with its flush failing never reaches the release of the session. */
  lemma FailedDisposeKeepsSession<S>(c: Context<S>)
    requires c.count > 0
    ensures var r := Dispose(c, Threw);
      r.threw && SessionReleased !in r.ctx.log[|c.log|..]
  {
    assert Dispose(c, Threw).ctx.log[|c.log|..] == [Failed(Batch(c.pending))];
  }

  /** `Dispose` with the release in a `finally`: the session is released on every path. */
  function DisposeCorrected<S>(c: Context<S>, exec: ExecResult): (r: Step<S>)
    ensures r.ctx.pending == c.pending && r.ctx.count == c.count
    ensures r.ctx.batchSize == c.batchSize && r.ctx.useBatching == c.useBatching
    ensures c.log <= r.ctx.log
    ensures r.threw <==> c.count > 0 && exec == Threw
  {
    if c.count > 0 then
      Step(c.(log := c.log + [Record(Batch(c.pending), exec), SessionReleased]), exec == Threw)
    else
      Step(c.(log := c.log + [SessionReleased]), false)
  }

  /** The corrected `Dispose` ends with exactly one release, after the flush attempt. */
  lemma CorrectedDisposeAlwaysReleases<S>(c: Context<S>, exec: ExecResult)
    ensures var r := DisposeCorrected(c, exec).ctx;
      && r.log[|r.log| - 1] == SessionReleased
      && SessionReleased !in r.log[|c.log|..|r.log| - 1]
      && (c.count > 0 <==> |r.log| == |c.log| + 2)
  {
  }
}
