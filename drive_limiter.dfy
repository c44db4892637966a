/**
 * The Drive concurrency limiter of the upload backend (index.js, lines 17-57).
 *
 * A counter `active` of slots in use, bounded by MAX_DRIVE_CONCURRENCY (`c`
 * below), and a FIFO queue `pending` of waiting requests, bounded by MAX_QUEUE
 * (`q`). A waiting request is represented by an abstract token standing for its
 * promise resolver; "resolving" that promise is the token ReleaseSlot hands back.
 * The asynchronous suspension of JavaScript is modelled as a sequence of events.
 *
 * The first half of the module is the specification on values: one step
 * function per operation and the lemmas about sequences of steps. The second
 * half is the class whose methods update the two fields in place, each proved
 * against its step function.
 */
module DriveLimiter {
  import opened Wrappers

  /** Abstract identity of a waiting request (its promise resolver in the source). */
  type WaiterId = nat

  /** A JavaScript Error as the callers see it: the `code` property and the message. */
  datatype Failure = Failure(code: string, message: string)

  const QueueFullCode: string := "QUEUE_FULL"

  /** The error acquireSlot rejects with when the queue is full. */
  const QueueFull: Failure := Failure(QueueFullCode, "Fila cheia, tente novamente.")

  /** Limits used when MAX_DRIVE_CONCURRENCY and MAX_QUEUE are not configured. */
  const DefaultMaxConcurrency: nat := 5
  const DefaultMaxQueue: nat := 50

  /** How one call of acquireSlot settles: at once, later (queued), or with an error. */
  datatype AcquireResult = Granted | Queued | Rejected(error: Failure)

  /** The limiter's shared state: slots in use and the waiters, oldest first. */
  datatype LimiterState = LimiterState(active: nat, pending: seq<WaiterId>)

  /** The state at process start. */
  const Idle: LimiterState := LimiterState(0, [])

  /**
   * What every reachable state satisfies: no more slots in use than the limit,
   * no more waiters than the queue bound, and nobody waits while a slot is free.
   */
  predicate Inv(s: LimiterState, c: nat, q: nat)
  {
    && s.active <= c
    && |s.pending| <= q
    && (s.pending != [] ==> s.active == c)
  }

  datatype Acquired = Acquired(next: LimiterState, result: AcquireResult)

  datatype Released = Released(next: LimiterState, granted: Option<WaiterId>)

  /** acquireSlot for waiter `w`: grant a free slot, else queue, else reject. */
  function AcquireStep(s: LimiterState, c: nat, q: nat, w: WaiterId): (r: Acquired)
    ensures r.result.Granted? <==> s.active < c
    ensures r.result.Rejected? <==> s.active >= c && |s.pending| >= q
    ensures r.result.Granted? ==> r.next == LimiterState(s.active + 1, s.pending)
    ensures r.result.Queued? ==> r.next == LimiterState(s.active, s.pending + [w])
    ensures r.result.Rejected? ==> r.next == s && r.result.error == QueueFull
    ensures Inv(s, c, q) ==> Inv(r.next, c, q)
  {
    if s.active < c then
      Acquired(LimiterState(s.active + 1, s.pending), Granted)
    else if |s.pending| >= q then
      Acquired(s, Rejected(QueueFull))
    else
      Acquired(LimiterState(s.active, s.pending + [w]), Queued)
  }

  /**
   * releaseSlot: hand the slot to the oldest waiter (the slot stays in use),
   * or return it to the pool, never letting `active` go below zero.
   */
  function ReleaseStep(s: LimiterState): (r: Released)
    ensures s.pending != [] ==>
      r.granted == Some(s.pending[0]) && r.next == LimiterState(s.active, s.pending[1..])
    ensures s.pending == [] ==>
      r.granted == None && r.next.pending == [] &&
      r.next.active == (if s.active == 0 then 0 else s.active - 1)
    ensures s == Idle ==> r == Released(Idle, None)
    ensures forall c: nat, q: nat :: Inv(s, c, q) ==> Inv(r.next, c, q)
  {
    if |s.pending| > 0 then
      Released(LimiterState(s.active, s.pending[1..]), Some(s.pending[0]))
    else
      Released(LimiterState(Max(0, s.active - 1), []), None)
  }

  /** Math.max on integers. */
  function Max(a: int, b: int): (m: int)
    ensures m >= a && m >= b && (m == a || m == b)
  {
    if a >= b then a else b
  }

  // ---------------------------------------------------------------------------
  // Sequences of operations
  // ---------------------------------------------------------------------------

  datatype Op = AcquireOp(w: WaiterId) | ReleaseOp

  datatype Event = AcquireEvent(w: WaiterId, result: AcquireResult) | ReleaseEvent(granted: Option<WaiterId>)

  datatype Stepped = Stepped(next: LimiterState, event: Event)

  datatype Trace = Trace(final: LimiterState, events: seq<Event>)

  /** One operation: acquireSlot for a waiter, or releaseSlot. */
  function Step(s: LimiterState, c: nat, q: nat, op: Op): Stepped
  {
    match op
    case AcquireOp(w) =>
      var a := AcquireStep(s, c, q, w);
      Stepped(a.next, AcquireEvent(w, a.result))
    case ReleaseOp =>
      var r := ReleaseStep(s);
      Stepped(r.next, ReleaseEvent(r.granted))
  }

  /** Runs the operations in order from `s`, recording what each one returned. */
  function Run(s: LimiterState, c: nat, q: nat, ops: seq<Op>): (t: Trace)
    ensures |t.events| == |ops|
    decreases |ops|
  {
    if ops == [] then Trace(s, [])
    else
      var st := Step(s, c, q, ops[0]);
      var t := Run(st.next, c, q, ops[1..]);
      Trace(t.final, [st.event] + t.events)
  }

  /** The waiter an event put in the queue, if any. */
  function QueuedBy(e: Event): seq<WaiterId>
  {
    if e.AcquireEvent? && e.result.Queued? then [e.w] else []
  }

  /** The waiter an event handed a slot to, if any. */
  function HandedBy(e: Event): seq<WaiterId>
  {
    if e.ReleaseEvent? && e.granted.Some? then [e.granted.value] else []
  }

  /** The waiters that were put in the queue, in the order they were queued. */
  function QueuedWaiters(events: seq<Event>): seq<WaiterId>
  {
    if events == [] then [] else QueuedBy(events[0]) + QueuedWaiters(events[1..])
  }

  /** The waiters that a release handed a slot to, in the order they got it. */
  function HandedOver(events: seq<Event>): seq<WaiterId>
  {
    if events == [] then [] else HandedBy(events[0]) + HandedOver(events[1..])
  }

  /** From any state where the invariant holds, every sequence of operations keeps it. */
  lemma {:induction false} RunKeepsInvariant(s: LimiterState, c: nat, q: nat, ops: seq<Op>)
    requires Inv(s, c, q)
    ensures Inv(Run(s, c, q, ops).final, c, q)
    decreases |ops|
  {
    if ops != [] {
      RunKeepsInvariant(Step(s, c, q, ops[0]).next, c, q, ops[1..]);
    }
  }

  /** Every state reached from process start satisfies the invariant. */
  lemma ReachableStatesAreValid(c: nat, q: nat, ops: seq<Op>)
    ensures var t := Run(Idle, c, q, ops);
      && t.final.active <= c
      && |t.final.pending| <= q
      && (t.final.pending != [] ==> t.final.active == c)
  {
    RunKeepsInvariant(Idle, c, q, ops);
  }

  /** Each operation is recorded by an event of its own kind, for the same waiter. */
  lemma {:induction false} RunRecordsEachOp(s: LimiterState, c: nat, q: nat, ops: seq<Op>)
    ensures var t := Run(s, c, q, ops);
      forall i :: 0 <= i < |ops| ==>
        && (t.events[i].AcquireEvent? <==> ops[i].AcquireOp?)
        && (ops[i].AcquireOp? ==> t.events[i].w == ops[i].w)
    decreases |ops|
  {
    if ops != [] {
      var st := Step(s, c, q, ops[0]);
      RunRecordsEachOp(st.next, c, q, ops[1..]);
      var t := Run(s, c, q, ops);
      var rest := Run(st.next, c, q, ops[1..]);
      forall i | 1 <= i < |ops|
        ensures t.events[i] == rest.events[i - 1] && ops[i] == ops[1..][i - 1]
      {
      }
    }
  }

  /** One step moves at most one waiter into the queue or out of its front. */
  lemma StepConservesWaiters(s: LimiterState, c: nat, q: nat, op: Op)
    ensures var st := Step(s, c, q, op);
      s.pending + QueuedBy(st.event) == HandedBy(st.event) + st.next.pending
  {
    var st := Step(s, c, q, op);
    if st.event.ReleaseEvent? && s.pending != [] {
      assert s.pending == [s.pending[0]] + s.pending[1..];
    }
  }

  /**
   * FIFO bookkeeping: the waiters that were waiting or joined the queue are
   * exactly those handed a slot followed by those still waiting, in one order.
   */
  lemma {:induction false} RunConservesWaiters(s: LimiterState, c: nat, q: nat, ops: seq<Op>)
    ensures var t := Run(s, c, q, ops);
      s.pending + QueuedWaiters(t.events) == HandedOver(t.events) + t.final.pending
    decreases |ops|
  {
    if ops != [] {
      var st := Step(s, c, q, ops[0]);
      var rest := Run(st.next, c, q, ops[1..]);
      var t := Run(s, c, q, ops);
      RunConservesWaiters(st.next, c, q, ops[1..]);
      StepConservesWaiters(s, c, q, ops[0]);
      assert t.events[0] == st.event && t.events[1..] == rest.events;
      assert QueuedWaiters(t.events) == QueuedBy(st.event) + QueuedWaiters(rest.events);
      assert HandedOver(t.events) == HandedBy(st.event) + HandedOver(rest.events);
      ConcatBridge(s.pending, QueuedBy(st.event), HandedBy(st.event), st.next.pending,
                   QueuedWaiters(rest.events), HandedOver(rest.events), rest.final.pending);
    }
  }

  /** Chains two "queue before + joined == served + queue after" equations. */
  lemma ConcatBridge<T>(x: seq<T>, qb: seq<T>, hb: seq<T>, y: seq<T>, qr: seq<T>, hr: seq<T>, f: seq<T>)
    requires x + qb == hb + y && y + qr == hr + f
    ensures x + (qb + qr) == (hb + hr) + f
  {
    calc {
      x + (qb + qr);
      (x + qb) + qr;
      (hb + y) + qr;
      hb + (y + qr);
      hb + (hr + f);
      (hb + hr) + f;
    }
  }

  /**
   * Waiters are served in arrival order: from process start, the slots handed
   * over by releases go to a prefix of the queued waiters, and the rest of them
   * are still waiting, in the order they came.
   */
  lemma GrantsFollowArrivalOrder(c: nat, q: nat, ops: seq<Op>)
    ensures var t := Run(Idle, c, q, ops);
      && HandedOver(t.events) <= QueuedWaiters(t.events)
      && QueuedWaiters(t.events)[|HandedOver(t.events)|..] == t.final.pending
  {
    var t := Run(Idle, c, q, ops);
    RunConservesWaiters(Idle, c, q, ops);
    assert [] + QueuedWaiters(t.events) == QueuedWaiters(t.events);
  }

  /** A burst of acquires, one per waiter, with no release in between. */
  function AcquireAll(ws: seq<WaiterId>): seq<Op>
  {
    seq(|ws|, i requires 0 <= i < |ws| => AcquireOp(ws[i]))
  }

  /** Result of the `i`-th acquire of a burst started in `s`. */
  function BurstResult(s: LimiterState, c: nat, q: nat, i: nat): AcquireResult
    requires Inv(s, c, q)
  {
    if i < c - s.active then Granted
    else if i < (c - s.active) + (q - |s.pending|) then Queued
    else Rejected(QueueFull)
  }

  /** Numbering of a burst shifts by one after its first acquire. */
  lemma BurstResultShift(s: LimiterState, c: nat, q: nat, w: WaiterId, i: nat)
    requires Inv(s, c, q) && i >= 1
    ensures BurstResult(AcquireStep(s, c, q, w).next, c, q, i - 1) == BurstResult(s, c, q, i)
  {
  }

  /** The first step of a burst, unfolded. */
  lemma BurstUnfold(s: LimiterState, c: nat, q: nat, ws: seq<WaiterId>)
    requires ws != []
    ensures var a := AcquireStep(s, c, q, ws[0]);
      var t := Run(s, c, q, AcquireAll(ws));
      var rest := Run(a.next, c, q, AcquireAll(ws[1..]));
      t == Trace(rest.final, [AcquireEvent(ws[0], a.result)] + rest.events)
  {
    var ops := AcquireAll(ws);
    assert ops[0] == AcquireOp(ws[0]);
    assert ops[1..] == AcquireAll(ws[1..]);
  }

  /**
   * A burst of acquires from a valid state: the free slots are granted first,
   * then the free queue places are taken in order, and every later caller is
   * rejected with QUEUE_FULL.
   */
  lemma {:induction false} AcquireBurst(s: LimiterState, c: nat, q: nat, ws: seq<WaiterId>)
    requires Inv(s, c, q)
    ensures var t := Run(s, c, q, AcquireAll(ws));
      forall i :: 0 <= i < |ws| ==> t.events[i] == AcquireEvent(ws[i], BurstResult(s, c, q, i))
    decreases |ws|
  {
    if ws != [] {
      var a := AcquireStep(s, c, q, ws[0]);
      BurstUnfold(s, c, q, ws);
      AcquireBurst(a.next, c, q, ws[1..]);
      forall i | 1 <= i < |ws|
        ensures BurstResult(a.next, c, q, i - 1) == BurstResult(s, c, q, i)
      {
        BurstResultShift(s, c, q, ws[0], i);
      }
    }
  }

  /**
   * The state after a burst: as many slots taken as were free, and the waiters
   * that found a queue place appended in arrival order.
   */
  lemma {:induction false} AcquireBurstFinal(s: LimiterState, c: nat, q: nat, ws: seq<WaiterId>)
    requires Inv(s, c, q)
    ensures var granted := Min(|ws|, c - s.active);
      var queued := Min(|ws|, (c - s.active) + (q - |s.pending|));
      Run(s, c, q, AcquireAll(ws)).final == LimiterState(s.active + granted, s.pending + ws[granted..queued])
    decreases |ws|
  {
    if ws != [] {
      var a := AcquireStep(s, c, q, ws[0]);
      BurstUnfold(s, c, q, ws);
      AcquireBurstFinal(a.next, c, q, ws[1..]);
      var free, room := c - s.active, q - |s.pending|;
      if a.result.Granted? {
        SliceAfterFirst(ws, Min(|ws|, free), Min(|ws|, free + room));
      } else if a.result.Queued? {
        AppendFirst(s.pending, ws, Min(|ws|, room));
      }
    }
  }

  lemma SliceAfterFirst(ws: seq<WaiterId>, g: nat, h: nat)
    requires 1 <= g <= h <= |ws|
    ensures ws[1..][g - 1..h - 1] == ws[g..h]
  {
  }

  lemma AppendFirst(p: seq<WaiterId>, ws: seq<WaiterId>, h: nat)
    requires 1 <= h <= |ws|
    ensures (p + [ws[0]]) + ws[1..][0..h - 1] == p + ws[0..h]
  {
    assert ws[0..h] == [ws[0]] + ws[1..][0..h - 1];
  }

  /** The smaller of two integers. */
  function Min(a: int, b: int): (m: int)
    ensures m <= a && m <= b && (m == a || m == b)
  {
    if a <= b then a else b
  }

  /**
   * Overload from process start: of C + Q + 1 simultaneous uploads, the first C
   * run, the next Q wait in arrival order, and exactly the last one is
   * rejected with QUEUE_FULL.
   */
  lemma OverloadRejectsOnlyTheLast(c: nat, q: nat, ws: seq<WaiterId>)
    requires |ws| == c + q + 1
    ensures var t := Run(Idle, c, q, AcquireAll(ws));
      && (forall i :: 0 <= i < c ==> t.events[i] == AcquireEvent(ws[i], Granted))
      && (forall i :: c <= i < c + q ==> t.events[i] == AcquireEvent(ws[i], Queued))
      && t.events[c + q] == AcquireEvent(ws[c + q], Rejected(QueueFull))
      && t.final == LimiterState(c, ws[c..c + q])
  {
    AcquireBurst(Idle, c, q, ws);
    AcquireBurstFinal(Idle, c, q, ws);
  }

  /**
   * With the default limits (5 and 50), the 56th simultaneous upload from
   * process start is the first to be rejected.
   */
  lemma DefaultLimitsRejectThe56th(ws: seq<WaiterId>)
    requires |ws| == 56
    ensures var t := Run(Idle, DefaultMaxConcurrency, DefaultMaxQueue, AcquireAll(ws));
      && (forall i :: 0 <= i < 5 ==> t.events[i] == AcquireEvent(ws[i], Granted))
      && (forall i :: 5 <= i < 55 ==> t.events[i] == AcquireEvent(ws[i], Queued))
      && t.events[55] == AcquireEvent(ws[55], Rejected(QueueFull))
      && t.final == LimiterState(5, ws[5..55])
  {
    OverloadRejectsOnlyTheLast(DefaultMaxConcurrency, DefaultMaxQueue, ws);
  }

  // ---------------------------------------------------------------------------
  // The scoped wrapper withDriveSlot
  // ---------------------------------------------------------------------------

  /** How the wrapped operation `fn` settles: a value, or a thrown error. */
  datatype Outcome<V> = Ok(value: V) | Err(error: Failure)

  /**
   * How a call of withDriveSlot stands once control returns to the event loop:
   * settled with an outcome, or suspended in the queue (its body runs later).
   */
  datatype SlotCall<V> = Settled(outcome: Outcome<V>) | Suspended

  /**
   * The new limiter state, the call's status, the waiter whose promise the
   * release in the `finally` resolved (if any), and how often releaseSlot ran.
   */
  datatype Scoped<V> = Scoped(next: LimiterState, call: SlotCall<V>, granted: Option<WaiterId>, releases: nat)

  /**
   * withDriveSlot for waiter `w` whose operation settles with `fnOutcome`.
   * With a free slot, `fn` runs and the slot is released exactly once, and the
   * caller gets `fn`'s outcome unchanged; with a full queue, the caller gets
   * QUEUE_FULL, nothing is released and the state is unchanged; otherwise the
   * caller waits in the queue and nothing is released yet.
   */
  function WithSlot<V>(s: LimiterState, c: nat, q: nat, w: WaiterId, fnOutcome: Outcome<V>): (r: Scoped<V>)
    ensures r.releases == (if s.active < c then 1 else 0)
    ensures s.active < c ==> r.call == Settled(fnOutcome)
    ensures s.active >= c && |s.pending| >= q ==>
      r.call == Settled(Err(QueueFull)) && r.next == s
    ensures s.active >= c && |s.pending| < q ==>
      r.call == Suspended && r.next == LimiterState(s.active, s.pending + [w])
    ensures s.active >= c ==> r.granted == None
    ensures s.active < c && s.pending != [] ==>
      r.granted == Some(s.pending[0]) && r.next == LimiterState(s.active + 1, s.pending[1..])
    ensures s.active < c && s.pending == [] ==> r.granted == None && r.next == s
    ensures Inv(s, c, q) ==> Inv(r.next, c, q)
    ensures Inv(s, c, q) && s.active < c ==> r.granted == None && r.next == s
  {
    var a := AcquireStep(s, c, q, w);
    match a.result
    case Granted =>
      var rel := ReleaseStep(a.next);
      Scoped(rel.next, Settled(fnOutcome), rel.granted, 1)
    case Rejected(e) => Scoped(s, Settled(Err(e)), None, 0)
    case Queued => Scoped(a.next, Suspended, None, 0)
  }

  /**
   * The body of withDriveSlot once the slot is held (lines 52-56): `fn`'s
   * outcome passes through and releaseSlot runs exactly once on both paths,
   * either resuming the oldest waiter or giving the slot back.
   */
  function InSlot<V>(s: LimiterState, fnOutcome: Outcome<V>): (r: Scoped<V>)
    ensures r.call == Settled(fnOutcome) && r.releases == 1
    ensures forall c: nat, q: nat :: Inv(s, c, q) ==> Inv(r.next, c, q)
    ensures s.pending != [] ==>
      r.granted == Some(s.pending[0]) && r.next == LimiterState(s.active, s.pending[1..])
    ensures s.pending == [] ==>
      r.granted == None && r.next == LimiterState(if s.active == 0 then 0 else s.active - 1, [])
  {
    var rel := ReleaseStep(s);
    Scoped(rel.next, Settled(fnOutcome), rel.granted, 1)
  }

  // ---------------------------------------------------------------------------
  // The limiter object: the module-level `active` and `pending`, updated in place
  // ---------------------------------------------------------------------------

  class Limiter {
    const maxConcurrency: nat
    const maxQueue: nat
    var active: nat
    var pending: seq<WaiterId>
    /** How many times releaseSlot has run, for stating "exactly once". */
    ghost var releaseCalls: nat

    function State(): LimiterState
      reads this
    {
      LimiterState(active, pending)
    }

    ghost predicate Valid()
      reads this
    {
      Inv(State(), maxConcurrency, maxQueue)
    }

    constructor (c: nat, q: nat)
      ensures maxConcurrency == c && maxQueue == q
      ensures State() == Idle && releaseCalls == 0
      ensures Valid()
    {
      maxConcurrency, maxQueue := c, q;
      active, pending := 0, [];
      releaseCalls := 0;
    }

    /** acquireSlot (lines 25-38). */
    method AcquireSlot(w: WaiterId) returns (r: AcquireResult)
      requires Valid()
      modifies this`active, this`pending
      ensures Valid()
      ensures Acquired(State(), r) == AcquireStep(old(State()), maxConcurrency, maxQueue, w)
    {
      if active < maxConcurrency {
        active := active + 1;
        r := Granted;
        return;
      }
      if |pending| >= maxQueue {
        r := Rejected(QueueFull);
        return;
      }
      pending := pending + [w];
      r := Queued;
    }

    /** releaseSlot (lines 40-48); returns the waiter whose promise it resolves. */
    method ReleaseSlot() returns (granted: Option<WaiterId>)
      requires Valid()
      modifies this`active, this`pending, this`releaseCalls
      ensures Valid()
      ensures Released(State(), granted) == ReleaseStep(old(State()))
      ensures releaseCalls == old(releaseCalls) + 1
    {
      if |pending| > 0 {
        granted := Some(pending[0]);
        pending := pending[1..];
      } else {
        granted := None;
        active := Max(0, active - 1);
      }
      releaseCalls := releaseCalls + 1;
    }

    /**
     * The try/finally of withDriveSlot (lines 52-56), run while holding a slot;
     * `granted` is the waiter the release in the `finally` resumes.
     */
    method RunInSlot<V>(fnOutcome: Outcome<V>) returns (r: Outcome<V>, granted: Option<WaiterId>)
      requires Valid()
      modifies this`active, this`pending, this`releaseCalls
      ensures Valid() && old(releaseCalls) <= releaseCalls
      ensures Scoped(State(), Settled(r), granted, releaseCalls - old(releaseCalls))
           == InSlot(old(State()), fnOutcome)
    {
      r := fnOutcome;
      granted := ReleaseSlot();
    }

    /**
     * withDriveSlot (lines 50-57), with `fn` settling before any other call
     * starts. A queued caller is Suspended: its body, RunInSlot, runs once the
     * RunInSlot of a call holding a slot returns its token as `granted`. From a
     * valid state a granted call finds the queue empty, so its own release
     * resumes nobody.
     */
    method WithDriveSlot<V>(w: WaiterId, fnOutcome: Outcome<V>) returns (r: SlotCall<V>, granted: Option<WaiterId>)
      requires Valid()
      modifies this`active, this`pending, this`releaseCalls
      ensures Valid() && old(releaseCalls) <= releaseCalls
      ensures Scoped(State(), r, granted, releaseCalls - old(releaseCalls))
           == WithSlot(old(State()), maxConcurrency, maxQueue, w, fnOutcome)
      ensures granted == None
    {
      var acquired := AcquireSlot(w);
      match acquired
      case Rejected(e) =>
        r, granted := Settled(Err(e)), None;
      case Queued =>
        r, granted := Suspended, None;
      case Granted =>
        var outcome;
        outcome, granted := RunInSlot(fnOutcome);
        r := Settled(outcome);
    }
  }
}
