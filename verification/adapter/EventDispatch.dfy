/** Queued main-thread delivery under an epoch. A post is two steps, because a
    worker thread can be interrupted between reading the epoch and queueing. */
module DispatchSpec {
  type CallId = int

  datatype Work =
    | Announce(call: CallId)       // tell the listener about an incoming call
    | Report                       // any other listener notification
    | DestroyParked(call: CallId)  // end of a released call's grace period

  /** A queued closure. `ticket` numbers the posts; nothing reads it but the
      history below. */
  datatype Closure = Closure(ticket: nat, epoch: nat, work: Work)

  datatype Mark = Loaded(ticket: nat) | Invalidated | Ran(ticket: nat) | Dropped(ticket: nat)

  /** `trace` is a history variable. */
  datatype Dispatch = Dispatch(epoch: nat, queue: seq<Closure>, delayed: seq<Closure>, nextTicket: nat, trace: seq<Mark>)

  const EMPTY_DISPATCH := Dispatch(0, [], [], 0, [])

  function Stamped(d: Dispatch, work: Work): Closure {
    Closure(d.nextTicket, d.epoch, work)
  }

  /** The epoch is read for the next ticket. */
  function LoadEpoch(d: Dispatch): Dispatch {
    d.(nextTicket := d.nextTicket + 1, trace := d.trace + [Loaded(d.nextTicket)])
  }

  function Enqueue(d: Dispatch, c: Closure): Dispatch {
    d.(queue := d.queue + [c])
  }

  function Arm(d: Dispatch, c: Closure): Dispatch {
    d.(delayed := d.delayed + [c])
  }

  function Invalidate(d: Dispatch): Dispatch {
    d.(epoch := d.epoch + 1, trace := d.trace + [Invalidated])
  }

  predicate Runs(d: Dispatch, c: Closure) {
    c.epoch == d.epoch
  }

  function Outcome(d: Dispatch, c: Closure): Mark {
    if Runs(d, c) then Ran(c.ticket) else Dropped(c.ticket)
  }

  function TakeQueued(d: Dispatch): Dispatch
    requires d.queue != []
  {
    d.(queue := d.queue[1..], trace := d.trace + [Outcome(d, d.queue[0])])
  }

  function TakeDelayed(d: Dispatch, i: nat): Dispatch
    requires i < |d.delayed|
  {
    d.(delayed := d.delayed[..i] + d.delayed[i + 1..], trace := d.trace + [Outcome(d, d.delayed[i])])
  }

  // -------------------------------------------------------------------------
  // What the epochs mean
  // -------------------------------------------------------------------------

  function Invalidations(trace: seq<Mark>): nat {
    if trace == [] then 0
    else Invalidations(trace[..|trace| - 1]) + if trace[|trace| - 1] == Invalidated then 1 else 0
  }

  predicate StampedAt(trace: seq<Mark>, c: Closure, i: nat) {
    i < |trace| && trace[i] == Loaded(c.ticket) && Invalidations(trace[..i]) == c.epoch
  }

  ghost predicate Genuine(d: Dispatch, c: Closure) {
    exists i: nat :: StampedAt(d.trace, c, i)
  }

  ghost predicate InvalidatedBetween(trace: seq<Mark>, i: int, j: int)
    requires 0 <= i <= j <= |trace|
  {
    exists k | i <= k < j :: trace[k] == Invalidated
  }

  /** A closure that ran was stamped earlier with no invalidation in between; a
      closure that was dropped had one in between. */
  ghost predicate Justified(trace: seq<Mark>, j: nat)
    requires j < |trace|
  {
    match trace[j]
    case Ran(n) => exists i | 0 <= i < j :: trace[i] == Loaded(n) && !InvalidatedBetween(trace, i, j)
    case Dropped(n) => exists i | 0 <= i < j :: trace[i] == Loaded(n) && InvalidatedBetween(trace, i, j)
    case _ => true
  }

  ghost predicate DispatchOk(d: Dispatch) {
    d.epoch == Invalidations(d.trace)
    && (forall c | c in d.queue :: Genuine(d, c))
    && (forall c | c in d.delayed :: Genuine(d, c))
    && forall j | 0 <= j < |d.trace| :: Justified(d.trace, j)
  }

  /** The epoch only grows, and grows exactly where an invalidation lies. */
  lemma {:induction false} EpochGrows(trace: seq<Mark>, i: nat, j: nat)
    requires i <= j <= |trace|
    ensures Invalidations(trace[..i]) <= Invalidations(trace[..j])
    ensures Invalidations(trace[..i]) < Invalidations(trace[..j]) <==> InvalidatedBetween(trace, i, j)
  {
    if i < j {
      EpochGrows(trace, i, j - 1);
      assert trace[..j][..j - 1] == trace[..j - 1];
    }
  }

  lemma GenuineStays(d: Dispatch, m: Mark, c: Closure)
    requires Genuine(d, c)
    ensures Genuine(d.(trace := d.trace + [m]), c)
  {
    var i: nat :| StampedAt(d.trace, c, i);
    assert (d.trace + [m])[..i] == d.trace[..i];
    assert StampedAt(d.trace + [m], c, i);
  }

  /** Past marks stay justified, and the new one is if it is no delivery. */
  lemma JustifiedStays(trace: seq<Mark>, m: Mark, j: nat)
    requires j < |trace| && Justified(trace, j)
    ensures Justified(trace + [m], j)
  {
    var t := trace + [m];
    match trace[j]
    case Ran(n) =>
      var i :| 0 <= i < j && trace[i] == Loaded(n) && !InvalidatedBetween(trace, i, j);
      assert t[i] == Loaded(n) && !InvalidatedBetween(t, i, j);
    case Dropped(n) =>
      var i :| 0 <= i < j && trace[i] == Loaded(n) && InvalidatedBetween(trace, i, j);
      var k :| i <= k < j && trace[k] == Invalidated;
      assert t[k] == Invalidated;
      assert t[i] == Loaded(n) && InvalidatedBetween(t, i, j);
    case _ =>
  }

  lemma Appended(d: Dispatch, m: Mark)
    requires DispatchOk(d)
    ensures Invalidations(d.trace + [m]) == d.epoch + if m == Invalidated then 1 else 0
    ensures forall j | 0 <= j < |d.trace| :: Justified(d.trace + [m], j)
  {
    assert (d.trace + [m])[..|d.trace|] == d.trace;
    forall j | 0 <= j < |d.trace| ensures Justified(d.trace + [m], j) {
      assert Justified(d.trace, j);
      JustifiedStays(d.trace, m, j);
    }
  }

  lemma LoadKeeps(d: Dispatch, work: Work)
    requires DispatchOk(d)
    ensures DispatchOk(LoadEpoch(d)) && Genuine(LoadEpoch(d), Stamped(d, work))
  {
    Appended(d, Loaded(d.nextTicket));
    var t := LoadEpoch(d);
    forall c | c in d.queue || c in d.delayed ensures Genuine(t, c) { GenuineStays(d, Loaded(d.nextTicket), c); }
    assert t.trace[..|d.trace|] == d.trace;
    assert StampedAt(t.trace, Stamped(d, work), |d.trace|);
  }

  lemma QueueKeeps(d: Dispatch, c: Closure)
    requires DispatchOk(d) && Genuine(d, c)
    ensures DispatchOk(Enqueue(d, c)) && DispatchOk(Arm(d, c))
  {
    forall q | q == c || q in d.queue || q in d.delayed ensures Genuine(Enqueue(d, c), q) && Genuine(Arm(d, c), q) {
      var i: nat :| StampedAt(d.trace, q, i);
    }
  }

  lemma InvalidateKeeps(d: Dispatch)
    requires DispatchOk(d)
    ensures DispatchOk(Invalidate(d))
    ensures forall c | c in d.queue || c in d.delayed :: c.epoch <= d.epoch && !Runs(Invalidate(d), c)
  {
    Appended(d, Invalidated);
    var t := Invalidate(d);
    forall c | c in d.queue || c in d.delayed
      ensures Genuine(t, c) && c.epoch <= d.epoch
    {
      GenuineStays(d, Invalidated, c);
      NotFromTheFuture(d, c);
    }
  }

  lemma NotFromTheFuture(d: Dispatch, c: Closure)
    requires d.epoch == Invalidations(d.trace) && Genuine(d, c)
    ensures c.epoch <= d.epoch
  {
    var i: nat :| StampedAt(d.trace, c, i);
    EpochGrows(d.trace, i, |d.trace|);
    assert d.trace[..|d.trace|] == d.trace;
  }

  /** Delivering a genuine closure leaves a justified mark. */
  lemma DeliveryJustified(d: Dispatch, c: Closure)
    requires d.epoch == Invalidations(d.trace) && Genuine(d, c)
    ensures Justified(d.trace + [Outcome(d, c)], |d.trace|)
  {
    var n := |d.trace|;
    var t := d.trace + [Outcome(d, c)];
    var i: nat :| StampedAt(d.trace, c, i);
    assert d.trace[..n] == d.trace;
    EpochGrows(d.trace, i, n);
    assert t[i] == Loaded(c.ticket);
    if InvalidatedBetween(d.trace, i, n) {
      var k :| i <= k < n && d.trace[k] == Invalidated;
      assert t[k] == Invalidated;
    } else {
      assert forall k | i <= k < n :: t[k] == d.trace[k];
    }
    assert InvalidatedBetween(t, i, n) <==> InvalidatedBetween(d.trace, i, n);
  }

  lemma TakeKeeps(d: Dispatch, c: Closure, queue: seq<Closure>, delayed: seq<Closure>)
    requires DispatchOk(d) && Genuine(d, c)
    requires (forall q | q in queue :: q in d.queue) && (forall q | q in delayed :: q in d.delayed)
    ensures DispatchOk(d.(queue := queue, delayed := delayed, trace := d.trace + [Outcome(d, c)]))
  {
    var m := Outcome(d, c);
    Appended(d, m);
    DeliveryJustified(d, c);
    forall q | q in queue || q in delayed ensures Genuine(d.(queue := queue, delayed := delayed, trace := d.trace + [m]), q) {
      GenuineStays(d, m, q);
    }
  }

  lemma TakeQueuedKeeps(d: Dispatch)
    requires DispatchOk(d) && d.queue != []
    ensures DispatchOk(TakeQueued(d))
  {
    TakeKeeps(d, d.queue[0], d.queue[1..], d.delayed);
  }

  lemma TakeDelayedKeeps(d: Dispatch, i: nat)
    requires DispatchOk(d) && i < |d.delayed|
    ensures DispatchOk(TakeDelayed(d, i))
  {
    TakeKeeps(d, d.delayed[i], d.queue, d.delayed[..i] + d.delayed[i + 1..]);
  }
}

/** The same queue as the object it is, seen from one thread. */
module EventDispatching {
  import opened DispatchSpec

  class EventDispatch {
    var epoch: nat
    var queue: seq<Closure>
    var delayed: seq<Closure>
    var posts: nat
    ghost var trace: seq<Mark>

    ghost function State(): Dispatch
      reads this
    {
      Dispatch(epoch, queue, delayed, posts, trace)
    }

    constructor ()
      ensures State() == EMPTY_DISPATCH
    {
      epoch, queue, delayed, posts, trace := 0, [], [], 0, [];
    }

    method Post(work: Work)
      modifies this
      ensures State() == Enqueue(LoadEpoch(old(State())), Stamped(old(State()), work))
    {
      var c := Closure(posts, epoch, work);
      posts := posts + 1;
      trace := trace + [Loaded(c.ticket)];
      queue := queue + [c];
    }

    method PostDelayed(work: Work)
      modifies this
      ensures State() == Arm(LoadEpoch(old(State())), Stamped(old(State()), work))
    {
      var c := Closure(posts, epoch, work);
      posts := posts + 1;
      trace := trace + [Loaded(c.ticket)];
      delayed := delayed + [c];
    }

    method InvalidateAll()
      modifies this
      ensures State() == Invalidate(old(State()))
    {
      epoch := epoch + 1;
      trace := trace + [Invalidated];
    }

    /** One turn of the event loop; `run` is what is to be executed, if anything. */
    method DeliverNext() returns (run: seq<Work>)
      requires queue != []
      modifies this
      ensures State() == TakeQueued(old(State()))
      ensures run == if old(queue[0].epoch) == old(epoch) then [old(queue[0].work)] else []
    {
      var c := queue[0];
      queue := queue[1..];
      run := [];
      if c.epoch == epoch {
        run := [c.work];
      }
      trace := trace + [if c.epoch == epoch then Ran(c.ticket) else Dropped(c.ticket)];
    }

    /** A timer set by PostDelayed fires; timers fire in any order. */
    method FireDelayed(i: nat) returns (run: seq<Work>)
      requires i < |delayed|
      modifies this
      ensures State() == TakeDelayed(old(State()), i)
      ensures run == if old(delayed[i].epoch) == old(epoch) then [old(delayed[i].work)] else []
    {
      var c := delayed[i];
      delayed := delayed[..i] + delayed[i + 1..];
      run := [];
      if c.epoch == epoch {
        run := [c.work];
      }
      trace := trace + [if c.epoch == epoch then Ran(c.ticket) else Dropped(c.ticket)];
    }
  }
}
