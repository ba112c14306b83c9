/** What every interleaving of stop() with worker callbacks keeps, and what
    holds when stop() returns. */
module StopProofs {
  import opened DispatchSpec
  import opened StopSpec

  /** Every wrapped call has exactly one owner, and ids are never reused. */
  ghost predicate OneOwner(s: Adapter) {
    (forall c | c in s.calls :: c < s.nextCall && c !in s.doomed && c !in s.grace && !InLocal(s, c))
    && (forall c | c in s.doomed :: c < s.nextCall && c !in s.grace && !InLocal(s, c))
    && (forall c | c in s.grace :: c < s.nextCall && !InLocal(s, c))
    && (forall c | InLocal(s, c) :: c < s.nextCall)
  }

  ghost predicate InHandAlone(s: Adapter) {
    (forall t, c | Handles(s, t, c) ::
       c < s.nextCall && c !in s.calls && c !in s.doomed && c !in s.grace && !InLocal(s, c))
    && forall t, u, c | Handles(s, t, c) && Handles(s, u, c) :: t == u
  }

  predicate WrapsOnAccount(task: Task) {
    task.stage.Constructed? || task.stage.Inserted? ==> task.subject.OnAccount?
  }

  /** The tail of a call's callback is all that can run on a destroyed object. */
  predicate IsCallTail(task: Task) {
    task.subject.OnCall? && task.stage.Tail?
  }

  ghost predicate Live(s: Adapter) {
    forall t | t in s.tasks :: (Alive(s, s.tasks[t].subject) || IsCallTail(s.tasks[t])) && WrapsOnAccount(s.tasks[t])
  }

  ghost predicate SubjectsKnown(s: Adapter) {
    forall t | t in s.tasks && s.tasks[t].subject.OnCall? :: s.tasks[t].subject.call < s.nextCall
  }

  /** What the stages of stop() have achieved so far. */
  ghost predicate Phase(s: Adapter) {
    (s.doomed != {} ==> s.main.DestroyCalls? || s.main.DestroyStragglers?)
    && (s.main.ClearWatches? || s.main.ClearAccounts? || s.main.Sweep? || s.main.DestroyStragglers? || Returning(s)
        ==> s.grace == map[])
    && (s.main.ClearAccounts? || s.main.Sweep? || s.main.DestroyStragglers? || Returning(s) ==> s.watches == map[])
    && (s.main.Sweep? || s.main.DestroyStragglers? || Returning(s) ==> s.accounts == {})
    && (s.main.DestroyStragglers? || Returning(s) ==> s.calls == {})
  }

  ghost predicate EventsOk(s: Adapter) {
    DispatchOk(s.events)
    && forall t | t in s.tasks && s.tasks[t].stage.EpochLoaded? :: Genuine(s.events, s.tasks[t].stage.closure)
  }

  /** The grace timer at `i` will still destroy the call `c`. */
  predicate Timer(s: Adapter, c: CallId, i: nat) {
    i < |s.events.delayed| && s.events.delayed[i].work == DestroyParked(c) && Runs(s.events, s.events.delayed[i])
  }

  predicate OutsideStop(s: Adapter) {
    s.main.Idle? || s.main.Dialing? || s.main.Releasing?
  }

  /** Some grace timer, stale or not, names the call. */
  predicate Named(s: Adapter, c: CallId, i: nat) {
    i < |s.events.delayed| && s.events.delayed[i].work == DestroyParked(c)
  }

  /** Grace timers name parked or destroyed calls, each call at most once. */
  ghost predicate TimersApart(s: Adapter) {
    (forall c, i: nat | Named(s, c, i) ::
       c < s.nextCall && c !in s.calls && c !in s.doomed && !InLocal(s, c) && !InHand(s, c))
    && forall c, i: nat, j: nat | Named(s, c, i) && Named(s, c, j) :: i == j
  }

  /** Outside stop() a parked call has a working timer exactly if the epoch has
      not changed since it was parked. */
  ghost predicate Parked(s: Adapter) {
    (forall c | c in s.grace :: s.grace[c] <= s.events.epoch)
    && (forall c, i: nat | Named(s, c, i) :: s.events.delayed[i].epoch <= s.events.epoch)
    && (OutsideStop(s) ==>
          (forall c, i: nat | Timer(s, c, i) :: c in s.grace && s.grace[c] == s.events.epoch)
          && (forall c | c in s.grace && s.grace[c] == s.events.epoch :: exists i: nat :: Timer(s, c, i)))
  }

  ghost predicate Inv(s: Adapter) {
    OneOwner(s) && InHandAlone(s) && Live(s) && SubjectsKnown(s) && Phase(s) && EventsOk(s) && TimersApart(s) && Parked(s)
  }

  // -------------------------------------------------------------------------
  // Every step keeps it
  // -------------------------------------------------------------------------

  lemma OwnersKeep(s: Adapter, st: Step)
    requires OneOwner(s) && InHandAlone(s) && Phase(s) && Enabled(s, st)
    ensures OneOwner(Next(s, st))
  {
    hide Busy, Alive, Runs, WorkOf, Stamped, LoadEpoch, Enqueue, Arm, TakeQueued, TakeDelayed, Invalidate;
    var n := Next(s, st);
    forall c | InLocal(n, c)
      ensures InLocal(s, c) || (st.DialBegin? && c == s.nextCall) || (st.ReleaseBegin? && c == st.call) {}
    if st.Insert? { assert Handles(s, st.t, s.tasks[st.t].stage.call); }
    if st.DialEnd? || st.ReleaseEnd? { assert InLocal(s, s.main.call); }
  }

  lemma InHandKeeps(s: Adapter, st: Step)
    requires OneOwner(s) && InHandAlone(s) && Enabled(s, st)
    ensures InHandAlone(Next(s, st))
  {
    hide Busy, Alive, Runs, WorkOf, Stamped, LoadEpoch, Enqueue, Arm, TakeQueued, TakeDelayed, Invalidate;
    var n := Next(s, st);
    forall t, c | Handles(n, t, c) ensures Handles(s, t, c) || (st.Wrap? && st.t == t && c == s.nextCall) {}
    forall c | InLocal(n, c)
      ensures InLocal(s, c) || (st.DialBegin? && c == s.nextCall) || (st.ReleaseBegin? && c == st.call) {}
    if st.Insert? { assert Handles(s, st.t, s.tasks[st.t].stage.call); }
  }

  /** Only a destruction ends the life of an object, and not while a callback
      of it is in flight. */
  lemma AliveStays(s: Adapter, st: Step, subject: Subject)
    requires Phase(s) && Enabled(s, st) && Alive(s, subject) && Busy(s, subject)
    ensures Alive(Next(s, st), subject)
  {
    var n := Next(s, st);
    if subject.OnCall? {
      var c := subject.call;
      if InHand(s, c) {
        var t :| Handles(s, t, c);
        if st.Insert? && st.t == t { assert c in n.calls; } else { assert Handles(n, t, c); }
      }
    }
  }

  lemma LiveKeeps(s: Adapter, st: Step)
    requires Live(s) && Phase(s) && Enabled(s, st)
    ensures Live(Next(s, st))
  {
    var n := Next(s, st);
    forall t | t in n.tasks
      ensures (Alive(n, n.tasks[t].subject) || IsCallTail(n.tasks[t])) && WrapsOnAccount(n.tasks[t])
    {
      if t in s.tasks && !IsCallTail(s.tasks[t]) {
        assert IsBusy(s, t, s.tasks[t].subject);
        AliveStays(s, st, s.tasks[t].subject);
      } else if t in s.tasks {
      } else if st.subject.OnCall? && InHand(s, st.subject.call) {
        var u :| Handles(s, u, st.subject.call);
        assert Handles(n, u, st.subject.call);
      }
    }
  }

  lemma PhaseKeeps(s: Adapter, st: Step)
    requires Live(s) && Phase(s) && Enabled(s, st)
    ensures Phase(Next(s, st))
  {
    // an insertion needs a live account
    if st.Insert? { assert Alive(s, s.tasks[st.t].subject); }
  }

  lemma CallMinted(s: Adapter, c: CallId)
    requires OneOwner(s) && InHandAlone(s)
    ensures Alive(s, OnCall(c)) ==> c < s.nextCall
  {
    if InHand(s, c) { var t :| Handles(s, t, c); }
  }

  lemma SubjectsKeep(s: Adapter, st: Step)
    requires OneOwner(s) && InHandAlone(s) && SubjectsKnown(s) && Enabled(s, st)
    ensures SubjectsKnown(Next(s, st))
  {
    if st.Enter? && st.subject.OnCall? { CallMinted(s, st.subject.call); }
    hide Alive, Busy;
  }

  /** A step writes at most one mark into the history. */
  lemma TraceStep(s: Adapter, st: Step) returns (m: Mark)
    requires Enabled(s, st)
    ensures var n := Next(s, st); n.events.trace == s.events.trace || n.events.trace == s.events.trace + [m]
  {
    m := Invalidated;
    if st.Load? || st.ReleaseEnd? { m := Loaded(s.events.nextTicket); }
    if st.Deliver? { m := Outcome(s.events, s.events.queue[0]); }
    if st.Fire? { m := Outcome(s.events, s.events.delayed[st.i]); }
  }

  lemma DispatchKeeps(s: Adapter, st: Step)
    requires EventsOk(s) && Enabled(s, st)
    ensures DispatchOk(Next(s, st).events)
    ensures st.Load? ==> Genuine(Next(s, st).events, Stamped(s.events, WorkOf(s.tasks[st.t].stage)))
  {
    hide DispatchOk, Genuine;
    match st
    case Load(t) => LoadKeeps(s.events, WorkOf(s.tasks[t].stage));
    case Queue(t) => QueueKeeps(s.events, s.tasks[t].stage.closure);
    case ReleaseEnd =>
      LoadKeeps(s.events, DestroyParked(s.main.call));
      QueueKeeps(LoadEpoch(s.events), Stamped(s.events, DestroyParked(s.main.call)));
    case Deliver => TakeQueuedKeeps(s.events);
    case Fire(i) => TakeDelayedKeeps(s.events, i);
    case SetListener => InvalidateKeeps(s.events);
    case StopAdvance => InvalidateKeeps(s.events);
    case _ =>
  }

  lemma EventsKeep(s: Adapter, st: Step)
    requires EventsOk(s) && Enabled(s, st)
    ensures EventsOk(Next(s, st))
  {
    hide DispatchOk;
    var n := Next(s, st);
    DispatchKeeps(s, st);
    var m := TraceStep(s, st);
    forall t | t in n.tasks && n.tasks[t].stage.EpochLoaded? ensures Genuine(n.events, n.tasks[t].stage.closure) {
      if t in s.tasks && s.tasks[t].stage.EpochLoaded? {
        assert n.tasks[t].stage.closure == s.tasks[t].stage.closure;
        GenuineStays(s.events, m, s.tasks[t].stage.closure);
        TraceDecides(n.events, s.events, s.tasks[t].stage.closure);
        TraceDecides(n.events, s.events.(trace := s.events.trace + [m]), s.tasks[t].stage.closure);
      }
    }
  }

  lemma TraceDecides(d: Dispatch, e: Dispatch, c: Closure)
    ensures d.trace == e.trace && Genuine(e, c) ==> Genuine(d, c)
  {
  }

  /** Where a timer of the next state comes from. */
  lemma TimerOrigin(s: Adapter, st: Step, c: CallId, i: nat) returns (k: nat)
    requires Enabled(s, st) && Named(Next(s, st), c, i)
    ensures (st.ReleaseEnd? && i == |s.events.delayed| && c == s.main.call)
            || (Named(s, c, k) && s.events.delayed[k] == Next(s, st).events.delayed[i]
                && k == if st.Fire? && i >= st.i then i + 1 else i)
  {
    k := if st.Fire? && i >= st.i then i + 1 else i;
  }

  lemma TimersKeep(s: Adapter, st: Step)
    requires OneOwner(s) && InHandAlone(s) && TimersApart(s) && Enabled(s, st)
    ensures TimersApart(Next(s, st))
  {
    var n := Next(s, st);
    forall c, i: nat | Named(n, c, i)
      ensures c < n.nextCall && c !in n.calls && c !in n.doomed && !InLocal(n, c) && !InHand(n, c)
    {
      var k := TimerOrigin(s, st, c, i);
      TimerHome(s, st, c, k);
    }
    forall c, i: nat, j: nat | Named(n, c, i) && Named(n, c, j) ensures i == j {
      var k := TimerOrigin(s, st, c, i);
      var l := TimerOrigin(s, st, c, j);
      if st.ReleaseEnd? { assert InLocal(s, s.main.call); }
    }
  }

  lemma TimerHome(s: Adapter, st: Step, c: CallId, k: nat)
    requires OneOwner(s) && InHandAlone(s) && TimersApart(s) && Enabled(s, st)
    requires Named(s, c, k) || (st.ReleaseEnd? && c == s.main.call)
    ensures var n := Next(s, st); c < n.nextCall && c !in n.calls && c !in n.doomed && !InLocal(n, c) && !InHand(n, c)
  {
    var n := Next(s, st);
    if st.ReleaseEnd? { assert InLocal(s, s.main.call); }
    if st.DialEnd? { assert InLocal(s, s.main.call); }
    if st.Insert? { assert Handles(s, st.t, s.tasks[st.t].stage.call); assert InHand(s, s.tasks[st.t].stage.call); }
    if InHand(n, c) {
      var t :| Handles(n, t, c);
      if !(st.Wrap? && st.t == t) { assert Handles(s, t, c); }
    }
  }

  lemma ParkedBounds(s: Adapter, st: Step)
    requires Parked(s) && Enabled(s, st)
    ensures var n := Next(s, st);
            && (forall c | c in n.grace :: n.grace[c] <= n.events.epoch)
            && (forall c, i: nat | Named(n, c, i) :: n.events.delayed[i].epoch <= n.events.epoch)
  {
    var n := Next(s, st);
    forall c, i: nat | Named(n, c, i) ensures n.events.delayed[i].epoch <= n.events.epoch {
      var k := TimerOrigin(s, st, c, i);
    }
  }

  /** A working timer names a call parked under the present epoch. */
  lemma TimerParked(s: Adapter, st: Step, c: CallId, i: nat)
    requires Parked(s) && TimersApart(s) && Phase(s) && Enabled(s, st)
    requires OutsideStop(Next(s, st)) && Timer(Next(s, st), c, i)
    ensures c in Next(s, st).grace && Next(s, st).grace[c] == Next(s, st).events.epoch
  {
    var n := Next(s, st);
    assert Named(n, c, i);
    var k := TimerOrigin(s, st, c, i);
    if Named(s, c, k) && s.events.delayed[k] == n.events.delayed[i] && n.events.epoch == s.events.epoch {
      assert Timer(s, c, k);
      if st.Fire? && s.events.delayed[st.i].work == DestroyParked(c) { assert Named(s, c, st.i); }
    }
  }

  /** And such a call has one. */
  lemma ParkedTimer(s: Adapter, st: Step, c: CallId)
    requires Parked(s) && TimersApart(s) && Phase(s) && OneOwner(s) && Enabled(s, st)
    requires var n := Next(s, st); OutsideStop(n) && c in n.grace && n.grace[c] == n.events.epoch
    ensures exists i: nat :: Timer(Next(s, st), c, i)
  {
    var n := Next(s, st);
    if st.ReleaseEnd? && c == s.main.call {
      assert Timer(n, c, |s.events.delayed|);
    } else {
      assert n.events.epoch == s.events.epoch;
      var k: nat :| Timer(s, c, k);
      if st.Fire? {
        assert k != st.i;
        assert Timer(n, c, if k > st.i then k - 1 else k);
      } else {
        assert Timer(n, c, k);
      }
    }
  }

  lemma ParkedKeeps(s: Adapter, st: Step)
    requires Parked(s) && TimersApart(s) && Phase(s) && OneOwner(s) && Enabled(s, st)
    ensures Parked(Next(s, st))
  {
    hide TimersApart, Phase, OneOwner, Next;
    var n := Next(s, st);
    ParkedBounds(s, st);
    if OutsideStop(n) {
      forall c, i: nat | Timer(n, c, i) ensures c in n.grace && n.grace[c] == n.events.epoch {
        TimerParked(s, st, c, i);
      }
      forall c | c in n.grace && n.grace[c] == n.events.epoch ensures exists i: nat :: Timer(n, c, i) {
        ParkedTimer(s, st, c);
      }
    }
  }

  lemma Keeps(s: Adapter, st: Step)
    requires Inv(s) && Enabled(s, st)
    ensures Inv(Next(s, st))
  {
    hide OneOwner, InHandAlone, Live, SubjectsKnown, Phase, EventsOk, TimersApart, Parked, Next, Enabled;
    OwnersKeep(s, st);
    InHandKeeps(s, st);
    LiveKeeps(s, st);
    SubjectsKeep(s, st);
    PhaseKeeps(s, st);
    EventsKeep(s, st);
    TimersKeep(s, st);
    ParkedKeeps(s, st);
  }

  lemma {:induction false} RunKeeps(s: Adapter, steps: seq<Step>)
    requires Inv(s) && IsRun(s, steps)
    ensures Inv(Run(s, steps))
    decreases |steps|
  {
    hide Inv, Next, Enabled;
    if steps != [] {
      Keeps(s, steps[0]);
      RunKeeps(Next(s, steps[0]), steps[1..]);
    }
  }

  lemma Reachable(steps: seq<Step>)
    requires IsRun(INITIAL, steps)
    ensures Inv(Run(INITIAL, steps))
  {
    assert Inv(INITIAL);
    RunKeeps(INITIAL, steps);
  }

  /** The history is only ever appended to. */
  lemma {:induction false} HistoryGrows(s: Adapter, steps: seq<Step>)
    requires IsRun(s, steps)
    ensures s.events.trace <= Run(s, steps).events.trace
    decreases |steps|
  {
    hide Next, Enabled;
    if steps != [] {
      var m := TraceStep(s, steps[0]);
      HistoryGrows(Next(s, steps[0]), steps[1..]);
    }
  }

  // -------------------------------------------------------------------------
  // Main results
  // -------------------------------------------------------------------------

  /** When stop() returns nothing is left alive, no callback can post any more,
      and everything still queued is stale. */
  lemma CleanStop(steps: seq<Step>)
    requires IsRun(INITIAL, steps) && Returning(Run(INITIAL, steps))
    ensures var t := Next(Run(INITIAL, steps), StopAdvance);
            && t.main == Idle
            && t.calls == {} && t.doomed == {} && t.grace == map[] && t.accounts == {} && t.watches == map[]
            && (forall k | k in t.tasks :: IsCallTail(t.tasks[k]))
            && (forall c | c in t.events.queue || c in t.events.delayed :: !Runs(t.events, c))
  {
    Reachable(steps);
    var s := Run(INITIAL, steps);
    InvalidateKeeps(s.events);
    forall k | k in s.tasks ensures IsCallTail(s.tasks[k]) { NothingAlive(s, s.tasks[k].subject); }
  }

  lemma NothingAlive(s: Adapter, subject: Subject)
    requires Live(s) && Phase(s) && Returning(s)
    ensures !Alive(s, subject)
  {
    forall t, c ensures !Handles(s, t, c) { WrapperAccount(s, t); }
  }

  lemma WrapperAccount(s: Adapter, t: ThreadId)
    requires Live(s)
    ensures t in s.tasks && s.tasks[t].stage.Constructed?
            ==> s.tasks[t].subject.OnAccount? && s.tasks[t].subject.account in s.accounts
  {
    if t in s.tasks { assert Alive(s, s.tasks[t].subject) || IsCallTail(s.tasks[t]); }
  }

  /** No closure whose post began before stop() returned runs afterwards, however
      the adapter is used and restarted later. */
  lemma NothingQueuedOutlivesStop(steps: seq<Step>, more: seq<Step>, j: nat, n: nat)
    requires IsRun(INITIAL, steps) && Returning(Run(INITIAL, steps))
    requires IsRun(Next(Run(INITIAL, steps), StopAdvance), more)
    requires var stopped, end := Next(Run(INITIAL, steps), StopAdvance), Run(Next(Run(INITIAL, steps), StopAdvance), more);
             |stopped.events.trace| <= j < |end.events.trace| && end.events.trace[j] == Ran(n)
    ensures var stopped, end := Next(Run(INITIAL, steps), StopAdvance), Run(Next(Run(INITIAL, steps), StopAdvance), more);
            exists i | |stopped.events.trace| <= i < j :: end.events.trace[i] == Loaded(n)
  {
    Reachable(steps);
    var s := Run(INITIAL, steps);
    var stopped := Next(s, StopAdvance);
    Keeps(s, StopAdvance);
    RunKeeps(stopped, more);
    HistoryGrows(stopped, more);
    AfterInvalidation(Run(stopped, more).events, |s.events.trace|, j, n);
  }

  lemma AfterInvalidation(d: Dispatch, p: nat, j: nat, n: nat)
    requires DispatchOk(d) && p < j < |d.trace| && d.trace[p] == Invalidated && d.trace[j] == Ran(n)
    ensures exists i | p < i < j :: d.trace[i] == Loaded(n)
  {
    assert Justified(d.trace, j);
    var i :| 0 <= i < j && d.trace[i] == Loaded(n) && !InvalidatedBetween(d.trace, i, j);
  }

  /** Between the moment a post reads the epoch and the delivery of its closure
      nothing was invalidated if the closure ran, and something was if it was
      dropped. */
  lemma DeliveredUnderOneEpoch(steps: seq<Step>, j: nat)
    requires IsRun(INITIAL, steps) && j < |Run(INITIAL, steps).events.trace|
    ensures Justified(Run(INITIAL, steps).events.trace, j)
  {
    Reachable(steps);
  }

  /** A call is owned by one of the two maps, the local of stop(), the main
      thread or a worker. */
  lemma OneOwnerEach(steps: seq<Step>, c: CallId)
    requires IsRun(INITIAL, steps)
    ensures var s := Run(INITIAL, steps);
            && (c in s.calls ==> c !in s.doomed && c !in s.grace && !InLocal(s, c) && !InHand(s, c))
            && (c in s.doomed ==> c !in s.grace && !InLocal(s, c) && !InHand(s, c))
            && (c in s.grace ==> !InLocal(s, c) && !InHand(s, c))
            && (InLocal(s, c) ==> !InHand(s, c))
            && (forall t, u | Handles(s, t, c) && Handles(s, u, c) :: t == u)
  {
    Reachable(steps);
  }

  /** Between stops, a released call has a timer that will destroy it exactly if
      neither stop() nor setListener() has run since it was parked. */
  lemma GraceTimerExact(steps: seq<Step>, c: CallId)
    requires IsRun(INITIAL, steps) && OutsideStop(Run(INITIAL, steps)) && c in Run(INITIAL, steps).grace
    ensures var s := Run(INITIAL, steps);
            (exists i: nat :: Timer(s, c, i)) <==> s.grace[c] == s.events.epoch
  {
    Reachable(steps);
  }
}
