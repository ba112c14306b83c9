/** Callbacks that outlive their call: the tail of a call's callback is not
    waited for when the call is destroyed. Exactly when that happens, and what
    stop() leaves if it does not. */
module CallbackTails {
  import opened DispatchSpec
  import opened StopSpec
  import opened StopProofs
  import opened StopWitness

  /** The step destroys the object. */
  predicate Destroys(s: Adapter, st: Step, subject: Subject) {
    match st
    case RemoveAccount(a) => subject == OnAccount(a)
    case Unwatch(w) => subject == OnWatch(w)
    case DialEnd(ok) => !ok && s.main.Dialing? && subject == OnCall(s.main.call)
    case Fire(i) =>
      i < |s.events.delayed| && s.events.delayed[i].work.DestroyParked? && Runs(s.events, s.events.delayed[i])
      && subject == OnCall(s.events.delayed[i].work.call)
    case StopDestroy(x) => subject == x
    case _ => false
  }

  /** The callback runs on, and its object is gone. */
  ghost predicate LeftBehind(s: Adapter, t: ThreadId) {
    t in s.tasks && !Alive(s, s.tasks[t].subject)
  }

  // -------------------------------------------------------------------------
  // One step
  // -------------------------------------------------------------------------

  /** Nothing but its destruction ends the life of an object. */
  lemma AliveUnlessDestroyed(s: Adapter, st: Step, subject: Subject)
    requires Phase(s) && Enabled(s, st) && Alive(s, subject) && !Destroys(s, st, subject)
    ensures Alive(Next(s, st), subject)
  {
    var n := Next(s, st);
    if subject.OnCall? {
      var c := subject.call;
      if InHand(s, c) {
        var t :| Handles(s, t, c);
        if st.Insert? && st.t == t { assert c in n.calls; } else { assert Handles(n, t, c); }
      }
    }
  }

  /** A call that is in no place has no owner in the next state either. */
  lemma DeadStaysDead(s: Adapter, st: Step, c: CallId)
    requires Enabled(s, st) && c < s.nextCall && !Alive(s, OnCall(c))
    ensures !Alive(Next(s, st), OnCall(c))
  {
    hide Busy, Dying, StageDone, LoadEpoch, Stamped, WorkOf, Enqueue, Arm, TakeQueued, TakeDelayed, Invalidate;
    var n := Next(s, st);
    if st.Insert? { assert Handles(s, st.t, s.tasks[st.t].stage.call); }
    forall t ensures !Handles(n, t, c) {
      assert !Handles(s, t, c);
    }
  }

  lemma DestroyedIsDead(s: Adapter, st: Step, c: CallId)
    requires OneOwner(s) && InHandAlone(s) && TimersApart(s) && Parked(s) && Phase(s) && Enabled(s, st)
    requires Destroys(s, st, OnCall(c))
    ensures !Alive(Next(s, st), OnCall(c))
  {
    var n := Next(s, st);
    if st.DialEnd? {
      assert InLocal(s, c);
    } else if st.Fire? {
      assert Timer(s, c, st.i) && Named(s, c, st.i);
    }
    forall t ensures !Handles(n, t, c) {
      if Handles(n, t, c) { assert Handles(s, t, c); }
    }
  }

  /** A callback is left behind by exactly the step that destroys its call, and
      stays so until it returns. */
  lemma LeftBehindStep(s: Adapter, st: Step, t: ThreadId)
    requires Inv(s) && Enabled(s, st)
    ensures LeftBehind(Next(s, st), t)
            <==> (LeftBehind(s, t) && st != Leave(t)) || (t in s.tasks && Destroys(s, st, s.tasks[t].subject))
  {
    if t in s.tasks {
      var subject := s.tasks[t].subject;
      if Destroys(s, st, subject) {
        DestroyerSparesOthers(s, st, t);
        DestroyedIsDead(s, st, subject.call);
      } else if Alive(s, subject) {
        AliveUnlessDestroyed(s, st, subject);
      } else {
        DeadStaysDead(s, st, subject.call);
        StaysTail(s, st, t);
      }
    } else if st.Enter? && st.t == t {
      AliveUnlessDestroyed(s, st, st.subject);
    }
  }

  /** The guards: only a call is destroyed while a callback of it still runs. */
  lemma DestroyerSparesOthers(s: Adapter, st: Step, t: ThreadId)
    requires Enabled(s, st) && t in s.tasks && Destroys(s, st, s.tasks[t].subject)
    ensures IsCallTail(s.tasks[t])
    ensures Next(s, st).tasks == s.tasks
  {
    TailOrBusy(s, t);
  }

  lemma TailOrBusy(s: Adapter, t: ThreadId)
    requires t in s.tasks
    ensures IsCallTail(s.tasks[t]) || IsBusy(s, t, s.tasks[t].subject)
  {
  }

  lemma StaysTail(s: Adapter, st: Step, t: ThreadId)
    requires Enabled(s, st) && t in s.tasks && IsCallTail(s.tasks[t])
    ensures st == Leave(t) || (t in Next(s, st).tasks && Next(s, st).tasks[t] == s.tasks[t])
    ensures st == Leave(t) ==> t !in Next(s, st).tasks
  {
  }

  // -------------------------------------------------------------------------
  // Runs
  // -------------------------------------------------------------------------

  lemma {:induction false} LastStep(s: Adapter, steps: seq<Step>)
    requires steps != [] && IsRun(s, steps)
    ensures var before, st := steps[..|steps| - 1], steps[|steps| - 1];
            IsRun(s, before) && Enabled(Run(s, before), st) && Run(s, steps) == Next(Run(s, before), st)
    decreases |steps|
  {
    hide Enabled, Next;
    var last := |steps| - 1;
    if last > 0 {
      LastStep(Next(s, steps[0]), steps[1..]);
      assert steps[1..][..last - 1] == steps[..last][1..];
      assert steps[1..][last - 1] == steps[last];
    } else {
      assert steps[1..] == [] && steps[..last] == [];
    }
  }

  /** Looking back at the run: a step destroyed the object of the callback that
      thread `t` is in, and that callback has not returned since. */
  ghost predicate DestroyedUnder(steps: seq<Step>, t: ThreadId)
    requires IsRun(INITIAL, steps)
  {
    if steps == [] then false
    else
      var before, st := steps[..|steps| - 1], steps[|steps| - 1];
      LastStep(INITIAL, steps);
      var s := Run(INITIAL, before);
      (DestroyedUnder(before, t) && st != Leave(t)) || (t in s.tasks && Destroys(s, st, s.tasks[t].subject))
  }

  /** A callback is left on a destroyed object exactly if, while it was in flight,
      a call's dial failed, its grace timer fired or stop() destroyed it; and
      then all that is left of it is its tail. */
  lemma {:induction false} LeftBehindExact(steps: seq<Step>, t: ThreadId)
    requires IsRun(INITIAL, steps)
    ensures LeftBehind(Run(INITIAL, steps), t) <==> DestroyedUnder(steps, t)
    ensures LeftBehind(Run(INITIAL, steps), t) ==> IsCallTail(Run(INITIAL, steps).tasks[t])
  {
    Reachable(steps);
    if steps != [] {
      var before := steps[..|steps| - 1];
      LastStep(INITIAL, steps);
      LeftBehindExact(before, t);
      Reachable(before);
      LeftBehindStep(Run(INITIAL, before), steps[|steps| - 1], t);
    }
  }

  /** Whatever the adapter is doing, a callback of a call that is only released
      and parked is not left behind. */
  lemma ParkingIsSafe(steps: seq<Step>, t: ThreadId)
    requires IsRun(INITIAL, steps) && t in Run(INITIAL, steps).tasks && Run(INITIAL, steps).tasks[t].subject.OnCall?
    ensures var s, c := Run(INITIAL, steps), Run(INITIAL, steps).tasks[t].subject.call;
            c in s.calls || c in s.grace || s.main == Releasing(c) ==> !DestroyedUnder(steps, t)
  {
    LeftBehindExact(steps, t);
  }

  // -------------------------------------------------------------------------
  // The quiesce contract
  // -------------------------------------------------------------------------

  ghost predicate InUse(s: Adapter, subject: Subject) {
    exists t :: t in s.tasks && s.tasks[t].subject == subject
  }

  /** Destruction waits for whole callbacks, tails included. */
  ghost predicate Waits(s: Adapter, steps: seq<Step>)
    requires IsRun(s, steps)
    decreases |steps|
  {
    steps == []
    || ((forall subject | Destroys(s, steps[0], subject) :: !InUse(s, subject)) && Waits(Next(s, steps[0]), steps[1..]))
  }

  ghost predicate NoneLeftBehind(s: Adapter) {
    forall t :: !LeftBehind(s, t)
  }

  lemma {:induction false} WaitingLeavesNone(s: Adapter, steps: seq<Step>)
    requires Inv(s) && NoneLeftBehind(s) && IsRun(s, steps) && Waits(s, steps)
    ensures NoneLeftBehind(Run(s, steps))
    decreases |steps|
  {
    hide Inv, LeftBehind, Enabled, Next, Destroys;
    if steps != [] {
      var n := Next(s, steps[0]);
      Keeps(s, steps[0]);
      forall t ensures !LeftBehind(n, t) {
        LeftBehindStep(s, steps[0], t);
        if t in s.tasks { assert InUse(s, s.tasks[t].subject); }
      }
      WaitingLeavesNone(n, steps[1..]);
    }
  }

  /** If destruction waits for whole callbacks, no callback ever runs on a
      destroyed object, and none is in flight when stop() returns. */
  lemma CleanStopUnderContract(steps: seq<Step>)
    requires IsRun(INITIAL, steps) && Waits(INITIAL, steps)
    ensures var s := Run(INITIAL, steps);
            && (forall t | t in s.tasks :: Alive(s, s.tasks[t].subject))
            && (Returning(s) ==> s.tasks == map[])
  {
    var s := Run(INITIAL, steps);
    Reachable(steps);
    assert Inv(INITIAL);
    WaitingLeavesNone(INITIAL, steps);
    forall t | t in s.tasks ensures Alive(s, s.tasks[t].subject) { assert !LeftBehind(s, t); }
    if Returning(s) {
      forall t ensures t !in s.tasks {
        if t in s.tasks { NothingAlive(s, s.tasks[t].subject); }
      }
    }
  }

  // -------------------------------------------------------------------------
  // Both ways to it
  // -------------------------------------------------------------------------

  /** A call whose callback has posted and still runs. */
  const POSTED := INITIAL.(accounts := {ACCOUNT}, calls := {FIRST_CALL}, nextCall := FIRST_CALL + 1,
                           tasks := map[1 := Task(OnCall(FIRST_CALL), Tail)],
                           events := Dispatch(0, [Closure(0, 0, Report)], [], 1, [Loaded(0)]))

  lemma Posting() returns (steps: seq<Step>)
    ensures IsRun(INITIAL, steps) && Run(INITIAL, steps) == POSTED
  {
    var dial := Dialled();
    Extend(dial, Enter(1, OnCall(FIRST_CALL)));
    var a := dial + [Enter(1, OnCall(FIRST_CALL))];
    Extend(a, Load(1));
    Extend(a + [Load(1)], Queue(1));
    steps := a + [Load(1)] + [Queue(1)];
  }

  /** The notification is delivered, the listener releases the call, and the
      grace timer fires while the callback has still not returned: the grace
      period makes this unlikely, not impossible. */
  lemma TimerCanLeaveCallback()
    ensures exists steps: seq<Step> :: IsRun(INITIAL, steps) && LeftBehind(Run(INITIAL, steps), 1)
                            && steps != [] && steps[|steps| - 1].Fire?
  {
    hide Enabled, Next, LeftBehind;
    var a := Posting();
    DeliverReleaseFire();
    Extend(a, Deliver);
    Extend(a + [Deliver], ReleaseBegin(FIRST_CALL));
    Extend(a + [Deliver] + [ReleaseBegin(FIRST_CALL)], ReleaseEnd);
    var b := a + [Deliver] + [ReleaseBegin(FIRST_CALL)] + [ReleaseEnd];
    Extend(b, Fire(0));
    assert (b + [Fire(0)])[|b|] == Fire(0);
  }

  lemma DeliverReleaseFire()
    ensures Enabled(POSTED, Deliver)
    ensures var s := Next(POSTED, Deliver);
            && Enabled(s, ReleaseBegin(FIRST_CALL))
            && var t := Next(s, ReleaseBegin(FIRST_CALL));
               Enabled(t, ReleaseEnd)
               && var u := Next(t, ReleaseEnd);
                  Enabled(u, Fire(0)) && LeftBehind(Next(u, Fire(0)), 1)
  {
    var s := Next(POSTED, Deliver);
    var u := Next(Next(s, ReleaseBegin(FIRST_CALL)), ReleaseEnd);
    assert u.events.delayed == [Closure(1, 0, DestroyParked(FIRST_CALL))];
    assert u.tasks == POSTED.tasks && u.grace == map[FIRST_CALL := 0] && u.calls == {};
  }

  lemma StopCanLeaveCallback()
    ensures exists steps: seq<Step> :: IsRun(INITIAL, steps) && LeftBehind(Run(INITIAL, steps), 1)
                            && steps != [] && steps[|steps| - 1].StopDestroy?
  {
    var a := Posting();
    Extend(a, StopBegin);
    var b := a + [StopBegin];
    assert Run(INITIAL, b).tasks == POSTED.tasks;
    Extend(b, StopDestroy(OnCall(FIRST_CALL)));
    assert LeftBehind(Run(INITIAL, b + [StopDestroy(OnCall(FIRST_CALL))]), 1);
  }
}
