/** What holds in every state the call system can reach. */
module CallTheorems {
  import opened SipTypes
  import opened BackendSpec
  import opened CallSpec
  import opened CallViews
  import opened CallInvariant

  // -------------------------------------------------------------------------
  // Lifecycle
  // -------------------------------------------------------------------------

  /** Is an announcement of `id` still in the queue? */
  predicate AwaitsAnnouncement(s: System, id: CallId) {
    Announced in Pending(s.backend.queue, id)
  }

  lemma ViewFacts(s: System, id: CallId)
    requires Inv(s)
    ensures id in s.backend.calls <==> id in s.records || AwaitsAnnouncement(s, id)
    ensures !(id in s.records && AwaitsAnnouncement(s, id))
    ensures id in s.lingering ==> id !in s.records && !AwaitsAnnouncement(s, id)
    ensures Minted(s, id) <==> Phase(s, id) > 0
    ensures Releases(s.backend.log, id) == if Phase(s, id) >= 3 then 1 else 0
    ensures id in s.lingering <==> s.timers[LingerExpiry(id)] == 1
    ensures s.timers[LingerExpiry(id)] <= 1
  {
    assert ViewOk(s, id);
    NoAnnouncement(View(s, id));
  }

  /** The backend holds exactly the recorded and the announced calls, these two
      and the lingering ones exclude each other, and exactly the minted calls
      that are no longer live have been released, each once. */
  lemma LifecycleConservation(steps: seq<Step>, id: CallId)
    requires IsRun(Initial, steps)
    ensures var s := Run(Initial, steps);
            && (id in s.backend.calls <==> id in s.records || AwaitsAnnouncement(s, id))
            && !(id in s.records && AwaitsAnnouncement(s, id))
            && (id in s.lingering ==> id !in s.records && !AwaitsAnnouncement(s, id))
            && Releases(s.backend.log, id)
               == (if 1 <= id < s.backend.nextCallId && id !in s.backend.calls then 1 else 0)
            && s.timers[LingerExpiry(id)] == (if id in s.lingering then 1 else 0)
  {
    Reachable(steps);
    ViewFacts(Run(Initial, steps), id);
  }

  lemma {:induction false} RunAppend(s: System, steps: seq<Step>, more: seq<Step>)
    requires IsRun(s, steps) && IsRun(Run(s, steps), more)
    ensures IsRun(s, steps + more) && Run(s, steps + more) == Run(Run(s, steps), more)
    decreases |steps|
  {
    if steps == [] {
      assert steps + more == more;
    } else {
      assert (steps + more)[1..] == steps[1..] + more;
      RunAppend(Next(s, steps[0]), steps[1..], more);
    }
  }

  /** A call only moves from announced to live to lingering to gone: nothing
      that happens later brings it back. */
  lemma PhasesMoveForward(steps: seq<Step>, more: seq<Step>, id: CallId)
    requires IsRun(Initial, steps) && IsRun(Run(Initial, steps), more)
    ensures IsRun(Initial, steps + more)
    ensures Phase(Run(Initial, steps), id) <= Phase(Run(Initial, steps + more), id)
  {
    Reachable(steps);
    RunAppend(Initial, steps, more);
    RunKeeps(Run(Initial, steps), more);
  }

  // -------------------------------------------------------------------------
  // Flags, active call, observations
  // -------------------------------------------------------------------------

  /** Until its backend call ends, a record's held flag is the backend's, and
      neither is set before the call is confirmed; mute and recording flags
      agree throughout; the active id names a live record or nothing. */
  lemma FlagAgreement(steps: seq<Step>, id: CallId)
    requires IsRun(Initial, steps)
    ensures var s := Run(Initial, steps);
            && (s.active == INVALID_ID || s.active in s.records)
            && (id in s.records ==>
                  && id in s.backend.calls
                  && var r, c := s.records[id], s.backend.calls[id];
                  && (c.state != Disconnected ==> r.held == c.held)
                  && (c.state == Calling || c.state == EarlyMedia ==> !r.held && !c.held)
                  && r.muted == c.muted && r.recording == c.recording && r.inbound == c.inbound)
  {
    Reachable(steps);
    if id in Run(Initial, steps).records {
      LiveRecord(Run(Initial, steps), id);
    }
  }

  /** Resuming the call that is already active clears its held flag. */
  lemma UnholdActive(s: System, id: CallId, retries: int)
    requires id in s.records && s.active == id && retries > 0
    ensures var t := RequestUnhold(s, id, retries);
            t.active == id && id in t.records && !t.records[id].held
  {
  }

  lemma HeldAgrees(s: System, id: CallId)
    requires Inv(s) && id in s.records
    ensures id in s.backend.calls
    ensures s.backend.calls[id].state == Confirmed ==> s.backend.calls[id].held == s.records[id].held
  {
    LiveRecord(s, id);
  }

  lemma PromotableAfter(records: map<CallId, CallRecord>, id: CallId)
    ensures Promotable(records - {id})
            == set k | k in records && k != id && records[k].held && records[k].state == Confirmed
  {
  }

  /** When the active call ends, a held confirmed call takes over and is no
      longer marked held; without one nothing is active. */
  lemma PromotionOnDisconnect(s: System, pick: CallId)
    requires Inv(s) && DeliverEnabled(s, pick)
    requires s.backend.queue[0].CallStateChanged? && s.backend.queue[0].state == Disconnected
    requires s.backend.queue[0].id in s.records
    ensures var id := s.backend.queue[0].id;
            var t := Deliver(s, pick);
            var others := set k | k in s.records && k != id && s.records[k].held && s.records[k].state == Confirmed;
            && id !in t.records && id in t.lingering
            && (s.active != id ==> t.active == s.active && t.records == s.records - {id})
            && (s.active == id && others == {} ==> t.active == INVALID_ID && t.records == s.records - {id})
            && (s.active == id && others != {} ==>
                  && t.active in others && t.active in t.records && !t.records[t.active].held
                  && t.active in t.backend.calls
                  && (t.backend.calls[t.active].state == Confirmed ==> !t.backend.calls[t.active].held))
  {
    hide GoodView, Pending, Observed, Releases, RequestUnhold;
    var id := s.backend.queue[0].id;
    var t := Retired(s, id, s.backend.queue[0].code);
    DisconnectShape(s, pick);
    PromotableAfter(s.records, id);
    if s.active == id && Promotable(t.records) != {} {
      UnholdActive(t.(active := pick), pick, 3);
      DisconnectKeeps(s, pick);
      HeldAgrees(Deliver(s, pick), pick);
      UnholdKeys(t.(active := pick), pick, 3);
      UnholdRecords(t.(active := pick), pick, 3);
    }
  }

  lemma UnholdRecords(s: System, id: CallId, retries: int)
    ensures RequestUnhold(s, id, retries).records.Keys == s.records.Keys
  {
    if id in s.records && CanUnhold(s.backend, id) {
      var s1 := WithHeld(s.(backend := Unhold(s.backend, id)), id, false);
      assert s1.records.Keys == s.records.Keys;
      assert HoldIfTalking(s1, s1.active).records.Keys == s1.records.Keys;
    }
  }

  lemma UnholdKeys(s: System, id: CallId, retries: int)
    ensures var t := RequestUnhold(s, id, retries);
            t.lingering == s.lingering && t.transfers == s.transfers
  {
    if id in s.records && CanUnhold(s.backend, id) {
      var s1 := WithHeld(s.(backend := Unhold(s.backend, id)), id, false);
      assert s1.transfers == s.transfers;
      var s2 := HoldIfTalking(s1, s1.active);
      assert s2.transfers == s1.transfers;
    }
  }

  /** Observers of a call see at most one Calling, then at most one Confirmed,
      then at most one Disconnected; once the manager has dropped the record of
      a call, its history is complete and nothing more is ever published. */
  lemma MonotoneObservation(steps: seq<Step>, id: CallId)
    requires IsRun(Initial, steps)
    ensures var s := Run(Initial, steps);
            && LegalHistory(Observed(s.signals, id))
            && (id in s.records ==>
                  && id in s.backend.calls
                  && HistoryFor(Observed(s.signals, id) + Pending(s.backend.queue, id), s.backend.calls[id].state))
            && (id in s.lingering ==> EndedHistory(Observed(s.signals, id)))
  {
    Reachable(steps);
    assert ViewOk(Run(Initial, steps), id);
    LegalObservation(View(Run(Initial, steps), id));
  }

  lemma LegalObservation(v: CallView)
    requires GoodView(v, true) || IsUnminted(v)
    ensures LegalHistory(v.observed)
  {
    if IsLive(v) {
      var h := v.observed + v.pending;
      assert v.observed == h[..|v.observed|];
      assert h[|h| - 1] == To(Disconnected) ==> |v.observed| < |h|;
    }
  }

  // -------------------------------------------------------------------------
  // Quiescence
  // -------------------------------------------------------------------------

  function Max0(n: int): nat { if n < 0 then 0 else n }

  /** How much internal work an undelivered event can still cause. */
  function EventWeight(e: Event): nat {
    match e
    case IncomingCall(_, _, _, _) => 8
    case CallStateChanged(_, st, _) => if st == Disconnected then 7 else 1
    case MediaStateChanged(_, _, _) => 1
    case TransferStatus(_, _, _) => 15
  }

  function TimerWeight(t: Timer): nat {
    match t
    case UnholdRetry(_, n) => Max0(n) + 3
    case BridgeRetry(_, _, n) => Max0(n) + 1
    case LingerExpiry(_) => 1
  }

  function QueueWeight(q: seq<Event>): nat {
    if q == [] then 0 else EventWeight(q[0]) + QueueWeight(q[1..])
  }

  ghost function TimersWeight(m: multiset<Timer>): nat
    decreases |m|
  {
    if m == multiset{} then 0
    else
      var t :| t in m;
      TimerWeight(t) + TimersWeight(m - multiset{t})
  }

  ghost function Measure(s: System): nat {
    QueueWeight(s.backend.queue) + TimersWeight(s.timers)
  }

  lemma {:induction false} QueueWeightAppend(q: seq<Event>, e: Event)
    ensures QueueWeight(q + [e]) == QueueWeight(q) + EventWeight(e)
  {
    if q == [] {
      assert q + [e] == [e];
      assert QueueWeight([e][1..]) == 0;
    } else {
      assert (q + [e])[1..] == q[1..] + [e];
      QueueWeightAppend(q[1..], e);
    }
  }

  lemma {:induction false} TimersWeightRemove(m: multiset<Timer>, x: Timer)
    requires x in m
    ensures TimersWeight(m) == TimerWeight(x) + TimersWeight(m - multiset{x})
    decreases |m|
  {
    var t :| t in m && TimersWeight(m) == TimerWeight(t) + TimersWeight(m - multiset{t});
    if t != x {
      var rest := m - multiset{t} - multiset{x};
      assert m - multiset{x} - multiset{t} == rest;
      TimersWeightRemove(m - multiset{t}, x);
      TimersWeightRemove(m - multiset{x}, t);
    }
  }

  lemma TimersWeightAdd(m: multiset<Timer>, x: Timer)
    ensures TimersWeight(m + multiset{x}) == TimersWeight(m) + TimerWeight(x)
  {
    TimersWeightRemove(m + multiset{x}, x);
    assert m + multiset{x} - multiset{x} == m;
  }

  lemma HangupWeight(s: System, id: CallId)
    ensures QueueWeight(Hangup(s.backend, id).queue) <= QueueWeight(s.backend.queue) + 7
  {
    if id in s.backend.calls && s.backend.calls[id].state != Disconnected {
      QueueWeightAppend(s.backend.queue,
        CallStateChanged(id, Disconnected, if s.backend.calls[id].state == Confirmed then 200 else 487));
    }
  }

  lemma {:induction false} HangupLegsWeight(s: System, legs: seq<CallId>)
    ensures Measure(HangupLegs(s, legs)) <= Measure(s) + 7 * |legs|
    decreases |legs|
  {
    if legs == [] {
    } else if legs[0] in s.records {
      HangupWeight(s, legs[0]);
      HangupLegsWeight(s.(backend := Hangup(s.backend, legs[0])), legs[1..]);
    } else {
      HangupLegsWeight(s, legs[1..]);
    }
  }

  lemma HoldIfTalkingWeight(s: System, id: CallId)
    ensures Measure(HoldIfTalking(s, id)) <= Measure(s) + 1
  {
    QueueWeightAppend(s.backend.queue, MediaStateChanged(id, false, true));
  }

  lemma RequestUnholdWeight(s: System, id: CallId, retries: int)
    ensures Measure(RequestUnhold(s, id, retries)) <= Measure(s) + Max0(retries) + 2
  {
    if id in s.records {
      if CanUnhold(s.backend, id) {
        QueueWeightAppend(s.backend.queue, MediaStateChanged(id, true, false));
        var s1 := WithHeld(s.(backend := Unhold(s.backend, id)), id, false);
        HoldIfTalkingWeight(s1, s1.active);
      } else if retries > 0 {
        TimersWeightAdd(s.timers, UnholdRetry(id, retries - 1));
      }
    }
  }

  lemma DisconnectWeight(s: System, pick: CallId)
    requires s.backend.queue != []
    requires s.backend.queue[0].CallStateChanged? && s.backend.queue[0].state == Disconnected
    requires s.backend.queue[0].id in s.records
    ensures Measure(Deliver(s, pick)) < Measure(s)
  {
    var t := Retired(s, s.backend.queue[0].id, s.backend.queue[0].code);
    DisconnectShape(s, pick);
    TimersWeightAdd(s.timers, LingerExpiry(s.backend.queue[0].id));
    assert Measure(t) == Measure(s) - 6;
    RequestUnholdWeight(t.(active := pick), pick, 3);
  }

  lemma TransferWeight(s: System, pick: CallId)
    requires TransfersOk(s) && s.backend.queue != [] && s.backend.queue[0].TransferStatus?
    ensures Measure(Deliver(s, pick)) < Measure(s)
  {
    var TransferStatus(id, code, isFinal) := s.backend.queue[0];
    var t := Popped(s).(transfers := if isFinal then s.transfers - {id} else s.transfers);
    assert Measure(t) == Measure(s) - 15;
    HangupLegsWeight(t, LegsToHangup(s.transfers, id, code, isFinal));
  }

  lemma IncomingWeight(s: System, pick: CallId)
    requires s.backend.queue != [] && s.backend.queue[0].IncomingCall?
    ensures Measure(Deliver(s, pick)) < Measure(s)
  {
    var IncomingCall(account, id, _, _) := s.backend.queue[0];
    var b := Popped(s).backend;
    if account !in s.accountFor {
      QueueWeightAppend(b.queue, CallStateChanged(id, Disconnected, 480));
    }
  }

  lemma DeliverWeight(s: System, pick: CallId)
    requires Inv(s) && DeliverEnabled(s, pick)
    ensures Measure(Deliver(s, pick)) < Measure(s)
  {
    match s.backend.queue[0]
    case MediaStateChanged(_, _, _) =>
    case IncomingCall(_, _, _, _) => IncomingWeight(s, pick);
    case TransferStatus(_, _, _) => TransferWeight(s, pick);
    case CallStateChanged(id, st, _) =>
      if id in s.records && st == Disconnected { DisconnectWeight(s, pick); }
  }

  lemma DisarmWeight(s: System, t: Timer)
    requires t in s.timers
    ensures Measure(Disarm(s, t)) == Measure(s) - TimerWeight(t)
  {
    TimersWeightRemove(s.timers, t);
  }

  lemma SameMeasure(s: System, t: System)
    requires s.timers == t.timers && s.backend.queue == t.backend.queue
    ensures Measure(s) == Measure(t)
  {
  }

  lemma WireBridgeWeight(s: System, id: CallId, other: CallId, retries: int)
    ensures Measure(WireBridge(s, id, other, retries)) <= Measure(s) + Max0(retries)
  {
    hide QueueWeight, TimersWeight;
    if id in s.records && other in s.records && !BothConfirmed(s.backend, id, other) && retries > 0 {
      TimersWeightAdd(s.timers, BridgeRetry(id, other, retries - 1));
    }
  }

  /** Every step the event loop takes by itself uses up weight, although a
      NOTIFY spawns hang-ups and a disconnect an unhold chain and a timer. */
  lemma InternalDecreases(s: System, st: Step)
    requires Inv(s) && Enabled(s, st) && Internal(st)
    ensures Measure(Next(s, st)) < Measure(s)
  {
    hide Inv, Measure, RequestUnhold, WireBridge, Deliver;
    match st
    case DeliverStep(pick) => DeliverWeight(s, pick);
    case LingerTimer(id) =>
      DisarmWeight(s, LingerExpiry(id));
      SameMeasure(Disarm(s, LingerExpiry(id)), Next(s, st));
    case UnholdTimer(id, n) =>
      DisarmWeight(s, UnholdRetry(id, n));
      RequestUnholdWeight(Disarm(s, UnholdRetry(id, n)), id, n);
    case BridgeTimer(id, other, n) =>
      DisarmWeight(s, BridgeRetry(id, other, n));
      WireBridgeWeight(Disarm(s, BridgeRetry(id, other, n)), id, other, n);
  }

  ghost predicate AllInternal(steps: seq<Step>) {
    forall i | 0 <= i < |steps| :: Internal(steps[i])
  }

  /** Without new commands or remote input the system comes to rest: no run of
      deliveries and timers is longer than the measure of its first state. */
  lemma {:induction false} Quiescence(s: System, steps: seq<Step>)
    requires Inv(s) && IsRun(s, steps) && AllInternal(steps)
    ensures |steps| + Measure(Run(s, steps)) <= Measure(s)
    decreases |steps|
  {
    if steps != [] {
      NextKeeps(s, steps[0]);
      InternalDecreases(s, steps[0]);
      Quiescence(Next(s, steps[0]), steps[1..]);
    }
  }

  /** Nothing is left to do. */
  predicate Settled(s: System) {
    s.backend.queue == [] && s.timers == multiset{}
  }

  lemma SettledMeansNoStep(s: System)
    requires Inv(s)
    ensures Settled(s) <==> forall st | Internal(st) :: !Enabled(s, st)
  {
    if !Settled(s) {
      var st := SomeInternalStep(s);
    }
  }

  lemma SomePick(s: System) returns (pick: CallId)
    requires s.backend.queue != []
    ensures DeliverEnabled(s, pick)
  {
    var id := s.backend.queue[0].id;
    PromotableAfter(s.records, id);
    if k :| k in s.records && k != id && s.records[k].held && s.records[k].state == Confirmed {
      pick := k;
      assert k in Promotable(s.records - {id});
    } else {
      pick := 0;
      assert Promotable(s.records - {id}) == {};
    }
  }

  /** The event loop is never stuck: there is always a legal promotion. */
  lemma SomeInternalStep(s: System) returns (st: Step)
    requires !Settled(s)
    ensures Internal(st) && Enabled(s, st)
  {
    if s.backend.queue != [] {
      var pick := SomePick(s);
      st := DeliverStep(pick);
    } else {
      var t :| t in s.timers;
      st := match t
        case UnholdRetry(id, n) => UnholdTimer(id, n)
        case BridgeRetry(id, other, n) => BridgeTimer(id, other, n)
        case LingerExpiry(id) => LingerTimer(id);
    }
  }

  /** Every state settles: the event loop can work off all that is pending. */
  lemma {:induction false} SettlesFrom(s: System) returns (steps: seq<Step>)
    requires Inv(s)
    ensures AllInternal(steps) && IsRun(s, steps) && Settled(Run(s, steps))
    decreases Measure(s)
  {
    hide Inv, Measure, Next, Enabled;
    if Settled(s) {
      steps := [];
    } else {
      var st := SomeInternalStep(s);
      InternalDecreases(s, st);
      NextKeeps(s, st);
      var rest := SettlesFrom(Next(s, st));
      steps := [st] + rest;
      assert steps[1..] == rest;
    }
  }

  /** In a settled state nothing leaks and nothing lags: no call lingers, the
      records are exactly the backend's calls, and each record shows the state
      and flags the backend has. */
  lemma SettledAgreement(steps: seq<Step>)
    requires IsRun(Initial, steps) && Settled(Run(Initial, steps))
    ensures var s := Run(Initial, steps);
            && s.lingering == map[]
            && s.records.Keys == s.backend.calls.Keys
            && forall id | id in s.records ::
                 var r, c := s.records[id], s.backend.calls[id];
                 && c.state != Disconnected
                 && r.state == (if c.state == Confirmed then Confirmed else Calling)
                 && r.held == c.held && r.muted == c.muted && r.recording == c.recording
  {
    Reachable(steps);
    var s := Run(Initial, steps);
    forall id
      ensures id !in s.lingering && (id in s.records <==> id in s.backend.calls)
      ensures id in s.records ==>
                var r, c := s.records[id], s.backend.calls[id];
                && c.state != Disconnected
                && r.state == (if c.state == Confirmed then Confirmed else Calling)
                && r.held == c.held && r.muted == c.muted && r.recording == c.recording
    {
      assert ViewOk(s, id);
      var v := View(s, id);
      assert v.pending == [] && v.lingerTimers == 0;
      assert v.observed + v.pending == v.observed;
    }
    assert s.lingering.Keys == {};
  }

  // -------------------------------------------------------------------------
  // Transfers
  // -------------------------------------------------------------------------

  predicate EndedByHangup(b: Backend, c: Backend, id: CallId) {
    id in b.calls && id in c.calls
    && c.calls[id] == (if b.calls[id].state == Disconnected then b.calls[id]
                       else b.calls[id].(state := Disconnected, mediaActive := false))
  }

  lemma {:induction false} HangupLegsEffect(s: System, legs: seq<CallId>)
    requires s.records.Keys <= s.backend.calls.Keys
    ensures var t := HangupLegs(s, legs);
            && t == s.(backend := t.backend)
            && t.backend.calls.Keys == s.backend.calls.Keys
            && (forall k | k in s.backend.calls && !(k in legs && k in s.records) ::
                  t.backend.calls[k] == s.backend.calls[k])
            && (forall k | k in legs && k in s.records :: EndedByHangup(s.backend, t.backend, k))
    decreases |legs|
  {
    if legs != [] {
      var t := if legs[0] in s.records then s.(backend := Hangup(s.backend, legs[0])) else s;
      HangupLegsEffect(t, legs[1..]);
    }
  }

  /** A transfer-progress NOTIFY (section 2.4.4 of RFC 3515) ends exactly the
      still recorded legs of a pending entry, and only when it is final and
      successful; a final one consumes the entry, any other changes nothing. */
  lemma TransferOutcome(s: System, pick: CallId)
    requires Inv(s) && s.backend.queue != [] && s.backend.queue[0].TransferStatus?
    ensures var TransferStatus(id, code, isFinal) := s.backend.queue[0];
            var t := Deliver(s, pick);
            var won := isFinal && 200 <= code < 300 && id in s.transfers;
            && t.records == s.records && t.active == s.active && t.timers == s.timers && t.signals == s.signals
            && t.transfers == (if isFinal then s.transfers - {id} else s.transfers)
            && t.backend.calls.Keys == s.backend.calls.Keys
            && (!won ==> t.backend == Popped(s).backend)
            && (won ==> forall k | k in s.backend.calls ::
                  if k in s.transfers[id] && k in s.records then EndedByHangup(s.backend, t.backend, k)
                  else t.backend.calls[k] == s.backend.calls[k])
  {
    var TransferStatus(id, code, isFinal) := s.backend.queue[0];
    var t := Popped(s).(transfers := if isFinal then s.transfers - {id} else s.transfers);
    forall k | k in s.records ensures k in s.backend.calls { LiveRecord(s, k); }
    HangupLegsEffect(t, LegsToHangup(s.transfers, id, code, isFinal));
  }

  /** The backend accepts a REFER for `id` in this step. */
  predicate Refers(s: System, st: Step, id: CallId) {
    match st
    case BlindStep(i, _) => i == id && id in s.records && InState(s.backend, id, Confirmed)
    case AttendedStep(i, dest) =>
      i == id && i != dest && id in s.records && dest in s.records && BothConfirmed(s.backend, id, dest)
    case _ => false
  }

  /** A final NOTIFY consumes the pending entry of `id` in this step. */
  predicate Consumes(s: System, st: Step, id: CallId) {
    st.DeliverStep? && s.backend.queue != [] && s.backend.queue[0].TransferStatus?
    && s.backend.queue[0].id == id && s.backend.queue[0].isFinal && id in s.transfers
  }

  ghost function CountSteps(s: System, steps: seq<Step>, id: CallId, refers: bool): nat
    requires IsRun(s, steps)
    decreases |steps|
  {
    if steps == [] then 0
    else (if (if refers then Refers(s, steps[0], id) else Consumes(s, steps[0], id)) then 1 else 0)
         + CountSteps(Next(s, steps[0]), steps[1..], id, refers)
  }

  lemma {:induction false} HangupLegsTransfers(s: System, legs: seq<CallId>)
    ensures HangupLegs(s, legs).transfers == s.transfers
    decreases |legs|
  {
    if legs != [] {
      HangupLegsTransfers(if legs[0] in s.records then s.(backend := Hangup(s.backend, legs[0])) else s, legs[1..]);
    }
  }

  lemma HoldTransfers(s: System, id: CallId)
    ensures HoldIfTalking(s, id).transfers == s.transfers
  {
  }

  lemma SetActiveTransfers(s: System, id: CallId)
    ensures SetActiveCall(s, id).transfers == s.transfers
  {
    HoldTransfers(s, s.active);
  }

  lemma DialTransfers(s: System, account: AccountId, uri: string)
    ensures CallSpec.MakeCall(s, account, uri).transfers == s.transfers
  {
    if CanDial(s, account) {
      var id := s.backend.nextCallId;
      var r := CallRecord(account, uri, "", Calling, 0, false, false, false, false);
      SetActiveTransfers(s.(backend := BackendSpec.MakeCall(s.backend, s.backendFor[account], uri),
                            records := if id in s.records then s.records else s.records[id := r]), id);
    }
  }

  lemma AcceptTransfers(s: System, id: CallId)
    ensures Accept(s, id).transfers == s.transfers
  {
    if id in s.records { SetActiveTransfers(s, id); }
  }

  lemma MergeTransfers(s: System, id: CallId, other: CallId)
    ensures MergeCalls(s, id, other).transfers == s.transfers
  {
    UnholdKeys(s, other, 5);
  }

  lemma CommandTransfers(s: System, st: Step, id: CallId)
    requires Enabled(s, st) && !Internal(st) && !st.BlindStep? && !st.AttendedStep?
    ensures Next(s, st).transfers == s.transfers
  {
    hide RequestUnhold, SetActiveCall, MergeCalls, Accept, CallSpec.MakeCall;
    match st
    case UnholdStep(i) => UnholdKeys(s, i, 5);
    case MergeStep(i, other) => MergeTransfers(s, i, other);
    case AcceptStep(i) => AcceptTransfers(s, i);
    case Dial(account, uri) => DialTransfers(s, account, uri);
    case _ =>
  }

  lemma DeliverTransfers(s: System, pick: CallId)
    requires s.backend.queue != []
    ensures Deliver(s, pick).transfers.Keys <= s.transfers.Keys
    ensures Consumes(s, DeliverStep(pick), s.backend.queue[0].id) ==> s.backend.queue[0].id !in Deliver(s, pick).transfers
  {
    var e := s.backend.queue[0];
    if e.TransferStatus? {
      var t := Popped(s).(transfers := if e.isFinal then s.transfers - {e.id} else s.transfers);
      HangupLegsTransfers(t, LegsToHangup(s.transfers, e.id, e.code, e.isFinal));
    } else if e.CallStateChanged? && e.id in s.records && e.state == Disconnected {
      DisconnectShape(s, pick);
      UnholdKeys(Retired(s, e.id, e.code).(active := pick), pick, 3);
    }
  }

  /** Only an accepted REFER adds a pending transfer. */
  lemma PendingOnlyByRefer(s: System, st: Step, id: CallId)
    requires Enabled(s, st)
    ensures id in Next(s, st).transfers ==> id in s.transfers || Refers(s, st, id)
    ensures Consumes(s, st, id) ==> id !in Next(s, st).transfers
  {
    hide RequestUnhold, Deliver;
    match st
    case DeliverStep(pick) => DeliverTransfers(s, pick);
    case UnholdTimer(i, n) => UnholdKeys(Disarm(s, UnholdRetry(i, n)), i, n);
    case BridgeTimer(_, _, _) =>
    case LingerTimer(_) =>
    case BlindStep(_, _) =>
    case AttendedStep(_, _) =>
    case _ => CommandTransfers(s, st, id);
  }

  /** Over any run, final NOTIFYs consume no more transfers of a call than the
      backend has accepted: no entry is consumed twice, none out of nothing. */
  lemma {:induction false} TransfersConsumedAtMostOnce(s: System, steps: seq<Step>, id: CallId)
    requires IsRun(s, steps)
    ensures CountSteps(s, steps, id, false) + (if id in Run(s, steps).transfers then 1 else 0)
            <= CountSteps(s, steps, id, true) + (if id in s.transfers then 1 else 0)
    decreases |steps|
  {
    if steps != [] {
      PendingOnlyByRefer(s, steps[0], id);
      TransfersConsumedAtMostOnce(Next(s, steps[0]), steps[1..], id);
    }
  }

  /** Pending transfers are always keyed by live records and list their own
      call first. */
  lemma PendingTransfersAreLive(steps: seq<Step>, id: CallId)
    requires IsRun(Initial, steps) && id in Run(Initial, steps).transfers
    ensures var s := Run(Initial, steps);
            id in s.records && id in s.backend.calls && 1 <= |s.transfers[id]| <= 2 && s.transfers[id][0] == id
  {
    Reachable(steps);
    LiveRecord(Run(Initial, steps), id);
  }
}
