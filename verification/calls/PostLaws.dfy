/** What a command sends to the other side, which events and timers it leaves
    behind, and when media flows. */
module PostLaws {
  import opened SipTypes
  import opened CallSpec
  import opened CallViews
  import opened StepLaws
  import opened CommandOutcomes
  import opened MergeLaws
  import BackendSpec
  import CallCells
  import CallInvariant
  import CallTheorems

  predicate CallState?(s: System, k: CallId, st: CallState) {
    k in s.backend.calls && s.backend.calls[k].state == st
  }

  /** A command is sent, and these events follow; or it is refused. */
  datatype Effect = Sent(commands: seq<Command>, events: seq<Event>) | Refused

  /** Commands that act on the call they name, and what the other side may do. */
  function EffectOf(s: System, st: Step): Effect {
    match st
    case DeclineStep(id) =>
      if id in s.records && CallState?(s, id, EarlyMedia)
      then Sent([DidDecline(id, 486)], [CallStateChanged(id, Disconnected, 486)]) else Refused
    case ForwardStep(id, uri) =>
      if id in s.records && uri != "" && CallState?(s, id, EarlyMedia)
      then Sent([DidRedirect(id, uri)], [CallStateChanged(id, Disconnected, 302)]) else Refused
    case HangupStep(id) =>
      if id in s.records && !CallState?(s, id, Disconnected)
      then Sent([DidHangup(id)], [CallStateChanged(id, Disconnected, if CallState?(s, id, Confirmed) then 200 else 487)])
      else Refused
    case HoldStep(id) =>
      if id in s.records && CallState?(s, id, Confirmed) && !s.records[id].held
      then Sent([DidHold(id)], [MediaStateChanged(id, false, true)]) else Refused
    case MuteStep(id, on) =>
      if id in s.records && CallState?(s, id, Confirmed) then Sent([DidSetMuted(id, on)], []) else Refused
    case BlindStep(id, uri) =>
      if id in s.records && CallState?(s, id, Confirmed) then Sent([DidBlindTransfer(id, uri)], []) else Refused
    case AttendedStep(id, dest) =>
      if id != dest && id in s.records && dest in s.records && CallState?(s, id, Confirmed) && CallState?(s, dest, Confirmed)
      then Sent([DidAttendedTransfer(id, dest)], []) else Refused
    case StartRecordingStep(id) =>
      if id in s.records && CallState?(s, id, Confirmed) && !s.records[id].recording
      then Sent([DidStartRecording(id)], []) else Refused
    case StopRecordingStep(id) =>
      if id in s.backend.calls && s.backend.calls[id].recording then Sent([DidStopRecording(id)], []) else Refused
    case RemoteCallStep(account, uri, name) => Sent([], [IncomingCall(account, s.backend.nextCallId, uri, name)])
    case RemoteAnswerStep(id) =>
      if CallState?(s, id, Calling) then Sent([], [CallStateChanged(id, Confirmed, 200)]) else Refused
    case RemoteHangupStep(id, code) =>
      if id in s.backend.calls && !CallState?(s, id, Disconnected)
      then Sent([], [CallStateChanged(id, Disconnected, code)]) else Refused
    case RemoteTransferStep(id, code, isFinal) =>
      if id in s.backend.calls then Sent([], [TransferStatus(id, code, isFinal)]) else Refused
    case _ => Refused
  }

  predicate Direct(st: Step) {
    st.DeclineStep? || st.ForwardStep? || st.HangupStep? || st.HoldStep? || st.MuteStep? || st.BlindStep?
    || st.AttendedStep? || st.StartRecordingStep? || st.StopRecordingStep? || st.RemoteCallStep?
    || st.RemoteAnswerStep? || st.RemoteHangupStep? || st.RemoteTransferStep?
  }

  predicate Carries(s: System, t: System, e: Effect) {
    t.timers == s.timers
    && match e
       case Sent(commands, events) =>
         t.backend.log == s.backend.log + commands && t.backend.queue == s.backend.queue + events
       case Refused => t.backend.log == s.backend.log && t.backend.queue == s.backend.queue
  }

  lemma EndCarries(s: System, st: Step)
    requires Inv(s) && Enabled(s, st) && (st.DeclineStep? || st.ForwardStep? || st.HangupStep?)
    ensures Carries(s, Next(s, st), EffectOf(s, st))
  {
    CallFacts(s, st.id);
    hide Inv;
  }

  lemma FlagCarries(s: System, st: Step)
    requires Inv(s) && Enabled(s, st) && (st.HoldStep? || st.MuteStep?)
    ensures Carries(s, Next(s, st), EffectOf(s, st))
  {
    CallFacts(s, st.id);
    hide Inv;
    assert s.backend.queue + [] == s.backend.queue;
  }

  lemma RecordingCarries(s: System, st: Step)
    requires Inv(s) && Enabled(s, st) && (st.StartRecordingStep? || st.StopRecordingStep?)
    ensures Carries(s, Next(s, st), EffectOf(s, st))
  {
    CallFacts(s, st.id);
    hide Inv;
    assert s.backend.queue + [] == s.backend.queue;
  }

  lemma ReferCarries(s: System, st: Step)
    requires Enabled(s, st) && (st.BlindStep? || st.AttendedStep?)
    ensures Carries(s, Next(s, st), EffectOf(s, st))
  {
    assert s.backend.queue + [] == s.backend.queue;
  }

  lemma RemoteCarries(s: System, st: Step)
    requires Inv(s) && Enabled(s, st)
    requires st.RemoteCallStep? || st.RemoteAnswerStep? || st.RemoteHangupStep? || st.RemoteTransferStep?
    ensures Carries(s, Next(s, st), EffectOf(s, st))
  {
    if !st.RemoteCallStep? { CallFacts(s, st.id); }
    hide Inv;
    assert s.backend.log + [] == s.backend.log;
  }

  /** Exactly these commands go out, exactly these events come in, or nothing
      happens at all. */
  lemma CommandExact(s: System, st: Step)
    requires Inv(s) && Enabled(s, st) && Direct(st)
    ensures Carries(s, Next(s, st), EffectOf(s, st))
  {
    if st.DeclineStep? || st.ForwardStep? || st.HangupStep? { EndCarries(s, st); }
    else if st.HoldStep? || st.MuteStep? { FlagCarries(s, st); }
    else if st.StartRecordingStep? || st.StopRecordingStep? { RecordingCarries(s, st); }
    else if st.BlindStep? || st.AttendedStep? { ReferCarries(s, st); }
    else { RemoteCarries(s, st); }
    hide Inv, Enabled, Next, EffectOf, Carries;
  }

  // -------------------------------------------------------------------------
  // Retries
  // -------------------------------------------------------------------------

  predicate OnHold(s: System, k: CallId) {
    CallState?(s, k, Confirmed) && s.backend.calls[k].held
  }

  lemma UnholdArms(s: System, id: CallId, n: int)
    ensures RequestUnhold(s, id, n).timers
            == if id in s.records && !OnHold(s, id) && n > 0 then s.timers + multiset{UnholdRetry(id, n - 1)} else s.timers
  {
    if id in s.records && OnHold(s, id) {
      var s1 := WithHeld(s.(backend := BackendSpec.Unhold(s.backend, id)), id, false);
      assert HoldIfTalking(s1, s1.active).timers == s.timers;
    }
  }

  lemma BridgeArms(s: System, id: CallId, other: CallId, n: int)
    ensures WireBridge(s, id, other, n).timers
            == if id in s.records && other in s.records && !BothTalking(s, id, other) && n > 0
               then s.timers + multiset{BridgeRetry(id, other, n - 1)} else s.timers
  {
  }

  /** Which timer runs after the step that did not run before: a resumption that
      the backend refuses is tried again, five times after a command, three times
      after a promotion; a bridge likewise, five times; an ended call lingers. */
  function Armed(s: System, st: Step): multiset<Timer> {
    match st
    case UnholdStep(id) => if id in s.records && !OnHold(s, id) then multiset{UnholdRetry(id, 4)} else multiset{}
    case UnholdTimer(id, n) =>
      if id in s.records && !OnHold(s, id) && n > 0 then multiset{UnholdRetry(id, n - 1)} else multiset{}
    case BridgeTimer(id, other, n) =>
      if id in s.records && other in s.records && !BothTalking(s, id, other) && n > 0
      then multiset{BridgeRetry(id, other, n - 1)} else multiset{}
    case MergeStep(id, other) =>
      if !(id in s.records && s.records[id].state == Confirmed && other in s.records && s.records[other].state == Confirmed)
      then multiset{}
      else if s.records[other].held then
        multiset{BridgeRetry(id, other, 5)} + if OnHold(s, other) then multiset{} else multiset{UnholdRetry(other, 4)}
      else if BothTalking(s, id, other) then multiset{}
      else multiset{BridgeRetry(id, other, 4)}
    case DeliverStep(pick) =>
      if s.backend.queue == [] || !CallCells.EndsRecord(s, st, s.backend.queue[0].id) then multiset{}
      else multiset{LingerExpiry(s.backend.queue[0].id)} + Promoting(s, s.backend.queue[0].id, pick)
    case _ => multiset{}
  }

  function Promoting(s: System, id: CallId, pick: CallId): multiset<Timer> {
    if id == s.active && CallCells.SomeHeld(s, id) && !OnHold(s, pick) then multiset{UnholdRetry(pick, 2)} else multiset{}
  }

  function Fired(st: Step): multiset<Timer> {
    match st
    case UnholdTimer(id, n) => multiset{UnholdRetry(id, n)}
    case BridgeTimer(id, other, n) => multiset{BridgeRetry(id, other, n)}
    case LingerTimer(id) => multiset{LingerExpiry(id)}
    case _ => multiset{}
  }

  lemma RetiredOnHold(s: System, id: CallId, code: int, k: CallId)
    requires s.backend.queue != [] && id in s.records && k != id
    ensures OnHold(CallInvariant.Retired(s, id, code).(active := k), k) <==> OnHold(s, k)
    ensures CallInvariant.Retired(s, id, code).(active := k).timers == s.timers + multiset{LingerExpiry(id)}
    ensures k in CallInvariant.Retired(s, id, code).records <==> k in s.records
  {
  }

  lemma PickRecorded(s: System, id: CallId, pick: CallId)
    requires pick in Promotable(s.records - {id})
    ensures pick in s.records && pick != id
  {
  }

  lemma PromotionArms(s: System, id: CallId, code: int, pick: CallId)
    requires s.backend.queue != [] && id in s.records && id == s.active && CallCells.SomeHeld(s, id)
    requires pick in Promotable(s.records - {id})
    ensures RequestUnhold(CallInvariant.Retired(s, id, code).(active := pick), pick, 3).timers
            == s.timers + multiset{LingerExpiry(id)} + Promoting(s, id, pick)
  {
    PickRecorded(s, id, pick);
    RetiredOnHold(s, id, code, pick);
    UnholdArms(CallInvariant.Retired(s, id, code).(active := pick), pick, 3);
    hide RequestUnhold, CallCells.SomeHeld, Promotable, OnHold, CallInvariant.Retired;
  }

  lemma RetiredArms(s: System, id: CallId, code: int)
    requires s.backend.queue != [] && id in s.records
    ensures CallInvariant.Retired(s, id, code).timers == s.timers + multiset{LingerExpiry(id)}
    ensures CallInvariant.Retired(s, id, code).records == s.records - {id}
  {
  }

  lemma Joined3(m: multiset<Timer>, a: multiset<Timer>, b: multiset<Timer>)
    ensures m + a + b == m + (a + b)
    ensures m + multiset{} == m
  {
  }

  lemma NoPromotion(s: System, id: CallId, pick: CallId)
    ensures !(id == s.active && CallCells.SomeHeld(s, id)) ==> Promoting(s, id, pick) == multiset{}
  {
    hide CallCells.SomeHeld;
  }

  lemma EndArms(s: System, pick: CallId)
    requires Inv(s) && Enabled(s, DeliverStep(pick))
    requires s.backend.queue[0].CallStateChanged? && s.backend.queue[0].state == Disconnected
    requires s.backend.queue[0].id in s.records
    ensures Deliver(s, pick).timers == s.timers + Armed(s, DeliverStep(pick))
  {
    hide Inv, Deliver, RequestUnhold, CallCells.SomeHeld, Promotable, OnHold, CallInvariant.Retired, Promoting;
    var id, code := s.backend.queue[0].id, s.backend.queue[0].code;
    CallInvariant.DisconnectShape(s, pick);
    CallCells.HeldOthers(s, id);
    RetiredArms(s, id, code);
    NoPromotion(s, id, pick);
    Joined3(s.timers, multiset{LingerExpiry(id)}, Promoting(s, id, pick));
    Joined3(multiset{LingerExpiry(id)}, multiset{}, multiset{});
    if id == s.active && CallCells.SomeHeld(s, id) { PromotionArms(s, id, code, pick); }
  }

  lemma DeliverArms(s: System, pick: CallId)
    requires Inv(s) && Enabled(s, DeliverStep(pick))
    ensures Deliver(s, pick).timers == s.timers + Armed(s, DeliverStep(pick))
  {
    hide HandleDisconnected, HangupLegs;
    match s.backend.queue[0]
    case IncomingCall(_, _, _, _) => hide Inv;
    case CallStateChanged(id, st, _) =>
      if id in s.records && st == Disconnected { EndArms(s, pick); }
      hide Inv;
    case MediaStateChanged(_, _, _) =>
    case TransferStatus(_, _, _) =>
      TransferArms(s, pick);
      hide Inv;
  }

  lemma TransferArms(s: System, pick: CallId)
    requires Inv(s) && s.backend.queue != [] && s.backend.queue[0].TransferStatus?
    ensures Deliver(s, pick).timers == s.timers
  {
    CallTheorems.TransferOutcome(s, pick);
    hide Inv, Deliver;
  }

  /** After every step the running timers are those from before, less the one that
      fired, and with just these. */
  lemma TimersExact(s: System, st: Step)
    requires Inv(s) && Enabled(s, st)
    ensures Next(s, st).timers == s.timers - Fired(st) + Armed(s, st)
  {
    if st.DeliverStep? { DeliverArms(s, st.pick); }
    else if Internal(st) { RetryArms(s, st); }
    else { CommandArms(s, st); }
    hide Inv, Enabled, Deliver, Armed;
  }

  lemma RetryArms(s: System, st: Step)
    requires Enabled(s, st) && Internal(st) && !st.DeliverStep?
    ensures Next(s, st).timers == s.timers - Fired(st) + Armed(s, st)
  {
    match st
    case UnholdTimer(id, n) => UnholdArms(Disarm(s, UnholdRetry(id, n)), id, n);
    case BridgeTimer(id, other, n) => BridgeArms(Disarm(s, BridgeRetry(id, other, n)), id, other, n);
    case LingerTimer(_) =>
    hide RequestUnhold, WireBridge, OnHold, BothTalking;
    Joined3(s.timers - Fired(st), multiset{}, multiset{});
    SameFor(s, st);
  }

  lemma SameFor(s: System, st: Step)
    ensures st.UnholdTimer? ==> (OnHold(Disarm(s, UnholdRetry(st.id, st.retries)), st.id) <==> OnHold(s, st.id))
    ensures st.BridgeTimer? ==>
              (BothTalking(Disarm(s, BridgeRetry(st.id, st.other, st.retries)), st.id, st.other) <==> BothTalking(s, st.id, st.other))
  {
  }

  lemma CommandArms(s: System, st: Step)
    requires Inv(s) && Enabled(s, st) && !Internal(st)
    ensures Next(s, st).timers == s.timers + Armed(s, st)
  {
    match st
    case UnholdStep(id) => UnholdArms(s, id, 5);
    case MergeStep(id, other) => MergeArms(s, id, other);
    case Dial(account, uri) => DialArms(s, account, uri);
    case AcceptStep(id) => SetActiveArms(s, id);
    case _ => OtherArms(s, st);
    hide Inv, RequestUnhold, MergeCalls, CallSpec.MakeCall, SetActiveCall, OnHold, BothTalking;
  }

  lemma MergeArms(s: System, id: CallId, other: CallId)
    ensures MergeCalls(s, id, other).timers == s.timers + Armed(s, MergeStep(id, other))
  {
    UnholdArms(s, other, 5);
    BridgeArms(s, id, other, 5);
    hide RequestUnhold, WireBridge, OnHold, BothTalking;
  }

  lemma SetActiveArms(s: System, id: CallId)
    ensures SetActiveCall(s, id).timers == s.timers
  {
    assert HoldIfTalking(s, s.active).timers == s.timers;
  }

  lemma DialArms(s: System, account: AccountId, uri: string)
    ensures CallSpec.MakeCall(s, account, uri).timers == s.timers
  {
    hide SetActiveCall;
    if CanDial(s, account) {
      var id := s.backend.nextCallId;
      var r := CallRecord(account, uri, "", Calling, 0, false, false, false, false);
      SetActiveArms(s.(backend := BackendSpec.MakeCall(s.backend, s.backendFor[account], uri),
                       records := if id in s.records then s.records else s.records[id := r]), id);
    }
  }

  lemma OtherArms(s: System, st: Step)
    requires Inv(s) && Enabled(s, st) && (Direct(st) || st.AccountsStep?)
    ensures Next(s, st).timers == s.timers
  {
    if Direct(st) { CommandExact(s, st); }
    hide Inv, EffectOf;
  }

  // -------------------------------------------------------------------------
  // Media
  // -------------------------------------------------------------------------

  /** Media flows in a call exactly while it is up and not on hold. */
  predicate MediaFollows(s: System, k: CallId) {
    k in s.backend.calls ==>
      (s.backend.calls[k].mediaActive <==> s.backend.calls[k].state == Confirmed && !s.backend.calls[k].held)
  }

  predicate CellMedia(c: CallCells.Cell) {
    c.call.Some? ==> (c.call.value.mediaActive <==> c.call.value.state == Confirmed && !c.call.value.held)
  }

  lemma MediaKept(c: CallCells.Cell)
    requires CellMedia(c)
    ensures CellMedia(CallCells.Yielding(c)) && CellMedia(CallCells.HangingUp(c)) && CellMedia(CallCells.Refusing(c))
    ensures c.record.Some? ==> CellMedia(CallCells.Resuming(c)) && CellMedia(CallCells.Marked(c, false)) && CellMedia(CallCells.Taking(c))
    ensures c.call.Some? && !c.call.value.held ==> CellMedia(CallCells.Answering(c))
    ensures c.call.Some? && (c.call.value.state == EarlyMedia ==> !c.call.value.held) && c.record.Some? ==>
              CellMedia(CallCells.Answering(CallCells.Taking(c)))
  {
  }

  lemma MediaByPlain(s: System, st: Step, k: CallId)
    requires Inv(s) && Enabled(s, st) && CallCells.Plain(st) && CellMedia(CallCells.CellOf(s, k))
    ensures CellMedia(CallCells.CellNext(s, st, k))
  {
    CallFacts(s, k);
    MediaKept(CallCells.CellOf(s, k));
    hide Inv, CallCells.HangingUp, CallCells.Refusing;
  }

  lemma MediaByRest(s: System, st: Step, k: CallId)
    requires Inv(s) && Enabled(s, st) && !CallCells.Plain(st) && CellMedia(CallCells.CellOf(s, k))
    ensures CellMedia(CallCells.CellNext(s, st, k))
  {
    CallFacts(s, k);
    MediaKept(CallCells.CellOf(s, k));
    hide Inv, CallCells.HangingUp, CallCells.Refusing, CallCells.Yielding, CallCells.Resuming, CallCells.Marked,
         CallCells.Taking, CallCells.Answering, CallCells.SomeHeld, CallCells.OnHold;
  }

  lemma MediaNext(s: System, st: Step, k: CallId)
    requires Inv(s) && Enabled(s, st) && MediaFollows(s, k)
    ensures MediaFollows(Next(s, st), k)
  {
    CallCells.StepOnCell(s, st, k);
    CellsAgree(s, s, k);
    CellsAgree(s, Next(s, st), k);
    if CallCells.Plain(st) { MediaByPlain(s, st, k); } else { MediaByRest(s, st, k); }
    hide Inv, Enabled, Next, CallCells.CellNext, CallCells.CellOf;
  }

  lemma {:induction false} MediaThroughout(s: System, steps: seq<Step>, k: CallId)
    requires Inv(s) && IsRun(s, steps) && MediaFollows(s, k)
    ensures MediaFollows(Run(s, steps), k)
    decreases |steps|
  {
    hide Inv, Next, Enabled, MediaFollows;
    if steps != [] {
      MediaNext(s, steps[0], k);
      CallInvariant.NextKeeps(s, steps[0]);
      MediaThroughout(Next(s, steps[0]), steps[1..], k);
    }
  }

  /** After any run media flows in exactly the calls that are up and not on hold. */
  lemma MediaIsTalk(steps: seq<Step>, k: CallId)
    requires IsRun(Initial, steps) && k in Run(Initial, steps).backend.calls
    ensures var c := Run(Initial, steps).backend.calls[k];
            c.mediaActive <==> c.state == Confirmed && !c.held
  {
    CallInvariant.InitialInv();
    MediaThroughout(Initial, steps, k);
  }
}
