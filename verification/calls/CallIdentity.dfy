/** What a step does to which calls there are: a record keeps its account, its
    address, its name and its direction from the day it is made, into the
    lingering copy. */
module CallIdentity {
  import opened SipTypes
  import opened CallSpec
  import opened CallViews
  import CallInvariant
  import BackendSpec

  /** The part of a record that never changes. */
  function Identity(r: CallRecord): CallRecord {
    CallRecord(r.accountId, r.remoteUri, r.displayName, Calling, 0, r.inbound, false, false, false)
  }

  predicate SameCalls(m: map<CallId, CallRecord>, n: map<CallId, CallRecord>) {
    m.Keys == n.Keys && forall id | id in m :: Identity(m[id]) == Identity(n[id])
  }

  predicate Within(m: map<CallId, CallRecord>, n: map<CallId, CallRecord>) {
    forall id | id in m :: id in n && m[id] == n[id]
  }

  predicate Untouched(s: System, t: System) {
    SameCalls(s.records, t.records) && t.lingering == s.lingering && t.signals == s.signals
  }

  /** What a step does to the set of calls. */
  datatype Effect =
    | Silent
    | Born(id: CallId, record: CallRecord, announced: bool)
    | Published(id: CallId, state: CallState)

  function EffectOf(s: System, st: Step): Effect
    requires Enabled(s, st)
  {
    match st
    case Dial(account, uri) =>
      if CanDial(s, account)
      then Born(s.backend.nextCallId, CallRecord(account, uri, "", Calling, 0, false, false, false, false), false)
      else Silent
    case DeliverStep(_) => DeliveryEffect(s, s.backend.queue[0])
    case _ => Silent
  }

  function DeliveryEffect(s: System, e: Event): Effect {
    match e
    case IncomingCall(account, id, uri, name) =>
      if account in s.accountFor
      then Born(id, CallRecord(s.accountFor[account], uri, name, Calling, 0, true, false, false, false), true)
      else Silent
    case CallStateChanged(id, st, _) => if id in s.records then Published(id, st) else Silent
    case _ => Silent
  }

  predicate Begins(s: System, t: System, id: CallId, r: CallRecord, announced: bool) {
    && id !in s.records && SameCalls(s.records[id := r], t.records) && Identity(r) == r
    && t.lingering == s.lingering
    && t.signals == s.signals + if announced then [CallEvent(id, Calling), IncomingCallSignal(id)] else []
  }

  predicate Publishes(s: System, t: System, id: CallId, st: CallState) {
    && id in s.records && t.signals == s.signals + [CallEvent(id, st)]
    && if st == Disconnected then
         && SameCalls(s.records - {id}, t.records)
         && id in t.lingering && Identity(t.lingering[id]) == Identity(s.records[id])
         && t.lingering == s.lingering[id := t.lingering[id]]
       else SameCalls(s.records, t.records) && t.lingering == s.lingering
  }

  predicate Follows(s: System, t: System, e: Effect) {
    match e
    case Silent => SameCalls(s.records, t.records) && Within(t.lingering, s.lingering) && t.signals == s.signals
    case Born(id, r, announced) => Begins(s, t, id, r, announced)
    case Published(id, st) => Publishes(s, t, id, st)
  }

  // -------------------------------------------------------------------------
  // The building blocks
  // -------------------------------------------------------------------------

  lemma UntouchedTrans(s: System, t: System, u: System)
    requires Untouched(s, t) && Untouched(t, u)
    ensures Untouched(s, u)
  {
  }

  lemma UntouchedIsSilent(s: System, t: System)
    requires Untouched(s, t)
    ensures Follows(s, t, Silent)
  {
  }

  lemma WithHeldUntouched(s: System, id: CallId, held: bool)
    requires id in s.records
    ensures Untouched(s, WithHeld(s, id, held))
  {
  }

  lemma HoldUntouched(s: System, id: CallId)
    ensures Untouched(s, HoldIfTalking(s, id))
  {
  }

  lemma SetActiveUntouched(s: System, id: CallId)
    ensures Untouched(s, SetActiveCall(s, id))
  {
    hide Untouched;
    Reflexive(s);
    HoldUntouched(s, s.active);
    var s1 := HoldIfTalking(s, s.active).(active := id);
    SameParts(HoldIfTalking(s, s.active), s1);
    UntouchedTrans(s, HoldIfTalking(s, s.active), s1);
    if id in s1.records && s1.records[id].held {
      var s2 := s1.(backend := BackendSpec.Unhold(s1.backend, id));
      SameParts(s1, s2);
      WithHeldUntouched(s2, id, false);
      UntouchedTrans(s1, s2, WithHeld(s2, id, false));
      UntouchedTrans(s, s1, WithHeld(s2, id, false));
    }
  }

  lemma Reflexive(s: System)
    ensures Untouched(s, s)
  {
  }

  lemma SameParts(s: System, t: System)
    requires t.records == s.records && t.lingering == s.lingering && t.signals == s.signals
    ensures Untouched(s, t)
  {
  }

  lemma UnholdUntouched(s: System, id: CallId, retries: int)
    ensures Untouched(s, RequestUnhold(s, id, retries))
  {
    hide Untouched;
    Reflexive(s);
    if id in s.records {
      WithHeldUntouched(s, id, false);
      var s1 := s.(backend := BackendSpec.Unhold(s.backend, id));
      SameParts(s, s1);
      var s2 := WithHeld(s1, id, false);
      WithHeldUntouched(s1, id, false);
      UntouchedTrans(s, s1, s2);
      HoldUntouched(s2, s2.active);
      UntouchedTrans(s, s2, HoldIfTalking(s2, s2.active));
      SameParts(HoldIfTalking(s2, s2.active), HoldIfTalking(s2, s2.active).(active := id));
      UntouchedTrans(s, HoldIfTalking(s2, s2.active), HoldIfTalking(s2, s2.active).(active := id));
      var s3 := WithHeld(s, id, false);
      SameParts(s3, s3.(timers := s.timers + multiset{UnholdRetry(id, retries - 1)}));
      UntouchedTrans(s, s3, s3.(timers := s.timers + multiset{UnholdRetry(id, retries - 1)}));
    }
  }

  lemma BridgeUntouched(s: System, id: CallId, other: CallId, retries: int)
    ensures Untouched(s, WireBridge(s, id, other, retries))
  {
    SameParts(s, WireBridge(s, id, other, retries));
  }

  lemma {:induction false} LegsUntouched(s: System, legs: seq<CallId>)
    ensures Untouched(s, HangupLegs(s, legs))
    decreases |legs|
  {
    hide Untouched;
    Reflexive(s);
    if legs != [] {
      var t := if legs[0] in s.records then s.(backend := BackendSpec.Hangup(s.backend, legs[0])) else s;
      SameParts(s, t);
      LegsUntouched(t, legs[1..]);
      UntouchedTrans(s, t, HangupLegs(t, legs[1..]));
    }
  }

  // -------------------------------------------------------------------------
  // One step
  // -------------------------------------------------------------------------

  lemma MergeUntouched(s: System, id: CallId, other: CallId)
    ensures Untouched(s, MergeCalls(s, id, other))
  {
    hide Untouched, RequestUnhold, WireBridge;
    Reflexive(s);
    UnholdUntouched(s, other, 5);
    BridgeUntouched(s, id, other, 5);
    var s1 := RequestUnhold(s, other, 5);
    SameParts(s1, s1.(timers := s1.timers + multiset{BridgeRetry(id, other, 5)}));
    UntouchedTrans(s, s1, s1.(timers := s1.timers + multiset{BridgeRetry(id, other, 5)}));
  }

  lemma RecordUntouched(s: System, t: System, id: CallId, r: CallRecord)
    requires id in s.records && t.records == s.records[id := r] && Identity(r) == Identity(s.records[id])
    requires t.lingering == s.lingering && t.signals == s.signals
    ensures Untouched(s, t)
  {
  }

  lemma HoldCallUntouched(s: System, id: CallId)
    ensures Untouched(s, HoldCall(s, id))
  {
    hide Untouched;
    Reflexive(s);
    var t := HoldCall(s, id);
    if t.records != s.records { RecordUntouched(s, t, id, s.records[id].(held := true)); } else { SameParts(s, t); }
  }

  lemma MuteUntouched(s: System, id: CallId, on: bool)
    ensures Untouched(s, MuteCall(s, id, on))
  {
    hide Untouched;
    Reflexive(s);
    var t := MuteCall(s, id, on);
    if t.records != s.records { RecordUntouched(s, t, id, s.records[id].(muted := on)); } else { SameParts(s, t); }
  }

  lemma StartUntouched(s: System, id: CallId)
    ensures Untouched(s, StartRecordingCall(s, id))
  {
    hide Untouched;
    Reflexive(s);
    var t := StartRecordingCall(s, id);
    if t.records != s.records { RecordUntouched(s, t, id, s.records[id].(recording := true)); } else { SameParts(s, t); }
  }

  lemma StopUntouched(s: System, id: CallId)
    ensures Untouched(s, StopRecordingCall(s, id))
  {
    hide Untouched;
    Reflexive(s);
    var t := StopRecordingCall(s, id);
    if t.records != s.records { RecordUntouched(s, t, id, s.records[id].(recording := false)); } else { SameParts(s, t); }
  }

  lemma OutsideUntouched(s: System, st: Step)
    requires Enabled(s, st)
    requires st.RemoteCallStep? || st.RemoteAnswerStep? || st.RemoteHangupStep? || st.RemoteTransferStep? || st.AccountsStep?
    ensures Untouched(s, Next(s, st))
  {
    hide Untouched;
    SameParts(s, Next(s, st));
  }

  lemma TransferUntouched(s: System, id: CallId, uri: string, dest: CallId)
    ensures Untouched(s, DeclineCall(s, id)) && Untouched(s, ForwardCall(s, id, uri)) && Untouched(s, HangupCall(s, id))
    ensures Untouched(s, BlindTransferCall(s, id, uri)) && Untouched(s, AttendedTransferCalls(s, id, dest))
  {
    hide Untouched;
    SameParts(s, DeclineCall(s, id));
    SameParts(s, ForwardCall(s, id, uri));
    SameParts(s, HangupCall(s, id));
    SameParts(s, BlindTransferCall(s, id, uri));
    SameParts(s, AttendedTransferCalls(s, id, dest));
  }

  lemma CommandUntouched(s: System, st: Step)
    requires Enabled(s, st) && !st.Dial? && !Internal(st)
    ensures Untouched(s, Next(s, st))
  {
    hide Untouched, Accept, DeclineCall, ForwardCall, HoldCall, RequestUnhold, MergeCalls, BlindTransferCall,
         AttendedTransferCalls, HangupCall, MuteCall, StartRecordingCall, StopRecordingCall;
    match st
    case AcceptStep(id) => AcceptUntouched(s, id);
    case DeclineStep(id) => TransferUntouched(s, id, "", id);
    case ForwardStep(id, uri) => TransferUntouched(s, id, uri, id);
    case HoldStep(id) => HoldCallUntouched(s, id);
    case UnholdStep(id) => UnholdUntouched(s, id, 5);
    case MergeStep(id, other) => MergeUntouched(s, id, other);
    case BlindStep(id, uri) => TransferUntouched(s, id, uri, id);
    case AttendedStep(id, dest) => TransferUntouched(s, id, "", dest);
    case HangupStep(id) => TransferUntouched(s, id, "", id);
    case MuteStep(id, on) => MuteUntouched(s, id, on);
    case StartRecordingStep(id) => StartUntouched(s, id);
    case StopRecordingStep(id) => StopUntouched(s, id);
    case _ => OutsideUntouched(s, st);
  }

  lemma AcceptUntouched(s: System, id: CallId)
    ensures Untouched(s, Accept(s, id))
  {
    hide Untouched, SetActiveCall;
    Reflexive(s);
    SetActiveUntouched(s, id);
    var s1 := SetActiveCall(s, id);
    SameParts(s1, s1.(backend := BackendSpec.Answer(s1.backend, id)));
    UntouchedTrans(s, s1, s1.(backend := BackendSpec.Answer(s1.backend, id)));
  }

  lemma TimerSilent(s: System, st: Step)
    requires Enabled(s, st) && (st.UnholdTimer? || st.BridgeTimer? || st.LingerTimer?)
    ensures Follows(s, Next(s, st), Silent)
  {
    hide Untouched, RequestUnhold, WireBridge;
    match st
    case UnholdTimer(id, n) =>
      var t := Disarm(s, UnholdRetry(id, n));
      SameParts(s, t);
      UnholdUntouched(t, id, n);
      UntouchedTrans(s, t, Next(s, st));
      UntouchedIsSilent(s, Next(s, st));
    case BridgeTimer(id, other, n) =>
      var t := Disarm(s, BridgeRetry(id, other, n));
      SameParts(s, t);
      BridgeUntouched(t, id, other, n);
      UntouchedTrans(s, t, Next(s, st));
      UntouchedIsSilent(s, Next(s, st));
    case LingerTimer(id) =>
  }

  lemma DialBegins(s: System, account: AccountId, uri: string)
    requires Inv(s) && CanDial(s, account)
    ensures Begins(s, CallSpec.MakeCall(s, account, uri), s.backend.nextCallId,
                   CallRecord(account, uri, "", Calling, 0, false, false, false, false), false)
  {
    hide Inv, SetActiveCall;
    CallInvariant.NextIdUnrecorded(s);
    var id := s.backend.nextCallId;
    var r := CallRecord(account, uri, "", Calling, 0, false, false, false, false);
    SetActiveUntouched(s.(backend := BackendSpec.MakeCall(s.backend, s.backendFor[account], uri),
                          records := s.records[id := r]), id);
    assert s.signals + [] == s.signals;
  }

  lemma AdoptionBegins(s: System, pick: CallId)
    requires Inv(s) && s.backend.queue != [] && s.backend.queue[0].IncomingCall?
    requires s.backend.queue[0].account in s.accountFor
    ensures Follows(s, Deliver(s, pick), DeliveryEffect(s, s.backend.queue[0]))
  {
    CallInvariant.AnnouncePending(s);
    hide Inv;
  }

  lemma EndPublishes(s: System, pick: CallId)
    requires s.backend.queue != [] && s.backend.queue[0].CallStateChanged?
    requires s.backend.queue[0].state == Disconnected && s.backend.queue[0].id in s.records
    ensures Publishes(s, Deliver(s, pick), s.backend.queue[0].id, Disconnected)
  {
    hide RequestUnhold;
    CallInvariant.DisconnectShape(s, pick);
    var t := CallInvariant.Retired(s, s.backend.queue[0].id, s.backend.queue[0].code);
    UnholdUntouched(t.(active := pick), pick, 3);
  }

  lemma DeliveryFollows(s: System, pick: CallId)
    requires Inv(s) && DeliverEnabled(s, pick)
    ensures Follows(s, Deliver(s, pick), DeliveryEffect(s, s.backend.queue[0]))
  {
    hide Inv, HandleDisconnected, HangupLegs;
    match s.backend.queue[0]
    case IncomingCall(account, _, _, _) =>
      if account in s.accountFor { AdoptionBegins(s, pick); }
    case CallStateChanged(id, st, _) =>
      if id in s.records && st == Disconnected { EndPublishes(s, pick); }
    case MediaStateChanged(_, _, _) =>
    case TransferStatus(id, code, isFinal) =>
      var t := CallInvariant.Popped(s).(transfers := if isFinal then s.transfers - {id} else s.transfers);
      SameParts(s, t);
      LegsUntouched(t, LegsToHangup(s.transfers, id, code, isFinal));
      UntouchedTrans(s, t, Deliver(s, pick));
  }

  /** Records come about by a dial or an adoption and go with the publication of
      their end; nothing else is ever published, and nobody's identity changes. */
  lemma StepFollows(s: System, st: Step)
    requires Inv(s) && Enabled(s, st)
    ensures Follows(s, Next(s, st), EffectOf(s, st))
  {
    hide Inv, Follows, Untouched, CallSpec.MakeCall, Deliver, DeliveryEffect;
    match st
    case Dial(account, uri) =>
      if CanDial(s, account) {
        DialBegins(s, account, uri);
        FollowsBirth(s, Next(s, st), EffectOf(s, st));
      } else {
        NoDial(s, account, uri);
      }
    case DeliverStep(pick) => DeliveryFollows(s, pick);
    case UnholdTimer(_, _) => TimerSilent(s, st);
    case BridgeTimer(_, _, _) => TimerSilent(s, st);
    case LingerTimer(_) => TimerSilent(s, st);
    case _ =>
      CommandUntouched(s, st);
      UntouchedIsSilent(s, Next(s, st));
  }

  lemma FollowsBirth(s: System, t: System, e: Effect)
    requires e.Born? && Begins(s, t, e.id, e.record, e.announced)
    ensures Follows(s, t, e)
  {
  }

  lemma NoDial(s: System, account: AccountId, uri: string)
    requires !CanDial(s, account)
    ensures Follows(s, CallSpec.MakeCall(s, account, uri), Silent)
  {
  }

  /** Nothing has ever been published about a call that is about to begin. */
  lemma BornUnheardOf(s: System, st: Step, i: nat)
    requires Inv(s) && Enabled(s, st) && EffectOf(s, st).Born? && i < |s.signals| && s.signals[i].CallEvent?
    ensures s.signals[i].id != EffectOf(s, st).id
  {
    var id := EffectOf(s, st).id;
    assert Observed(s.signals, id) == [] by {
      if st.Dial? {
        assert ViewOk(s, id);
      } else {
        CallInvariant.AnnouncePending(s);
      }
    }
    if s.signals[i].id == id { SomethingObserved(s.signals, i); }
  }

  lemma {:induction false} SomethingObserved(xs: seq<Signal>, i: nat)
    requires i < |xs| && xs[i].CallEvent?
    ensures Observed(xs, xs[i].id) != []
    decreases |xs|
  {
    if i < |xs| - 1 { SomethingObserved(xs[..|xs| - 1], i); }
  }
}
