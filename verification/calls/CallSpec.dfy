/** The call manager over the backend as one transition system. */
module CallSpec {
  import opened SipTypes
  import opened BackendSpec

  /** Manager state, the backend it drives and the timers it has armed.
      `backendFor` and `accountFor` are what the account layer answers to
      "which backend account" and "whose backend account"; the account layer
      may change them at any time. */
  datatype System = System(
    backend: Backend,
    records: map<CallId, CallRecord>,
    lingering: map<CallId, CallRecord>,
    transfers: map<CallId, seq<CallId>>,
    active: CallId,
    timers: multiset<Timer>,
    signals: seq<Signal>,
    backendFor: map<AccountId, BackendAccountId>,
    accountFor: map<BackendAccountId, AccountId>)

  const Initial := System(Backend({}, 1, map[], [], []), map[], map[], map[], INVALID_ID, multiset{}, [], map[], map[])

  // -------------------------------------------------------------------------
  // Building blocks
  // -------------------------------------------------------------------------

  predicate Talking(s: System, id: CallId) {
    id in s.records && s.records[id].state == Confirmed && !s.records[id].held
  }

  function WithHeld(s: System, id: CallId, held: bool): System
    requires id in s.records
  {
    s.(records := s.records[id := s.records[id].(held := held)])
  }

  /** Holds `id` if it is a confirmed call in talking state. The flag is set
      whatever the backend answers. */
  function HoldIfTalking(s: System, id: CallId): System {
    if id != INVALID_ID && Talking(s, id)
    then WithHeld(s.(backend := Hold(s.backend, id)), id, true)
    else s
  }

  function SetActiveCall(s: System, id: CallId): System {
    if s.active == id then s
    else
      var s1 := HoldIfTalking(s, s.active).(active := id);
      if id != INVALID_ID && id in s1.records && s1.records[id].held
      then WithHeld(s1.(backend := Unhold(s1.backend, id)), id, false)
      else s1
  }

  predicate UnholdAccepted(s: System, id: CallId, retries: int) {
    id in s.records && (CanUnhold(s.backend, id) || retries > 0)
  }

  function RequestUnhold(s: System, id: CallId, retries: int): System {
    if id !in s.records then s
    else if !CanUnhold(s.backend, id) then
      if retries > 0
      then WithHeld(s, id, false).(timers := s.timers + multiset{UnholdRetry(id, retries - 1)})
      else s
    else
      var s1 := WithHeld(s.(backend := Unhold(s.backend, id)), id, false);
      if s1.active != id then HoldIfTalking(s1, s1.active).(active := id) else s1
  }

  predicate BridgeAccepted(s: System, id: CallId, other: CallId, retries: int) {
    id in s.records && other in s.records && (BothConfirmed(s.backend, id, other) || retries > 0)
  }

  function WireBridge(s: System, id: CallId, other: CallId, retries: int): System {
    if id !in s.records || other !in s.records then s
    else if BothConfirmed(s.backend, id, other) then s.(backend := Bridge(s.backend, id, other))
    else if retries <= 0 then s
    else s.(timers := s.timers + multiset{BridgeRetry(id, other, retries - 1)})
  }

  /** The held, confirmed calls one of which takes over when the active call
      ends. Which one depends on hash-map order, hence the `pick` below. */
  function Promotable(records: map<CallId, CallRecord>): set<CallId> {
    set k | k in records && records[k].held && records[k].state == Confirmed
  }

  predicate PickOk(s: System, id: CallId, pick: CallId) {
    var others := Promotable(s.records - {id});
    others != {} ==> pick in others
  }

  function HandleDisconnected(s: System, id: CallId, pick: CallId): System
    requires id in s.records
  {
    var s1 := s.(records := s.records - {id},
                 transfers := s.transfers - {id},
                 backend := ReleaseCall(s.backend, id),
                 lingering := s.lingering[id := s.records[id].(state := Disconnected)]);
    var s2 := if id != s.active then s1
              else if Promotable(s1.records) == {} then s1.(active := INVALID_ID)
              else RequestUnhold(s1.(active := pick), pick, 3);
    s2.(timers := s2.timers + multiset{LingerExpiry(id)})
  }

  function Notify(s: System, id: CallId, st: CallState): System {
    s.(signals := s.signals + [CallEvent(id, st)])
  }

  function OnCallState(s: System, id: CallId, st: CallState, code: int, pick: CallId): System {
    if id !in s.records then s
    else if st == Disconnected then
      HandleDisconnected(
        Notify(s.(records := s.records[id := s.records[id].(state := st, lastStatusCode := code)]), id, st), id, pick)
    else
      Notify(s.(records := s.records[id := s.records[id].(state := st)]), id, st)
  }

  function OnIncomingCall(s: System, account: BackendAccountId, id: CallId, uri: string, name: string): System {
    if account !in s.accountFor then
      s.(backend := ReleaseCall(Decline(s.backend, id, 480), id))
    else
      // m_records.emplace leaves an existing entry alone.
      var r := CallRecord(s.accountFor[account], uri, name, Calling, 0, true, false, false, false);
      s.(records := if id in s.records then s.records else s.records[id := r],
         signals := s.signals + [CallEvent(id, Calling), IncomingCallSignal(id)])
  }

  predicate FinalSuccess(code: int, isFinal: bool) {
    isFinal && 200 <= code < 300
  }

  /** The legs a transfer-progress NOTIFY makes the manager hang up. */
  function LegsToHangup(transfers: map<CallId, seq<CallId>>, id: CallId, code: int, isFinal: bool): seq<CallId> {
    if FinalSuccess(code, isFinal) && id in transfers then transfers[id] else []
  }

  function HangupLegs(s: System, legs: seq<CallId>): System
    decreases |legs|
  {
    if legs == [] then s
    else if legs[0] in s.records then HangupLegs(s.(backend := Hangup(s.backend, legs[0])), legs[1..])
    else HangupLegs(s, legs[1..])
  }

  function OnTransferStatus(s: System, id: CallId, code: int, isFinal: bool): System {
    var legs := LegsToHangup(s.transfers, id, code, isFinal);
    HangupLegs(s.(transfers := if isFinal then s.transfers - {id} else s.transfers), legs)
  }

  function OnEvent(s: System, e: Event, pick: CallId): System {
    match e
    case IncomingCall(account, id, uri, name) => OnIncomingCall(s, account, id, uri, name)
    case CallStateChanged(id, st, code) => OnCallState(s, id, st, code, pick)
    case MediaStateChanged(_, _, _) => s
    case TransferStatus(id, code, isFinal) => OnTransferStatus(s, id, code, isFinal)
  }

  /** Takes the oldest event off the queue and hands it to the manager. */
  function Deliver(s: System, pick: CallId): System
    requires s.backend.queue != []
  {
    OnEvent(s.(backend := s.backend.(queue := s.backend.queue[1..])), s.backend.queue[0], pick)
  }

  // -------------------------------------------------------------------------
  // User commands
  // -------------------------------------------------------------------------

  predicate CanDial(s: System, account: AccountId) {
    account in s.backendFor && CanMakeCall(s.backend, s.backendFor[account])
  }

  function MakeCall(s: System, account: AccountId, uri: string): System {
    if !CanDial(s, account) then s
    else
      var id := s.backend.nextCallId;
      var r := CallRecord(account, uri, "", Calling, 0, false, false, false, false);
      SetActiveCall(s.(backend := BackendSpec.MakeCall(s.backend, s.backendFor[account], uri),
                       records := if id in s.records then s.records else s.records[id := r]), id)
  }

  function Accept(s: System, id: CallId): System {
    if id !in s.records then s
    else
      var s1 := SetActiveCall(s, id);
      s1.(backend := Answer(s1.backend, id))
  }

  function DeclineCall(s: System, id: CallId): System {
    if id in s.records then s.(backend := Decline(s.backend, id, 486)) else s
  }

  function ForwardCall(s: System, id: CallId, uri: string): System {
    if id in s.records && uri != "" then s.(backend := Redirect(s.backend, id, uri)) else s
  }

  function HoldCall(s: System, id: CallId): System {
    if id in s.records && CanHold(s.backend, id)
    then WithHeld(s.(backend := Hold(s.backend, id)), id, true)
    else s
  }

  function MergeCalls(s: System, id: CallId, other: CallId): System {
    if id !in s.records || other !in s.records
       || s.records[id].state != Confirmed || s.records[other].state != Confirmed then s
    else if s.records[other].held then
      // requestUnhold with a positive budget always accepts
      var s1 := RequestUnhold(s, other, 5);
      s1.(timers := s1.timers + multiset{BridgeRetry(id, other, 5)})
    else WireBridge(s, id, other, 5)
  }

  function BlindTransferCall(s: System, id: CallId, uri: string): System {
    if id !in s.records then s
    else if InState(s.backend, id, Confirmed) then
      s.(transfers := s.transfers[id := [id]], backend := BlindTransfer(s.backend, id, uri))
    else s.(transfers := s.transfers - {id})
  }

  function AttendedTransferCalls(s: System, id: CallId, dest: CallId): System {
    if id == dest || id !in s.records || dest !in s.records then s
    else if BothConfirmed(s.backend, id, dest) then
      s.(transfers := s.transfers[id := [id, dest]], backend := AttendedTransfer(s.backend, id, dest))
    else s.(transfers := s.transfers - {id})
  }

  function HangupCall(s: System, id: CallId): System {
    if id in s.records then s.(backend := Hangup(s.backend, id)) else s
  }

  function MuteCall(s: System, id: CallId, on: bool): System {
    if id in s.records && InState(s.backend, id, Confirmed)
    then s.(backend := SetMuted(s.backend, id, on), records := s.records[id := s.records[id].(muted := on)])
    else s
  }

  function StartRecordingCall(s: System, id: CallId): System {
    if id in s.records && CanStartRecording(s.backend, id)
    then s.(backend := StartRecording(s.backend, id), records := s.records[id := s.records[id].(recording := true)])
    else s
  }

  /** The only command that asks the backend before it looks for the record. */
  function StopRecordingCall(s: System, id: CallId): System {
    if !CanStopRecording(s.backend, id) then s
    else
      var s1 := s.(backend := StopRecording(s.backend, id));
      if id in s1.records then s1.(records := s1.records[id := s1.records[id].(recording := false)]) else s1
  }

  // -------------------------------------------------------------------------
  // Steps and runs
  // -------------------------------------------------------------------------

  datatype Step =
    // user commands
    | Dial(account: AccountId, uri: string)
    | AcceptStep(id: CallId)
    | DeclineStep(id: CallId)
    | ForwardStep(id: CallId, uri: string)
    | HoldStep(id: CallId)
    | UnholdStep(id: CallId)
    | MergeStep(id: CallId, other: CallId)
    | BlindStep(id: CallId, uri: string)
    | AttendedStep(id: CallId, dest: CallId)
    | HangupStep(id: CallId)
    | MuteStep(id: CallId, on: bool)
    | StartRecordingStep(id: CallId)
    | StopRecordingStep(id: CallId)
    // the remote side
    | RemoteCallStep(account: BackendAccountId, uri: string, name: string)
    | RemoteAnswerStep(id: CallId)
    | RemoteHangupStep(id: CallId, code: int)
    | RemoteTransferStep(id: CallId, code: int, isFinal: bool)
    // the account layer
    | AccountsStep(accounts: set<BackendAccountId>, backendFor: map<AccountId, BackendAccountId>,
                   accountFor: map<BackendAccountId, AccountId>)
    // what the event loop does by itself
    | DeliverStep(pick: CallId)
    | UnholdTimer(id: CallId, retries: int)
    | BridgeTimer(id: CallId, other: CallId, retries: int)
    | LingerTimer(id: CallId)

  predicate Internal(st: Step) {
    st.DeliverStep? || st.UnholdTimer? || st.BridgeTimer? || st.LingerTimer?
  }

  /** The pick a delivery may use: free unless a held call must be promoted. */
  predicate DeliverEnabled(s: System, pick: CallId) {
    s.backend.queue != [] &&
    match s.backend.queue[0]
    case CallStateChanged(id, Disconnected, _) => id in s.records && id == s.active ==> PickOk(s, id, pick)
    case _ => true
  }

  predicate Enabled(s: System, st: Step) {
    match st
    case RemoteCallStep(account, _, _) => CanMakeCall(s.backend, account)
    case DeliverStep(pick) => DeliverEnabled(s, pick)
    case UnholdTimer(id, n) => UnholdRetry(id, n) in s.timers
    case BridgeTimer(id, other, n) => BridgeRetry(id, other, n) in s.timers
    case LingerTimer(id) => LingerExpiry(id) in s.timers
    case _ => true
  }

  function Disarm(s: System, t: Timer): System {
    s.(timers := s.timers - multiset{t})
  }

  function Next(s: System, st: Step): System
    requires Enabled(s, st)
  {
    match st
    case Dial(account, uri) => MakeCall(s, account, uri)
    case AcceptStep(id) => Accept(s, id)
    case DeclineStep(id) => DeclineCall(s, id)
    case ForwardStep(id, uri) => ForwardCall(s, id, uri)
    case HoldStep(id) => HoldCall(s, id)
    case UnholdStep(id) => RequestUnhold(s, id, 5)
    case MergeStep(id, other) => MergeCalls(s, id, other)
    case BlindStep(id, uri) => BlindTransferCall(s, id, uri)
    case AttendedStep(id, dest) => AttendedTransferCalls(s, id, dest)
    case HangupStep(id) => HangupCall(s, id)
    case MuteStep(id, on) => MuteCall(s, id, on)
    case StartRecordingStep(id) => StartRecordingCall(s, id)
    case StopRecordingStep(id) => StopRecordingCall(s, id)
    case RemoteCallStep(account, uri, name) => s.(backend := RemoteCall(s.backend, account, uri, name))
    case RemoteAnswerStep(id) => s.(backend := RemoteAnswer(s.backend, id))
    case RemoteHangupStep(id, code) => s.(backend := RemoteHangup(s.backend, id, code))
    case RemoteTransferStep(id, code, isFinal) => s.(backend := RemoteTransferStatus(s.backend, id, code, isFinal))
    case AccountsStep(accounts, backendFor, accountFor) =>
      s.(backend := s.backend.(accounts := accounts), backendFor := backendFor, accountFor := accountFor)
    case DeliverStep(pick) => Deliver(s, pick)
    case UnholdTimer(id, n) => RequestUnhold(Disarm(s, UnholdRetry(id, n)), id, n)
    case BridgeTimer(id, other, n) => WireBridge(Disarm(s, BridgeRetry(id, other, n)), id, other, n)
    case LingerTimer(id) => Disarm(s, LingerExpiry(id)).(lingering := s.lingering - {id})
  }

  /** The run of `steps` from `s`: every step is enabled when it is taken. */
  ghost predicate IsRun(s: System, steps: seq<Step>)
    decreases |steps|
  {
    steps == [] || (Enabled(s, steps[0]) && IsRun(Next(s, steps[0]), steps[1..]))
  }

  function Run(s: System, steps: seq<Step>): System
    requires IsRun(s, steps)
    decreases |steps|
  {
    if steps == [] then s else Run(Next(s, steps[0]), steps[1..])
  }
}
