/** The deterministic in-memory backend as functions on its state. */
module BackendSpec {
  import opened SipTypes

  datatype Backend = Backend(
    accounts: set<BackendAccountId>,
    nextCallId: CallId,
    calls: map<CallId, FakeCall>,
    queue: seq<Event>,
    log: seq<Command>)

  predicate InState(b: Backend, id: CallId, st: CallState) {
    id in b.calls && b.calls[id].state == st
  }

  /** An inbound call that still rings: the guard of answer, decline and redirect. */
  predicate Ringing(b: Backend, id: CallId) {
    InState(b, id, EarlyMedia) && b.calls[id].inbound
  }

  predicate CanHold(b: Backend, id: CallId) {
    InState(b, id, Confirmed) && !b.calls[id].held
  }

  predicate CanUnhold(b: Backend, id: CallId) {
    InState(b, id, Confirmed) && b.calls[id].held
  }

  predicate CanMakeCall(b: Backend, account: BackendAccountId) {
    account in b.accounts
  }

  predicate BothConfirmed(b: Backend, id: CallId, other: CallId) {
    InState(b, id, Confirmed) && InState(b, other, Confirmed)
  }

  /** Replaces the call `id`, posts `events` and appends `commands` to the log. */
  function Update(b: Backend, id: CallId, c: FakeCall, events: seq<Event>, commands: seq<Command>): Backend {
    b.(calls := b.calls[id := c], queue := b.queue + events, log := b.log + commands)
  }

  function MakeCall(b: Backend, account: BackendAccountId, uri: string): Backend
    requires CanMakeCall(b, account)
  {
    var id := b.nextCallId;
    Update(b, id, FakeCall(account, uri, Calling, false, false, false, false, false),
           [CallStateChanged(id, Calling, 0)], [DidMakeCall(id, uri)]).(nextCallId := id + 1)
  }

  function RemoteCall(b: Backend, account: BackendAccountId, uri: string, name: string): Backend
    requires CanMakeCall(b, account)
  {
    var id := b.nextCallId;
    Update(b, id, FakeCall(account, uri, EarlyMedia, true, false, false, false, false),
           [IncomingCall(account, id, uri, name)], []).(nextCallId := id + 1)
  }

  function Answer(b: Backend, id: CallId): Backend {
    if Ringing(b, id) then
      Update(b, id, b.calls[id].(state := Confirmed, mediaActive := true),
             [CallStateChanged(id, Confirmed, 200)], [DidAnswer(id)])
    else b
  }

  function RemoteAnswer(b: Backend, id: CallId): Backend {
    if InState(b, id, Calling) && !b.calls[id].inbound then
      Update(b, id, b.calls[id].(state := Confirmed, mediaActive := true),
             [CallStateChanged(id, Confirmed, 200)], [])
    else b
  }

  function Decline(b: Backend, id: CallId, code: int): Backend {
    if Ringing(b, id) then
      Update(b, id, b.calls[id].(state := Disconnected),
             [CallStateChanged(id, Disconnected, code)], [DidDecline(id, code)])
    else b
  }

  function Redirect(b: Backend, id: CallId, uri: string): Backend {
    if Ringing(b, id) then
      Update(b, id, b.calls[id].(state := Disconnected),
             [CallStateChanged(id, Disconnected, 302)], [DidRedirect(id, uri)])
    else b
  }

  function Hangup(b: Backend, id: CallId): Backend {
    if id in b.calls && b.calls[id].state != Disconnected then
      var code := if b.calls[id].state == Confirmed then 200 else 487;
      Update(b, id, b.calls[id].(state := Disconnected, mediaActive := false),
             [CallStateChanged(id, Disconnected, code)], [DidHangup(id)])
    else b
  }

  function RemoteHangup(b: Backend, id: CallId, code: int): Backend {
    if id in b.calls && b.calls[id].state != Disconnected then
      Update(b, id, b.calls[id].(state := Disconnected, mediaActive := false),
             [CallStateChanged(id, Disconnected, code)], [])
    else b
  }

  function Hold(b: Backend, id: CallId): Backend {
    if CanHold(b, id) then
      Update(b, id, b.calls[id].(held := true, mediaActive := false),
             [MediaStateChanged(id, false, true)], [DidHold(id)])
    else b
  }

  function Unhold(b: Backend, id: CallId): Backend {
    if CanUnhold(b, id) then
      Update(b, id, b.calls[id].(held := false, mediaActive := true),
             [MediaStateChanged(id, true, false)], [DidUnhold(id)])
    else b
  }

  function SetMuted(b: Backend, id: CallId, on: bool): Backend {
    if InState(b, id, Confirmed) then
      Update(b, id, b.calls[id].(muted := on), [], [DidSetMuted(id, on)])
    else b
  }

  function BlindTransfer(b: Backend, id: CallId, uri: string): Backend {
    if InState(b, id, Confirmed) then b.(log := b.log + [DidBlindTransfer(id, uri)]) else b
  }

  function AttendedTransfer(b: Backend, id: CallId, other: CallId): Backend {
    if BothConfirmed(b, id, other) then b.(log := b.log + [DidAttendedTransfer(id, other)]) else b
  }

  function Bridge(b: Backend, id: CallId, other: CallId): Backend {
    if BothConfirmed(b, id, other) then b.(log := b.log + [DidBridge(id, other)]) else b
  }

  predicate CanStartRecording(b: Backend, id: CallId) {
    InState(b, id, Confirmed) && !b.calls[id].recording
  }

  function StartRecording(b: Backend, id: CallId): Backend {
    if CanStartRecording(b, id) then
      Update(b, id, b.calls[id].(recording := true), [], [DidStartRecording(id)])
    else b
  }

  predicate CanStopRecording(b: Backend, id: CallId) {
    id in b.calls && b.calls[id].recording
  }

  function StopRecording(b: Backend, id: CallId): Backend {
    if CanStopRecording(b, id) then
      Update(b, id, b.calls[id].(recording := false), [], [DidStopRecording(id)])
    else b
  }

  function ReleaseCall(b: Backend, id: CallId): Backend {
    if id in b.calls then b.(calls := b.calls - {id}, log := b.log + [DidReleaseCall(id)]) else b
  }

  function RemoteTransferStatus(b: Backend, id: CallId, code: int, isFinal: bool): Backend {
    if id in b.calls then b.(queue := b.queue + [TransferStatus(id, code, isFinal)]) else b
  }
}
