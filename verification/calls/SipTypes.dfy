/** Vocabulary shared by the call layer and the backend boundary. */
module SipTypes {
  type AccountId = int          // domain account id (a database row id)
  type BackendAccountId = int   // account id minted by the backend
  type CallId = int             // call id minted by the backend

  const INVALID_ID: int := -1

  datatype Option<+T> = None | Some(value: T)

  datatype CallState = Idle | Calling | EarlyMedia | Confirmed | Disconnected

  /** One lambda posted to the listener. The backend posts "Confirmed" and the
      media notification that accompanies it in one lambda; the call layer
      ignores media notifications, so one event stands for both. */
  datatype Event =
    | IncomingCall(account: BackendAccountId, id: CallId, uri: string, name: string)
    | CallStateChanged(id: CallId, state: CallState, code: int)
    | MediaStateChanged(id: CallId, active: bool, onHold: bool)
    | TransferStatus(id: CallId, code: int, isFinal: bool)

  /** One line of the backend's command log. */
  datatype Command =
    | DidMakeCall(id: CallId, uri: string)
    | DidAnswer(id: CallId)
    | DidDecline(id: CallId, code: int)
    | DidRedirect(id: CallId, uri: string)
    | DidHangup(id: CallId)
    | DidHold(id: CallId)
    | DidUnhold(id: CallId)
    | DidSetMuted(id: CallId, on: bool)
    | DidBlindTransfer(id: CallId, uri: string)
    | DidAttendedTransfer(id: CallId, other: CallId)
    | DidBridge(id: CallId, other: CallId)
    | DidStartRecording(id: CallId)
    | DidStopRecording(id: CallId)
    | DidReleaseCall(id: CallId)

  datatype FakeCall = FakeCall(
    accountId: BackendAccountId,
    remoteUri: string,
    state: CallState,
    inbound: bool,
    held: bool,
    muted: bool,
    mediaActive: bool,
    recording: bool)

  /** What the manager remembers about a live (or lingering) call. */
  datatype CallRecord = CallRecord(
    accountId: AccountId,
    remoteUri: string,
    displayName: string,
    state: CallState,
    lastStatusCode: int,
    inbound: bool,
    held: bool,
    muted: bool,
    recording: bool)

  datatype CallDirection = Outbound | Inbound

  /** One call as the user interface gets to see it. */
  datatype CallEntry = CallEntry(
    id: CallId,
    accountId: AccountId,
    remoteUri: string,
    remoteDisplayName: string,
    state: CallState,
    held: bool,
    muted: bool,
    recording: bool,
    direction: CallDirection)

  function EntryOf(id: CallId, r: CallRecord): CallEntry {
    CallEntry(id, r.accountId, r.remoteUri, r.displayName, r.state, r.held, r.muted, r.recording,
              if r.inbound then Inbound else Outbound)
  }

  /** No two entries are about the same call. */
  ghost predicate DistinctIds(entries: seq<CallEntry>) {
    forall i, j | 0 <= i < j < |entries| :: entries[i].id != entries[j].id
  }

  /** A one-shot timer of the manager. `retries` is the retry budget its
      handler will be called with. */
  datatype Timer =
    | UnholdRetry(id: CallId, retries: int)
    | BridgeRetry(id: CallId, other: CallId, retries: int)
    | LingerExpiry(id: CallId)

  /** A signal the manager emitted. */
  datatype Signal =
    | CallEvent(id: CallId, state: CallState)
    | IncomingCallSignal(id: CallId)
}
