/** Call sessions and the history rows they turn into. */
module SessionSpec {
  import opened SipTypes

  const INVALID_ACCOUNT: AccountId := -1

  datatype Session = Session(
    accountId: AccountId,
    remoteUri: string,
    dialedTarget: string,
    displayName: string,
    direction: CallDirection,
    firstSeenAt: int,
    startedAt: int,
    connected: bool,
    hasDirection: bool)

  const NEW_SESSION := Session(INVALID_ACCOUNT, "", "", "", Outbound, 0, 0, false, false)

  datatype HistoryEntry = HistoryEntry(
    accountId: AccountId,
    direction: CallDirection,
    remoteUri: string,
    displayName: string,
    startedAt: int,
    durationMs: int)

  type Sessions = map<CallId, Session>

  function At(m: Sessions, id: CallId): Session {
    if id in m then m[id] else NEW_SESSION
  }

  function Seen(s: Session, now: int): Session {
    if s.firstSeenAt == 0 then s.(firstSeenAt := now) else s
  }

  function Dialled(s: Session, account: AccountId, uri: string, now: int): Session {
    Seen(s.(accountId := account, remoteUri := uri, dialedTarget := uri, direction := Outbound, hasDirection := true), now)
  }

  predicate HasDetails(e: CallEntry) {
    e.accountId != INVALID_ACCOUNT || e.remoteUri != "" || e.remoteDisplayName != ""
  }

  /** The entry's known fields replace those of the session. */
  function Upserted(s: Session, e: CallEntry, now: int): Session {
    var t := Seen(s, now);
    t.(accountId := if e.accountId != INVALID_ACCOUNT then e.accountId else t.accountId,
       remoteUri := if e.remoteUri != "" then e.remoteUri else t.remoteUri,
       displayName := if e.remoteDisplayName != "" then e.remoteDisplayName else t.displayName,
       direction := if HasDetails(e) || !t.hasDirection then e.direction else t.direction,
       hasDirection := true)
  }

  function NoteOutbound(m: Sessions, id: CallId, account: AccountId, uri: string, now: int): Sessions {
    m[id := Dialled(At(m, id), account, uri, now)]
  }

  function NoteIncoming(m: Sessions, e: CallEntry, now: int): Sessions {
    m[e.id := Upserted(At(m, e.id), e, now).(direction := Inbound, hasDirection := true)]
  }

  function Connected(s: Session, now: int): Session {
    if s.connected then s else s.(connected := true, startedAt := now)
  }

  function NoteState(m: Sessions, e: CallEntry, state: CallState, now: int): Sessions {
    var s := Upserted(At(m, e.id), e, now);
    if state == Confirmed then m[e.id := Connected(s, now)]
    else if state == Disconnected then m - {e.id}
    else m[e.id := s]
  }

  /** The history row a state note yields. */
  function RowFor(m: Sessions, e: CallEntry, state: CallState, now: int): Option<HistoryEntry> {
    var s := Upserted(At(m, e.id), e, now);
    if state != Disconnected || s.accountId == INVALID_ACCOUNT || s.remoteUri == "" then None
    else
      var timed := s.connected && s.startedAt > 0;
      Some(HistoryEntry(s.accountId, s.direction, s.remoteUri, s.displayName,
                        if timed then s.startedAt else if s.firstSeenAt > 0 then s.firstSeenAt else now,
                        if timed && now > s.startedAt then now - s.startedAt else 0))
  }

  predicate DialledTo(m: Sessions, id: CallId, target: string) {
    id in m && m[id].dialedTarget == target
  }

  ghost predicate HasLiveOutboundTo(m: Sessions, target: string) {
    target != "" && exists id :: DialledTo(m, id, target)
  }

  // -------------------------------------------------------------------------
  // The controller's inputs
  // -------------------------------------------------------------------------

  /** `DialRequest` carries the id makeCall answers with, -1 if it fails. */
  datatype Input =
    | DialRequest(made: CallId, account: AccountId, target: string, now: int)
    | IncomingNote(entry: CallEntry, now: int)
    | StateNote(entry: CallEntry, state: CallState, now: int)

  datatype Book = Book(sessions: Sessions, history: seq<(CallId, HistoryEntry)>)
  const EMPTY_BOOK := Book(map[], [])

  /** The duplicate guard lets the request through and a call comes about. */
  ghost predicate Places(m: Sessions, x: Input) {
    x.DialRequest? && !HasLiveOutboundTo(m, x.target) && x.made >= 0
  }

  ghost function Next(b: Book, x: Input): Book {
    match x
    case DialRequest(made, account, target, now) =>
      if Places(b.sessions, x) then b.(sessions := NoteOutbound(b.sessions, made, account, target, now)) else b
    case IncomingNote(e, now) => b.(sessions := NoteIncoming(b.sessions, e, now))
    case StateNote(e, state, now) =>
      var row := RowFor(b.sessions, e, state, now);
      Book(NoteState(b.sessions, e, state, now),
           if row.Some? then b.history + [(e.id, row.value)] else b.history)
  }

  ghost function Run(xs: seq<Input>): Book {
    if xs == [] then EMPTY_BOOK else Next(Run(xs[..|xs| - 1]), xs[|xs| - 1])
  }
}
