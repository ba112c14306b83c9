/** The session tracker, and the part of the calls controller that feeds it, as
    the objects they are. */
module CallSessions {
  import opened SipTypes
  import Spec = SessionSpec

  class CallSessionTracker {
    var sessions: Spec.Sessions

    constructor ()
      ensures sessions == map[]
    {
      sessions := map[];
    }

    method NoteOutbound(id: CallId, account: AccountId, remoteUri: string, nowMs: int)
      modifies this
      ensures sessions == Spec.NoteOutbound(old(sessions), id, account, remoteUri, nowMs)
    {
      var s := if id in sessions then sessions[id] else Spec.NEW_SESSION;
      s := s.(accountId := account, remoteUri := remoteUri, dialedTarget := remoteUri);
      s := s.(direction := Outbound, hasDirection := true);
      if s.firstSeenAt == 0 { s := s.(firstSeenAt := nowMs); }
      sessions := sessions[id := s];
    }

    /** Whether a call dialled to this very string is live; the map is walked in
        any order. */
    method HasLiveOutboundTo(target: string) returns (live: bool)
      ensures live == Spec.HasLiveOutboundTo(sessions, target)
    {
      if target == "" { return false; }
      var left := sessions;
      while true
        invariant forall j | j in left :: j in sessions && left[j] == sessions[j]
        invariant forall j | j in sessions && j !in left :: !Spec.DialledTo(sessions, j, target)
        decreases left.Keys
      {
        if j :| j in left {
          if left[j].dialedTarget == target {
            assert Spec.DialledTo(sessions, j, target);
            return true;
          }
          left := left - {j};
        } else {
          return false;
        }
      }
    }

    method NoteIncoming(entry: CallEntry, nowMs: int)
      modifies this
      ensures sessions == Spec.NoteIncoming(old(sessions), entry, nowMs)
    {
      UpsertFromEntry(entry, nowMs);
      var s := sessions[entry.id];
      s := s.(direction := Inbound, hasDirection := true);
      sessions := sessions[entry.id := s];
    }

    method NoteState(entry: CallEntry, state: CallState, nowMs: int) returns (row: Option<Spec.HistoryEntry>)
      modifies this
      ensures sessions == Spec.NoteState(old(sessions), entry, state, nowMs)
      ensures row == Spec.RowFor(old(sessions), entry, state, nowMs)
    {
      UpsertFromEntry(entry, nowMs);
      var s := sessions[entry.id];
      if state == Confirmed {
        if !s.connected {
          sessions := sessions[entry.id := s.(connected := true, startedAt := nowMs)];
        }
        return None;
      }
      if state != Disconnected {
        return None;
      }
      if s.accountId == Spec.INVALID_ACCOUNT || s.remoteUri == "" {
        sessions := sessions - {entry.id};
        return None;
      }
      var startedAt := if s.connected && s.startedAt > 0 then s.startedAt
                       else if s.firstSeenAt > 0 then s.firstSeenAt else nowMs;
      var durationMs := if s.connected && s.startedAt > 0 then Max(0, nowMs - s.startedAt) else 0;
      sessions := sessions - {entry.id};
      return Some(Spec.HistoryEntry(s.accountId, s.direction, s.remoteUri, s.displayName, startedAt, durationMs));
    }

    function Max(a: int, b: int): int {
      if a < b then b else a
    }

    method UpsertFromEntry(entry: CallEntry, nowMs: int)
      modifies this
      ensures sessions == old(sessions)[entry.id := Spec.Upserted(Spec.At(old(sessions), entry.id), entry, nowMs)]
    {
      var s := if entry.id in sessions then sessions[entry.id] else Spec.NEW_SESSION;
      if s.firstSeenAt == 0 { s := s.(firstSeenAt := nowMs); }
      if entry.accountId != Spec.INVALID_ACCOUNT { s := s.(accountId := entry.accountId); }
      if entry.remoteUri != "" { s := s.(remoteUri := entry.remoteUri); }
      if entry.remoteDisplayName != "" { s := s.(displayName := entry.remoteDisplayName); }
      if Spec.HasDetails(entry) || !s.hasDirection {
        s := s.(direction := entry.direction, hasDirection := true);
      }
      sessions := sessions[entry.id := s];
    }
  }

  class CallsController {
    const tracker: CallSessionTracker
    var currentCallId: CallId
    var incomingCallId: CallId
    var history: seq<(CallId, Spec.HistoryEntry)>

    function Book(): Spec.Book
      reads this, tracker
    {
      Spec.Book(tracker.sessions, history)
    }

    constructor (tracker: CallSessionTracker)
      requires tracker.sessions == map[]
      ensures this.tracker == tracker && Book() == Spec.EMPTY_BOOK
      ensures currentCallId == INVALID_ID && incomingCallId == INVALID_ID
    {
      this.tracker := tracker;
      currentCallId, incomingCallId, history := INVALID_ID, INVALID_ID, [];
    }

    /** `target` is the normalised address, `made` what makeCall would answer; a
        call is only made if the guard lets the request through. */
    method Dial(account: AccountId, target: string, made: CallId, nowMs: int) returns (asked: bool)
      modifies this, tracker
      ensures Book() == Spec.Next(old(Book()), Spec.DialRequest(made, account, target, nowMs))
      ensures asked == !Spec.HasLiveOutboundTo(old(tracker.sessions), target)
      ensures currentCallId == if asked then made else old(currentCallId)
      ensures incomingCallId == old(incomingCallId)
    {
      var live := tracker.HasLiveOutboundTo(target);
      if live { return false; }
      currentCallId := made;
      if currentCallId >= 0 {
        tracker.NoteOutbound(currentCallId, account, target, nowMs);
      }
      return true;
    }

    /** `found` is the call's entry in the present snapshot, if it has one. */
    method OnIncomingCall(id: CallId, found: Option<CallEntry>, nowMs: int)
      modifies this, tracker
      ensures Book() == if found.Some? then Spec.Next(old(Book()), Spec.IncomingNote(found.value, nowMs)) else old(Book())
      ensures incomingCallId == id && currentCallId == old(currentCallId)
    {
      incomingCallId := id;
      if found.Some? {
        tracker.NoteIncoming(found.value, nowMs);
      }
    }

    method OnCallEvent(id: CallId, state: CallState, found: Option<CallEntry>, nowMs: int)
      requires found.Some? ==> found.value.id == id
      modifies this, tracker
      ensures Book() == Spec.Next(old(Book()), Spec.StateNote(EntryOr(found, id), state, nowMs))
      ensures currentCallId == if state == Disconnected && id == old(currentCallId) then INVALID_ID else old(currentCallId)
      ensures incomingCallId == if state == Disconnected && id == old(incomingCallId) then INVALID_ID else old(incomingCallId)
    {
      var row := tracker.NoteState(EntryOr(found, id), state, nowMs);
      if row.Some? {
        history := history + [(id, row.value)];
      }
      if state == Disconnected && id == currentCallId {
        currentCallId := INVALID_ID;
      }
      if state == Disconnected && incomingCallId == id {
        incomingCallId := INVALID_ID;
      }
    }
  }

  /** A call missing from the snapshot is known by its id only. */
  function EntryOr(found: Option<CallEntry>, id: CallId): CallEntry {
    match found
    case Some(e) => e
    case None => CallEntry(id, Spec.INVALID_ACCOUNT, "", "", Idle, false, false, false, Outbound)
  }
}
