/** The in-memory backend as the object it is; every method is tied to the
    function of the same name in BackendSpec. */
module FakeSipBackendModel {
  import opened SipTypes
  import Spec = BackendSpec

  class FakeSipBackend {
    var accounts: set<BackendAccountId>
    var nextCallId: CallId
    var calls: map<CallId, FakeCall>
    var queue: seq<Event>
    var log: seq<Command>

    function State(): Spec.Backend
      reads this
    {
      Spec.Backend(accounts, nextCallId, calls, queue, log)
    }

    constructor ()
      ensures State() == Spec.Backend({}, 1, map[], [], [])
    {
      accounts, nextCallId, calls, queue, log := {}, 1, map[], [], [];
    }

    method Post(e: Event)
      modifies this`queue
      ensures queue == old(queue) + [e]
    {
      queue := queue + [e];
    }

    method LogCmd(c: Command)
      modifies this`log
      ensures log == old(log) + [c]
    {
      log := log + [c];
    }

    method MakeCall(account: BackendAccountId, uri: string) returns (id: CallId)
      modifies this
      ensures if Spec.CanMakeCall(old(State()), account)
              then id == old(nextCallId) && State() == Spec.MakeCall(old(State()), account, uri)
              else id == INVALID_ID && State() == old(State())
    {
      if account !in accounts { return INVALID_ID; }
      id := nextCallId;
      nextCallId := nextCallId + 1;
      calls := calls[id := FakeCall(account, uri, Calling, false, false, false, false, false)];
      LogCmd(DidMakeCall(id, uri));
      Post(CallStateChanged(id, Calling, 0));
    }

    method SimulateIncomingCall(account: BackendAccountId, uri: string, name: string) returns (id: CallId)
      modifies this
      ensures if Spec.CanMakeCall(old(State()), account)
              then id == old(nextCallId) && State() == Spec.RemoteCall(old(State()), account, uri, name)
              else id == INVALID_ID && State() == old(State())
    {
      if account !in accounts { return INVALID_ID; }
      id := nextCallId;
      nextCallId := nextCallId + 1;
      calls := calls[id := FakeCall(account, uri, EarlyMedia, true, false, false, false, false)];
      Post(IncomingCall(account, id, uri, name));
    }

    method Answer(id: CallId) returns (ok: bool)
      modifies this
      ensures ok == Spec.Ringing(old(State()), id) && State() == Spec.Answer(old(State()), id)
    {
      if id !in calls || !calls[id].inbound || calls[id].state != EarlyMedia { return false; }
      LogCmd(DidAnswer(id));
      calls := calls[id := calls[id].(state := Confirmed, mediaActive := true)];
      Post(CallStateChanged(id, Confirmed, 200));
      return true;
    }

    method SimulateRemoteAnswer(id: CallId)
      modifies this
      ensures State() == Spec.RemoteAnswer(old(State()), id)
    {
      if id !in calls || calls[id].inbound || calls[id].state != Calling { return; }
      calls := calls[id := calls[id].(state := Confirmed, mediaActive := true)];
      Post(CallStateChanged(id, Confirmed, 200));
    }

    method Decline(id: CallId, code: int) returns (ok: bool)
      modifies this
      ensures ok == Spec.Ringing(old(State()), id) && State() == Spec.Decline(old(State()), id, code)
    {
      if id !in calls || !calls[id].inbound || calls[id].state != EarlyMedia { return false; }
      LogCmd(DidDecline(id, code));
      calls := calls[id := calls[id].(state := Disconnected)];
      Post(CallStateChanged(id, Disconnected, code));
      return true;
    }

    method Redirect(id: CallId, uri: string) returns (ok: bool)
      modifies this
      ensures ok == Spec.Ringing(old(State()), id) && State() == Spec.Redirect(old(State()), id, uri)
    {
      if id !in calls || !calls[id].inbound || calls[id].state != EarlyMedia { return false; }
      LogCmd(DidRedirect(id, uri));
      calls := calls[id := calls[id].(state := Disconnected)];
      Post(CallStateChanged(id, Disconnected, 302));
      return true;
    }

    method Hangup(id: CallId)
      modifies this
      ensures State() == Spec.Hangup(old(State()), id)
    {
      if id !in calls || calls[id].state == Disconnected { return; }
      // Read before the state changes: 487 is a cancel, 200 a normal teardown.
      var code := if calls[id].state == Confirmed then 200 else 487;
      LogCmd(DidHangup(id));
      calls := calls[id := calls[id].(state := Disconnected, mediaActive := false)];
      Post(CallStateChanged(id, Disconnected, code));
    }

    method SimulateRemoteHangup(id: CallId, code: int)
      modifies this
      ensures State() == Spec.RemoteHangup(old(State()), id, code)
    {
      if id !in calls || calls[id].state == Disconnected { return; }
      calls := calls[id := calls[id].(state := Disconnected, mediaActive := false)];
      Post(CallStateChanged(id, Disconnected, code));
    }

    method Hold(id: CallId) returns (ok: bool)
      modifies this
      ensures ok == Spec.CanHold(old(State()), id) && State() == Spec.Hold(old(State()), id)
    {
      if id !in calls || calls[id].state != Confirmed || calls[id].held { return false; }
      LogCmd(DidHold(id));
      calls := calls[id := calls[id].(held := true, mediaActive := false)];
      Post(MediaStateChanged(id, false, true));
      return true;
    }

    method Unhold(id: CallId) returns (ok: bool)
      modifies this
      ensures ok == Spec.CanUnhold(old(State()), id) && State() == Spec.Unhold(old(State()), id)
    {
      if id !in calls || calls[id].state != Confirmed || !calls[id].held { return false; }
      LogCmd(DidUnhold(id));
      calls := calls[id := calls[id].(held := false, mediaActive := true)];
      Post(MediaStateChanged(id, true, false));
      return true;
    }

    method SetMuted(id: CallId, on: bool) returns (ok: bool)
      modifies this
      ensures ok == Spec.InState(old(State()), id, Confirmed) && State() == Spec.SetMuted(old(State()), id, on)
    {
      if id !in calls || calls[id].state != Confirmed { return false; }
      LogCmd(DidSetMuted(id, on));
      calls := calls[id := calls[id].(muted := on)];
      assert queue == old(queue) + [];
      return true;
    }

    method BlindTransfer(id: CallId, uri: string) returns (ok: bool)
      modifies this
      ensures ok == Spec.InState(old(State()), id, Confirmed) && State() == Spec.BlindTransfer(old(State()), id, uri)
    {
      if id !in calls || calls[id].state != Confirmed { return false; }
      LogCmd(DidBlindTransfer(id, uri));
      return true;
    }

    method AttendedTransfer(id: CallId, other: CallId) returns (ok: bool)
      modifies this
      ensures ok == Spec.BothConfirmed(old(State()), id, other)
      ensures State() == Spec.AttendedTransfer(old(State()), id, other)
    {
      if id !in calls || other !in calls || calls[id].state != Confirmed || calls[other].state != Confirmed {
        return false;
      }
      LogCmd(DidAttendedTransfer(id, other));
      return true;
    }

    method Bridge(id: CallId, other: CallId) returns (ok: bool)
      modifies this
      ensures ok == Spec.BothConfirmed(old(State()), id, other) && State() == Spec.Bridge(old(State()), id, other)
    {
      if id !in calls || other !in calls || calls[id].state != Confirmed || calls[other].state != Confirmed {
        return false;
      }
      LogCmd(DidBridge(id, other));
      return true;
    }

    method StartRecording(id: CallId) returns (ok: bool)
      modifies this
      ensures ok == Spec.CanStartRecording(old(State()), id) && State() == Spec.StartRecording(old(State()), id)
    {
      if id !in calls || calls[id].state != Confirmed || calls[id].recording { return false; }
      LogCmd(DidStartRecording(id));
      calls := calls[id := calls[id].(recording := true)];
      assert queue == old(queue) + [];
      return true;
    }

    method StopRecording(id: CallId) returns (ok: bool)
      modifies this
      ensures ok == Spec.CanStopRecording(old(State()), id) && State() == Spec.StopRecording(old(State()), id)
    {
      if id !in calls || !calls[id].recording { return false; }
      LogCmd(DidStopRecording(id));
      calls := calls[id := calls[id].(recording := false)];
      assert queue == old(queue) + [];
      return true;
    }

    method ReleaseCall(id: CallId)
      modifies this
      ensures State() == Spec.ReleaseCall(old(State()), id)
    {
      if id in calls {
        calls := calls - {id};
        LogCmd(DidReleaseCall(id));
      }
    }

    method SimulateTransferStatus(id: CallId, code: int, isFinal: bool)
      modifies this
      ensures State() == Spec.RemoteTransferStatus(old(State()), id, code, isFinal)
    {
      if id !in calls { return; }
      Post(TransferStatus(id, code, isFinal));
    }
  }
}
