/** The call manager and its transfer tracker as the objects they are. Every
    method moves `Sys()` exactly as the function of the same name in CallSpec
    moves the system, which is what the theorems are about. */
module CallManagement {
  import opened SipTypes
  import Spec = CallSpec
  import BSpec = BackendSpec
  import opened FakeSipBackendModel

  /** Which calls a finished transfer hangs up. */
  class TransferTracker {
    var pending: map<CallId, seq<CallId>>

    constructor ()
      ensures pending == map[]
    {
      pending := map[];
    }

    method Record(id: CallId, cleanupIds: seq<CallId>)
      modifies this
      ensures pending == old(pending)[id := cleanupIds]
    {
      pending := pending[id := cleanupIds];
    }

    method Take(id: CallId) returns (ids: seq<CallId>)
      modifies this
      ensures ids == if id in old(pending) then old(pending)[id] else []
      ensures pending == old(pending) - {id}
    {
      if id !in pending { return []; }
      ids := pending[id];
      pending := pending - {id};
    }

    /** What is left to hang up when word on a transfer arrives. */
    method TakeLegsToHangup(id: CallId, code: int, isFinal: bool) returns (ids: seq<CallId>)
      modifies this
      ensures ids == Spec.LegsToHangup(old(pending), id, code, isFinal)
      ensures pending == if isFinal then old(pending) - {id} else old(pending)
    {
      if !isFinal { return []; }
      ids := Take(id);
      if code < 200 || code >= 300 { return []; }
    }

    method Drop(id: CallId)
      modifies this
      ensures pending == old(pending) - {id}
    {
      pending := pending - {id};
    }
  }

  class CallManager {
    const backend: FakeSipBackend
    const transfers: TransferTracker

    var records: map<CallId, CallRecord>
    var lingering: map<CallId, CallRecord>
    var activeCallId: CallId
    var timers: multiset<Timer>
    var signals: seq<Signal>
    // what the account manager answers
    var backendFor: map<AccountId, BackendAccountId>
    var accountFor: map<BackendAccountId, AccountId>

    function Sys(): Spec.System
      reads this, backend, transfers
    {
      Spec.System(backend.State(), records, lingering, transfers.pending, activeCallId, timers, signals,
                  backendFor, accountFor)
    }

    constructor (backend: FakeSipBackend, transfers: TransferTracker)
      requires backend.State() == Spec.Initial.backend && transfers.pending == map[]
      ensures this.backend == backend && this.transfers == transfers && Sys() == Spec.Initial
    {
      this.backend, this.transfers := backend, transfers;
      records, lingering, activeCallId, timers, signals := map[], map[], INVALID_ID, multiset{}, [];
      backendFor, accountFor := map[], map[];
    }

    method SingleShot(t: Timer)
      modifies this`timers
      ensures timers == old(timers) + multiset{t}
    {
      timers := timers + multiset{t};
    }

    method NotifyStateChange(id: CallId, st: CallState)
      modifies this`signals
      ensures signals == old(signals) + [CallEvent(id, st)]
    {
      signals := signals + [CallEvent(id, st)];
    }

    /** Auto-hold of the call that stops being active; the flag is set even if
        the backend refuses. */
    method HoldPrevious(previousId: CallId)
      modifies this`records, backend
      ensures Sys() == Spec.HoldIfTalking(old(Sys()), previousId)
    {
      if previousId != INVALID_ID {
        if previousId in records && records[previousId].state == Confirmed && !records[previousId].held {
          var _ := backend.Hold(previousId);
          records := records[previousId := records[previousId].(held := true)];
        }
      }
    }

    method SetActiveCall(id: CallId)
      modifies this`records, this`activeCallId, backend
      ensures Sys() == Spec.SetActiveCall(old(Sys()), id)
    {
      if activeCallId == id { return; }
      HoldPrevious(activeCallId);
      activeCallId := id;
      if id != INVALID_ID {
        if id in records && records[id].held {
          var _ := backend.Unhold(id);
          records := records[id := records[id].(held := false)];
        }
      }
    }

    method RequestUnhold(id: CallId, retriesRemaining: int) returns (ok: bool)
      modifies this`records, this`activeCallId, this`timers, backend
      ensures Sys() == Spec.RequestUnhold(old(Sys()), id, retriesRemaining)
      ensures ok == Spec.UnholdAccepted(old(Sys()), id, retriesRemaining)
    {
      if id !in records { return false; }
      var resumed := backend.Unhold(id);
      if !resumed {
        if retriesRemaining > 0 {
          SingleShot(UnholdRetry(id, retriesRemaining - 1));
          records := records[id := records[id].(held := false)];
          return true;
        }
        return false;
      }
      records := records[id := records[id].(held := false)];
      if activeCallId != id {
        HoldPrevious(activeCallId);
        activeCallId := id;
      }
      return true;
    }

    method WireBridge(id: CallId, other: CallId, retriesRemaining: int) returns (ok: bool)
      modifies this`timers, backend
      ensures Sys() == Spec.WireBridge(old(Sys()), id, other, retriesRemaining)
      ensures ok == Spec.BridgeAccepted(old(Sys()), id, other, retriesRemaining)
    {
      if id !in records || other !in records { return false; }
      ok := backend.Bridge(id, other);
      if ok { return; }
      if retriesRemaining <= 0 { return false; }
      SingleShot(BridgeRetry(id, other, retriesRemaining - 1));
      return true;
    }

    /** The first held confirmed call in hash-map order, here in any order. */
    method FindPromotable() returns (k: Option<CallId>)
      ensures k.None? ==> Spec.Promotable(records) == {}
      ensures k.Some? ==> k.value in Spec.Promotable(records)
    {
      var left := records;
      while true
        invariant forall j | j in left :: j in records && left[j] == records[j]
        invariant forall j | j in records && j !in left :: !(records[j].held && records[j].state == Confirmed)
        decreases left.Keys
      {
        if j :| j in left {
          if left[j].held && left[j].state == Confirmed {
            assert j in records && records[j].held && records[j].state == Confirmed;
            return Some(j);
          }
          left := left - {j};
        } else {
          forall j | j in records ensures !(records[j].held && records[j].state == Confirmed) {
            assert j !in left;
          }
          return None;
        }
      }
    }

    method HandleDisconnected(id: CallId) returns (ghost pick: CallId)
      requires id in records
      modifies this, backend, transfers
      ensures Spec.PickOk(old(Sys()), id, pick)
      ensures Sys() == Spec.HandleDisconnected(old(Sys()), id, pick)
    {
      var frozen := records[id].(state := Disconnected);
      records := records - {id};
      transfers.Drop(id);
      backend.ReleaseCall(id);
      lingering := lingering[id := frozen];
      pick := INVALID_ID;
      var next := FindPromotable();
      if next.Some? { pick := next.value; }
      if id == activeCallId {
        activeCallId := INVALID_ID;
        if next.Some? {
          activeCallId := next.value;
          var _ := RequestUnhold(next.value, 3);
        }
      }
      SingleShot(LingerExpiry(id));
    }

    method EraseLingering(id: CallId)
      modifies this`lingering
      ensures lingering == old(lingering) - {id}
    {
      lingering := lingering - {id};
    }

    method OnCallState(id: CallId, st: CallState, code: int) returns (ghost pick: CallId)
      modifies this, backend, transfers
      ensures id in old(records) && st == Disconnected ==> Spec.PickOk(old(Sys()), id, pick)
      ensures Sys() == Spec.OnCallState(old(Sys()), id, st, code, pick)
    {
      hide Spec.HandleDisconnected, Spec.Promotable;
      pick := INVALID_ID;
      if id !in records { return; }
      if st == Disconnected {
        ghost var stamped := old(records)[id := old(records)[id].(state := st, lastStatusCode := code)];
        records := records[id := records[id].(lastStatusCode := code)];
        records := records[id := records[id].(state := st)];
        NotifyStateChange(id, st);
        assert Sys() == Spec.Notify(old(Sys()).(records := stamped), id, st) by { assert records == stamped; }
        assert records - {id} == old(records) - {id};
        pick := HandleDisconnected(id);
        return;
      }
      records := records[id := records[id].(state := st)];
      NotifyStateChange(id, st);
    }

    method OnIncomingCall(account: BackendAccountId, id: CallId, uri: string, name: string)
      modifies this, backend
      ensures Sys() == Spec.OnIncomingCall(old(Sys()), account, id, uri, name)
    {
      if account !in accountFor {
        var _ := backend.Decline(id, 480);
        backend.ReleaseCall(id);
        return;
      }
      var r := CallRecord(accountFor[account], uri, name, Calling, 0, true, false, false, false);
      if id !in records { records := records[id := r]; }
      NotifyStateChange(id, Calling);
      signals := signals + [IncomingCallSignal(id)];
    }

    method HangupTransferLegs(cleanupIds: seq<CallId>)
      modifies backend
      ensures Sys() == Spec.HangupLegs(old(Sys()), cleanupIds)
    {
      var i := 0;
      assert cleanupIds[0..] == cleanupIds;
      while i < |cleanupIds|
        invariant 0 <= i <= |cleanupIds|
        invariant Spec.HangupLegs(Sys(), cleanupIds[i..]) == Spec.HangupLegs(old(Sys()), cleanupIds)
      {
        assert cleanupIds[i..][1..] == cleanupIds[i + 1..];
        if cleanupIds[i] in records {
          backend.Hangup(cleanupIds[i]);
        }
        i := i + 1;
      }
    }

    method OnTransferStatus(id: CallId, code: int, isFinal: bool)
      modifies backend, transfers
      ensures Sys() == Spec.OnTransferStatus(old(Sys()), id, code, isFinal)
    {
      var cleanupIds := transfers.TakeLegsToHangup(id, code, isFinal);
      if cleanupIds == [] { return; }
      HangupTransferLegs(cleanupIds);
    }

    /** One turn of the event loop: the oldest event is delivered. */
    method DeliverNext() returns (ghost pick: CallId)
      requires backend.queue != []
      modifies this, backend, transfers
      ensures Spec.DeliverEnabled(old(Sys()), pick)
      ensures Sys() == Spec.Deliver(old(Sys()), pick)
    {
      var e := backend.queue[0];
      backend.queue := backend.queue[1..];
      pick := INVALID_ID;
      match e
      case IncomingCall(account, id, uri, name) => OnIncomingCall(account, id, uri, name);
      case CallStateChanged(id, st, code) => pick := OnCallState(id, st, code);
      case MediaStateChanged(_, _, _) =>
      case TransferStatus(id, code, isFinal) => OnTransferStatus(id, code, isFinal);
    }

    // The handlers of the three one-shot timers; a timer disarms as it fires.

    method OnUnholdRetry(id: CallId, retries: int)
      requires UnholdRetry(id, retries) in timers
      modifies this, backend
      ensures Sys() == Spec.RequestUnhold(Spec.Disarm(old(Sys()), UnholdRetry(id, retries)), id, retries)
    {
      hide Spec.RequestUnhold;
      timers := timers - multiset{UnholdRetry(id, retries)};
      var _ := RequestUnhold(id, retries);
    }

    method OnBridgeRetry(id: CallId, other: CallId, retries: int)
      requires BridgeRetry(id, other, retries) in timers
      modifies this, backend
      ensures Sys() == Spec.WireBridge(Spec.Disarm(old(Sys()), BridgeRetry(id, other, retries)), id, other, retries)
    {
      hide Spec.WireBridge;
      timers := timers - multiset{BridgeRetry(id, other, retries)};
      var _ := WireBridge(id, other, retries);
    }

    method OnLingerExpiry(id: CallId)
      requires LingerExpiry(id) in timers
      modifies this
      ensures Sys() == Spec.Disarm(old(Sys()), LingerExpiry(id)).(lingering := old(lingering) - {id})
    {
      timers := timers - multiset{LingerExpiry(id)};
      EraseLingering(id);
    }

    // -----------------------------------------------------------------------
    // Commands
    // -----------------------------------------------------------------------

    method MakeCall(account: AccountId, uri: string) returns (id: CallId)
      requires backend.nextCallId != INVALID_ID
      modifies this, backend
      ensures Sys() == Spec.MakeCall(old(Sys()), account, uri)
      ensures id == if Spec.CanDial(old(Sys()), account) then old(backend.nextCallId) else INVALID_ID
    {
      if account !in backendFor { return INVALID_ID; }
      id := backend.MakeCall(backendFor[account], uri);
      if id == INVALID_ID { return; }
      var r := CallRecord(account, uri, "", Calling, 0, false, false, false, false);
      if id !in records { records := records[id := r]; }
      SetActiveCall(id);
    }

    method Accept(id: CallId) returns (ok: bool)
      modifies this, backend
      ensures Sys() == Spec.Accept(old(Sys()), id)
      ensures ok == (id in old(records) && BSpec.Ringing(old(backend.State()), id))
    {
      if id !in records { return false; }
      StillRinging(Sys(), id);
      SetActiveCall(id);
      ok := backend.Answer(id);
    }

    /** Making a call the active one does not answer it. */
    static lemma StillRinging(s: Spec.System, id: CallId)
      ensures BSpec.Ringing(Spec.SetActiveCall(s, id).backend, id) <==> BSpec.Ringing(s.backend, id)
    {
      hide BSpec.Ringing, BSpec.Hold, BSpec.Unhold, Spec.Talking;
      MediaKeepsRinging(s.backend, s.active, id);
      MediaKeepsRinging(Spec.HoldIfTalking(s, s.active).backend, id, id);
    }

    static lemma MediaKeepsRinging(b: BSpec.Backend, changed: CallId, id: CallId)
      ensures BSpec.Ringing(BSpec.Hold(b, changed), id) <==> BSpec.Ringing(b, id)
      ensures BSpec.Ringing(BSpec.Unhold(b, changed), id) <==> BSpec.Ringing(b, id)
    {
    }

    method Decline(id: CallId) returns (ok: bool)
      modifies backend
      ensures Sys() == Spec.DeclineCall(old(Sys()), id)
      ensures ok == (id in records && BSpec.Ringing(old(backend.State()), id))
    {
      if id !in records { return false; }
      ok := backend.Decline(id, 486);
    }

    method ForwardCall(id: CallId, uri: string) returns (ok: bool)
      modifies backend
      ensures Sys() == Spec.ForwardCall(old(Sys()), id, uri)
      ensures ok == (id in records && uri != "" && BSpec.Ringing(old(backend.State()), id))
    {
      if id !in records { return false; }
      if uri == "" { return false; }
      ok := backend.Redirect(id, uri);
    }

    method Hold(id: CallId) returns (ok: bool)
      modifies this`records, backend
      ensures Sys() == Spec.HoldCall(old(Sys()), id)
      ensures ok == (id in old(records) && BSpec.CanHold(old(backend.State()), id))
    {
      if id !in records { return false; }
      ok := backend.Hold(id);
      if !ok { return; }
      records := records[id := records[id].(held := true)];
    }

    method Unhold(id: CallId) returns (ok: bool)
      modifies this, backend
      ensures Sys() == Spec.RequestUnhold(old(Sys()), id, 5)
      ensures ok == (id in old(records))
    {
      ok := RequestUnhold(id, 5);
    }

    method MergeCalls(id: CallId, other: CallId) returns (ok: bool)
      modifies this, backend
      ensures Sys() == Spec.MergeCalls(old(Sys()), id, other)
      ensures ok == (id in old(records) && other in old(records)
                     && old(records)[id].state == Confirmed && old(records)[other].state == Confirmed)
    {
      if id !in records || other !in records { return false; }
      if records[id].state != Confirmed || records[other].state != Confirmed { return false; }
      if records[other].held {
        ok := RequestUnhold(other, 5);
        if !ok { return false; }
        SingleShot(BridgeRetry(id, other, 5));
        return true;
      }
      ok := WireBridge(id, other, 5);
    }

    method BlindTransfer(id: CallId, uri: string) returns (ok: bool)
      modifies backend, transfers
      ensures Sys() == Spec.BlindTransferCall(old(Sys()), id, uri)
      ensures ok == (id in records && BSpec.InState(old(backend.State()), id, Confirmed))
    {
      if id !in records { return false; }
      transfers.Record(id, [id]);
      ok := backend.BlindTransfer(id, uri);
      if !ok {
        assert old(transfers.pending)[id := [id]] - {id} == old(transfers.pending) - {id};
        transfers.Drop(id);
      }
    }

    method AttendedTransfer(id: CallId, dest: CallId) returns (ok: bool)
      modifies backend, transfers
      ensures Sys() == Spec.AttendedTransferCalls(old(Sys()), id, dest)
      ensures ok == (id != dest && id in records && dest in records && BSpec.BothConfirmed(old(backend.State()), id, dest))
    {
      if id == dest { return false; }
      if id !in records || dest !in records { return false; }
      transfers.Record(id, [id, dest]);
      ok := backend.AttendedTransfer(id, dest);
      if !ok {
        assert old(transfers.pending)[id := [id, dest]] - {id} == old(transfers.pending) - {id};
        transfers.Drop(id);
      }
    }

    method Hangup(id: CallId)
      modifies backend
      ensures Sys() == Spec.HangupCall(old(Sys()), id)
    {
      if id !in records { return; }
      backend.Hangup(id);
    }

    method SetMuted(id: CallId, on: bool) returns (ok: bool)
      modifies this`records, backend
      ensures Sys() == Spec.MuteCall(old(Sys()), id, on)
    {
      if id !in records { return false; }
      ok := backend.SetMuted(id, on);
      if !ok { return; }
      records := records[id := records[id].(muted := on)];
    }

    method StartRecording(id: CallId) returns (ok: bool)
      modifies this`records, backend
      ensures Sys() == Spec.StartRecordingCall(old(Sys()), id)
    {
      if id !in records { return false; }
      ok := backend.StartRecording(id);
      if !ok { return; }
      records := records[id := records[id].(recording := true)];
    }

    method StopRecording(id: CallId) returns (ok: bool)
      modifies this`records, backend
      ensures Sys() == Spec.StopRecordingCall(old(Sys()), id)
    {
      ok := backend.StopRecording(id);
      if !ok { return; }
      if id in records { records := records[id := records[id].(recording := false)]; }
    }
  }
}
