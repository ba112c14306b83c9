/** Which calls a transfer lists, and that just these end with it. */
module TransferLaws {
  import opened SipTypes
  import opened CallSpec
  import opened CallViews
  import opened StepLaws
  import opened CallTheorems
  import BackendSpec
  import CallInvariant

  /** The calls of an accepted REFER: the transferred one, and the call it was
      transferred to in an attended transfer. */
  function Legs(st: Step, id: CallId): seq<CallId> {
    if st.AttendedStep? then [id, st.dest] else [id]
  }

  /** The manager forgets what is pending: the backend refuses another REFER for
      the call, the subscription is over, or the call is. */
  predicate Forgets(s: System, st: Step, id: CallId) {
    match st
    case BlindStep(i, _) => i == id && id in s.records
    case AttendedStep(i, dest) => i == id && i != dest && id in s.records && dest in s.records
    case _ => Consumes(s, st, id) || CallCells.EndsRecord(s, st, id)
  }

  lemma ReferLaw(s: System, st: Step, id: CallId)
    requires Enabled(s, st) && (st.BlindStep? || st.AttendedStep?)
    ensures var t := Next(s, st);
            if Refers(s, st, id) then id in t.transfers && t.transfers[id] == Legs(st, id)
            else if Forgets(s, st, id) then id !in t.transfers
            else (id in t.transfers <==> id in s.transfers) && (id in s.transfers ==> t.transfers[id] == s.transfers[id])
  {
    hide BackendSpec.BlindTransfer, BackendSpec.AttendedTransfer;
  }

  lemma DeliveryLaw(s: System, pick: CallId, id: CallId)
    requires Inv(s) && Enabled(s, DeliverStep(pick))
    ensures var st := DeliverStep(pick);
            Deliver(s, pick).transfers == if s.backend.queue[0].TransferStatus? && s.backend.queue[0].isFinal
                                          then s.transfers - {s.backend.queue[0].id}
                                          else if CallCells.EndsRecord(s, st, s.backend.queue[0].id)
                                          then s.transfers - {s.backend.queue[0].id}
                                          else s.transfers
  {
    match s.backend.queue[0]
    case TransferStatus(_, _, _) => TransferOutcome(s, pick);
    case CallStateChanged(k, st, code) =>
      hide Inv;
      if k in s.records && st == Disconnected {
        CallInvariant.DisconnectShape(s, pick);
        UnholdKeys(CallInvariant.Retired(s, k, code).(active := pick), pick, 3);
        hide RequestUnhold, Deliver;
      }
    case IncomingCall(_, _, _, _) =>
    case MediaStateChanged(_, _, _) =>
  }

  lemma RestLaw(s: System, st: Step)
    requires Enabled(s, st) && !st.BlindStep? && !st.AttendedStep? && !st.DeliverStep?
    ensures Next(s, st).transfers == s.transfers
  {
    hide RequestUnhold, WireBridge;
    match st
    case UnholdTimer(i, n) => UnholdKeys(Disarm(s, UnholdRetry(i, n)), i, n);
    case BridgeTimer(i, other, n) => BridgeTransfers(Disarm(s, BridgeRetry(i, other, n)), i, other, n);
    case LingerTimer(_) =>
    case _ => CommandTransfers(s, st, 0);
  }

  lemma BridgeTransfers(s: System, id: CallId, other: CallId, n: int)
    ensures WireBridge(s, id, other, n).transfers == s.transfers
  {
  }

  /** What a step makes of the pending transfer of one call. */
  predicate PendingNext(s: System, st: Step, id: CallId, t: System) {
    if Refers(s, st, id) then id in t.transfers && t.transfers[id] == Legs(st, id)
    else if Forgets(s, st, id) then id !in t.transfers
    else (id in t.transfers <==> id in s.transfers) && (id in s.transfers ==> t.transfers[id] == s.transfers[id])
  }

  lemma PendingByDelivery(s: System, pick: CallId, id: CallId)
    requires Inv(s) && Enabled(s, DeliverStep(pick))
    ensures PendingNext(s, DeliverStep(pick), id, Deliver(s, pick))
  {
    hide Inv, Deliver, Legs;
    DeliveryLaw(s, pick, id);
    var k := s.backend.queue[0].id;
    assert CallCells.EndsRecord(s, DeliverStep(pick), id) ==> id == k;
  }

  lemma PendingByRest(s: System, st: Step, id: CallId)
    requires Enabled(s, st) && !st.BlindStep? && !st.AttendedStep? && !st.DeliverStep?
    ensures PendingNext(s, st, id, Next(s, st))
  {
    RestLaw(s, st);
    NotATransfer(s, st, id);
    hide Next, Enabled, Refers, Forgets, Legs;
  }

  lemma NotATransfer(s: System, st: Step, id: CallId)
    requires !st.BlindStep? && !st.AttendedStep? && !st.DeliverStep?
    ensures !Refers(s, st, id) && !Forgets(s, st, id)
  {
  }

  /** An accepted REFER makes its own calls pending, exactly these; every other
      step keeps what is pending or forgets it, and says exactly when. */
  lemma PendingExact(s: System, st: Step, id: CallId)
    requires Inv(s) && Enabled(s, st)
    ensures PendingNext(s, st, id, Next(s, st))
  {
    hide Inv, Enabled, PendingNext;
    if st.BlindStep? || st.AttendedStep? {
      ReferLaw(s, st, id);
      PendingOf(s, st, id, Next(s, st));
    } else if st.DeliverStep? {
      PendingByDelivery(s, st.pick, id);
      DeliverIsNext(s, st.pick);
    } else {
      PendingByRest(s, st, id);
    }
    hide Next;
  }

  lemma DeliverIsNext(s: System, pick: CallId)
    requires Enabled(s, DeliverStep(pick))
    ensures Next(s, DeliverStep(pick)) == Deliver(s, pick)
  {
    hide Deliver;
  }

  lemma PendingOf(s: System, st: Step, id: CallId, t: System)
    requires if Refers(s, st, id) then id in t.transfers && t.transfers[id] == Legs(st, id)
             else if Forgets(s, st, id) then id !in t.transfers
             else (id in t.transfers <==> id in s.transfers) && (id in s.transfers ==> t.transfers[id] == s.transfers[id])
    ensures PendingNext(s, st, id, t)
  {
    hide Refers, Forgets, Legs;
  }

  /** The calls of the last REFER accepted for `id` in the run, none if there is
      none. */
  ghost function LastRefer(s: System, steps: seq<Step>, id: CallId, before: seq<CallId>): seq<CallId>
    requires IsRun(s, steps)
    decreases |steps|
  {
    if steps == [] then before
    else LastRefer(Next(s, steps[0]), steps[1..], id, if Refers(s, steps[0], id) then Legs(steps[0], id) else before)
  }

  lemma {:induction false} PendingSince(s: System, steps: seq<Step>, id: CallId, before: seq<CallId>)
    requires Inv(s) && IsRun(s, steps) && (id in s.transfers ==> s.transfers[id] == before)
    ensures id in Run(s, steps).transfers ==> Run(s, steps).transfers[id] == LastRefer(s, steps, id, before)
    decreases |steps|
  {
    hide Inv, Next, Enabled, Refers, Forgets, Legs;
    if steps != [] {
      PendingExact(s, steps[0], id);
      CallInvariant.NextKeeps(s, steps[0]);
      PendingSince(Next(s, steps[0]), steps[1..], id, if Refers(s, steps[0], id) then Legs(steps[0], id) else before);
    }
  }

  /** What is pending for a call after any run is its last accepted REFER. */
  lemma PendingIsLastRefer(steps: seq<Step>, id: CallId)
    requires IsRun(Initial, steps) && id in Run(Initial, steps).transfers
    ensures Run(Initial, steps).transfers[id] == LastRefer(Initial, steps, id, [])
  {
    CallInvariant.InitialInv();
    PendingSince(Initial, steps, id, []);
  }

  /** When the transferee reports success while the transfer is pending, each call
      of its last REFER that still has a record is over in the backend, and the
      other calls are as they were. */
  lemma SuccessEndsTheLegs(steps: seq<Step>, pick: CallId, k: CallId)
    requires IsRun(Initial, steps)
    requires var q := Run(Initial, steps).backend.queue;
             q != [] && q[0].TransferStatus? && q[0].isFinal && 200 <= q[0].code < 300
             && q[0].id in Run(Initial, steps).transfers
    ensures var s := Run(Initial, steps);
            var t := Next(s, DeliverStep(pick));
            && t.records == s.records
            && (k in s.backend.calls <==> k in t.backend.calls)
            && (k in LastRefer(Initial, steps, s.backend.queue[0].id, []) && k in s.records ==>
                  k in t.backend.calls && t.backend.calls[k].state == Disconnected)
            && (k in s.backend.calls && !(k in LastRefer(Initial, steps, s.backend.queue[0].id, []) && k in s.records) ==>
                  t.backend.calls[k] == s.backend.calls[k])
  {
    var s := Run(Initial, steps);
    CallInvariant.Reachable(steps);
    PendingIsLastRefer(steps, s.backend.queue[0].id);
    TransferOutcome(s, pick);
    CallFacts(s, k);
    hide Inv, IsRun, Run, LastRefer, Deliver;
  }
}
