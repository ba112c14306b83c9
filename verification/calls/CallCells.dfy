/** The whole system seen from one call: what a step does to the record and the
    backend call under one id, and which call it makes the active one. */
module CallCells {
  import opened SipTypes
  import opened CallSpec
  import opened CallViews
  import opened BackendSpec
  import CallInvariant
  import CallTheorems

  /** The record and the backend call under one id. */
  datatype Cell = Cell(record: Option<CallRecord>, call: Option<FakeCall>)

  function CellOf(s: System, k: CallId): Cell {
    Cell(Lookup(s.records, k), Lookup(s.backend.calls, k))
  }

  predicate CallIs(c: Cell, st: CallState) {
    c.call.Some? && c.call.value.state == st
  }

  predicate RecordIs(c: Cell, st: CallState) {
    c.record.Some? && c.record.value.state == st
  }

  // -------------------------------------------------------------------------
  // What can happen to a cell
  // -------------------------------------------------------------------------

  function WithCall(c: Cell, call: FakeCall): Cell {
    c.(call := Some(call))
  }

  function Marked(c: Cell, held: bool): Cell
    requires c.record.Some?
  {
    c.(record := Some(c.record.value.(held := held)))
  }

  /** Loses the microphone to another call, if it is talking. */
  function Yielding(c: Cell): Cell {
    if !RecordIs(c, Confirmed) || c.record.value.held then c
    else if CallIs(c, Confirmed) && !c.call.value.held
    then WithCall(Marked(c, true), c.call.value.(held := true, mediaActive := false))
    else Marked(c, true)
  }

  predicate OnHold(c: Cell) {
    CallIs(c, Confirmed) && c.call.value.held
  }

  function Resuming(c: Cell): Cell
    requires c.record.Some?
  {
    if OnHold(c) then WithCall(Marked(c, false), c.call.value.(held := false, mediaActive := true)) else Marked(c, false)
  }

  function Taking(c: Cell): Cell {
    if c.record.Some? && c.record.value.held then Resuming(c) else c
  }

  function Answering(c: Cell): Cell {
    if CallIs(c, EarlyMedia) && c.call.value.inbound
    then WithCall(c, c.call.value.(state := Confirmed, mediaActive := true))
    else c
  }

  function Refusing(c: Cell): Cell {
    if CallIs(c, EarlyMedia) && c.call.value.inbound then WithCall(c, c.call.value.(state := Disconnected)) else c
  }

  function HangingUp(c: Cell): Cell {
    if c.call.Some? && c.call.value.state != Disconnected
    then WithCall(c, c.call.value.(state := Disconnected, mediaActive := false))
    else c
  }

  // -------------------------------------------------------------------------
  // The building blocks, seen from one call
  // -------------------------------------------------------------------------

  lemma HoldCell(s: System, a: CallId, k: CallId)
    ensures var t := HoldIfTalking(s, a);
            && t.active == s.active && t.backend.nextCallId == s.backend.nextCallId
            && CellOf(t, k) == if k == a && a != INVALID_ID then Yielding(CellOf(s, k)) else CellOf(s, k)
  {
  }

  lemma MarkCell(s: System, id: CallId, held: bool, k: CallId)
    requires id in s.records
    ensures CellOf(WithHeld(s, id, held), k) == if k == id then Marked(CellOf(s, k), held) else CellOf(s, k)
  {
  }

  lemma ResumeCell(s: System, id: CallId, k: CallId)
    requires id in s.records
    ensures CellOf(WithHeld(s.(backend := Unhold(s.backend, id)), id, false), k)
            == if k == id then Resuming(CellOf(s, k)) else CellOf(s, k)
  {
  }

  lemma SetActiveCell(s: System, id: CallId, k: CallId)
    ensures var t := SetActiveCall(s, id);
            && t.active == id
            && CellOf(t, k) == if s.active == id then CellOf(s, k)
                               else if k == id && id != INVALID_ID then Taking(CellOf(s, k))
                               else if k == s.active && k != INVALID_ID then Yielding(CellOf(s, k))
                               else CellOf(s, k)
  {
    hide Yielding, Resuming, HoldIfTalking, WithHeld;
    if s.active != id {
      HoldCell(s, s.active, k);
      HoldCell(s, s.active, id);
      var s1 := HoldIfTalking(s, s.active).(active := id);
      SameCell(HoldIfTalking(s, s.active), s1, k);
      SameCell(HoldIfTalking(s, s.active), s1, id);
      if id in s1.records { ResumeCell(s1, id, k); HeldActive(s1, id); }
    }
  }

  lemma HeldActive(s: System, id: CallId)
    requires id in s.records
    ensures WithHeld(s.(backend := Unhold(s.backend, id)), id, false).active == s.active
  {
  }

  lemma SameCell(s: System, t: System, k: CallId)
    requires t.records == s.records && t.backend.calls == s.backend.calls
    ensures CellOf(t, k) == CellOf(s, k)
  {
  }

  /** Whether the backend resumes the call. */
  lemma UnholdCell(s: System, id: CallId, n: int, k: CallId)
    requires id in s.records
    ensures var t, c := RequestUnhold(s, id, n), CellOf(s, k);
            && (OnHold(CellOf(s, id)) ==>
                  && t.active == id
                  && CellOf(t, k) == if k == id then Resuming(c)
                                     else if k == s.active && k != INVALID_ID then Yielding(c)
                                     else c)
            && (!OnHold(CellOf(s, id)) ==>
                  && t.active == s.active
                  && CellOf(t, k) == if k == id && n > 0 then Marked(c, false) else c)
  {
    hide Yielding, HoldIfTalking, Resuming;
    if OnHold(CellOf(s, id)) {
      var s1 := WithHeld(s.(backend := Unhold(s.backend, id)), id, false);
      ResumeCell(s, id, k);
      ResumeCell(s, id, s.active);
      HoldCell(s1, s1.active, k);
      SameCell(HoldIfTalking(s1, s1.active), HoldIfTalking(s1, s1.active).(active := id), k);
    } else if n > 0 {
      MarkCell(s, id, false, k);
      SameCell(WithHeld(s, id, false), RequestUnhold(s, id, n), k);
    }
  }

  // -------------------------------------------------------------------------
  // One step, seen from one call
  // -------------------------------------------------------------------------

  function Unheld(s: System, id: CallId, n: int, k: CallId): Cell {
    var c := CellOf(s, k);
    if id !in s.records then c
    else if !OnHold(CellOf(s, id)) then if k == id && n > 0 then Marked(c, false) else c
    else if k == id then Resuming(c)
    else if k == s.active && k != INVALID_ID then Yielding(c)
    else c
  }

  predicate Mergeable(s: System, id: CallId, other: CallId) {
    RecordIs(CellOf(s, id), Confirmed) && RecordIs(CellOf(s, other), Confirmed)
  }

  function YieldTo(s: System, a: CallId, k: CallId): Cell {
    if k == s.active && k != a && k != INVALID_ID then Yielding(CellOf(s, k)) else CellOf(s, k)
  }

  function DialCell(s: System, account: AccountId, uri: string, k: CallId): Cell {
    if !CanDial(s, account) then CellOf(s, k)
    else if k == s.backend.nextCallId then
      Cell(Some(CallRecord(account, uri, "", Calling, 0, false, false, false, false)),
           Some(FakeCall(s.backendFor[account], uri, Calling, false, false, false, false, false)))
    else YieldTo(s, s.backend.nextCallId, k)
  }

  function AcceptCell(s: System, id: CallId, k: CallId): Cell {
    var c := CellOf(s, k);
    if id !in s.records then c
    else if k == id then Answering(if s.active == id then c else Taking(c))
    else YieldTo(s, id, k)
  }

  /** Commands that touch the record and the call they name, and nothing else. */
  function PlainCell(s: System, st: Step, c: Cell): Cell {
    match st
    case DeclineStep(_) => if c.record.Some? then Refusing(c) else c
    case ForwardStep(_, uri) => if c.record.Some? && uri != "" then Refusing(c) else c
    case HangupStep(_) => if c.record.Some? then HangingUp(c) else c
    case HoldStep(_) =>
      if c.record.Some? && CallIs(c, Confirmed) && !c.call.value.held
      then WithCall(Marked(c, true), c.call.value.(held := true, mediaActive := false)) else c
    case MuteStep(_, on) =>
      if c.record.Some? && CallIs(c, Confirmed)
      then Cell(Some(c.record.value.(muted := on)), Some(c.call.value.(muted := on))) else c
    case StartRecordingStep(_) =>
      if c.record.Some? && CallIs(c, Confirmed) && !c.call.value.recording
      then Cell(Some(c.record.value.(recording := true)), Some(c.call.value.(recording := true))) else c
    case StopRecordingStep(_) =>
      if c.call.Some? && c.call.value.recording
      then Cell(if c.record.Some? then Some(c.record.value.(recording := false)) else None,
                Some(c.call.value.(recording := false))) else c
    case RemoteAnswerStep(_) =>
      if CallIs(c, Calling) && !c.call.value.inbound
      then WithCall(c, c.call.value.(state := Confirmed, mediaActive := true)) else c
    case RemoteHangupStep(_, _) => HangingUp(c)
    case _ => c
  }

  predicate Plain(st: Step) {
    st.DeclineStep? || st.ForwardStep? || st.HangupStep? || st.HoldStep? || st.MuteStep? || st.StartRecordingStep?
    || st.StopRecordingStep? || st.RemoteAnswerStep? || st.RemoteHangupStep?
  }

  function PlainId(st: Step): CallId
    requires Plain(st)
  {
    match st
    case DeclineStep(id) => id
    case ForwardStep(id, _) => id
    case HangupStep(id) => id
    case HoldStep(id) => id
    case MuteStep(id, _) => id
    case StartRecordingStep(id) => id
    case StopRecordingStep(id) => id
    case RemoteAnswerStep(id) => id
    case RemoteHangupStep(id, _) => id
  }

  predicate EndsRecord(s: System, st: Step, k: CallId) {
    st.DeliverStep? && s.backend.queue != [] && s.backend.queue[0].CallStateChanged?
    && s.backend.queue[0].id == k && s.backend.queue[0].state == Disconnected && k in s.records
  }

  predicate SomeHeld(s: System, except: CallId) {
    exists k :: k in s.records && k != except && s.records[k].held && s.records[k].state == Confirmed
  }

  function EventCell(s: System, e: Event, pick: CallId, k: CallId): Cell {
    var c := CellOf(s, k);
    match e
    case IncomingCall(account, id, uri, name) =>
      if k != id then c
      else if account in s.accountFor
      then c.(record := Some(CallRecord(s.accountFor[account], uri, name, Calling, 0, true, false, false, false)))
      else c.(call := None)
    case CallStateChanged(id, st, _) =>
      if id !in s.records then c
      else if st != Disconnected then
        if k == id then c.(record := Some(c.record.value.(state := st))) else c
      else if k == id then Cell(None, None)
      else if id == s.active && SomeHeld(s, id) && k == pick && k in s.records then Resuming(c)
      else c
    case MediaStateChanged(_, _, _) => c
    case TransferStatus(id, code, isFinal) =>
      if isFinal && 200 <= code < 300 && id in s.transfers && k in s.transfers[id] && k in s.records then HangingUp(c) else c
  }

  function CellNext(s: System, st: Step, k: CallId): Cell
    requires Enabled(s, st)
  {
    var c := CellOf(s, k);
    match st
    case Dial(account, uri) => DialCell(s, account, uri, k)
    case AcceptStep(id) => AcceptCell(s, id, k)
    case UnholdStep(id) => Unheld(s, id, 5, k)
    case UnholdTimer(id, n) => Unheld(s, id, n, k)
    case MergeStep(id, other) =>
      if Mergeable(s, id, other) && s.records[other].held then Unheld(s, other, 5, k) else c
    case RemoteCallStep(account, uri, _) =>
      if k == s.backend.nextCallId
      then WithCall(c, FakeCall(account, uri, EarlyMedia, true, false, false, false, false)) else c
    case DeliverStep(pick) => EventCell(s, s.backend.queue[0], pick, k)
    case _ => if Plain(st) && k == PlainId(st) then PlainCell(s, st, c) else c
  }

  /** Which call the step makes the active one. */
  function ActiveNext(s: System, st: Step): CallId {
    match st
    case Dial(account, _) => if CanDial(s, account) then s.backend.nextCallId else s.active
    case AcceptStep(id) => if id in s.records then id else s.active
    case UnholdStep(id) => if id in s.records && OnHold(CellOf(s, id)) then id else s.active
    case UnholdTimer(id, _) => if id in s.records && OnHold(CellOf(s, id)) then id else s.active
    case MergeStep(id, other) =>
      if Mergeable(s, id, other) && s.records[other].held && OnHold(CellOf(s, other)) then other else s.active
    case DeliverStep(pick) =>
      if !EndsRecord(s, st, s.active) then s.active
      else if SomeHeld(s, s.active) then pick
      else INVALID_ID
    case _ => s.active
  }

  lemma StateStep(s: System, st: Step, k: CallId)
    requires st.DeclineStep? || st.ForwardStep? || st.HangupStep? || st.RemoteAnswerStep? || st.RemoteHangupStep?
    requires Enabled(s, st)
    ensures CellOf(Next(s, st), k) == (if k == PlainId(st) then PlainCell(s, st, CellOf(s, k)) else CellOf(s, k))
    ensures Next(s, st).active == s.active
  {
  }

  lemma FlagStep(s: System, st: Step, k: CallId)
    requires st.HoldStep? || st.MuteStep?
    requires Enabled(s, st)
    ensures CellOf(Next(s, st), k) == (if k == PlainId(st) then PlainCell(s, st, CellOf(s, k)) else CellOf(s, k))
    ensures Next(s, st).active == s.active
  {
  }

  lemma RecordingStep(s: System, st: Step, k: CallId)
    requires st.StartRecordingStep? || st.StopRecordingStep?
    requires Enabled(s, st)
    ensures CellOf(Next(s, st), k) == (if k == PlainId(st) then PlainCell(s, st, CellOf(s, k)) else CellOf(s, k))
    ensures Next(s, st).active == s.active
  {
  }

  lemma PlainStep(s: System, st: Step, k: CallId)
    requires Plain(st) && Enabled(s, st)
    ensures CellOf(Next(s, st), k) == (if k == PlainId(st) then PlainCell(s, st, CellOf(s, k)) else CellOf(s, k))
    ensures Next(s, st).active == s.active
  {
    hide Next, PlainCell, PlainId, CellOf;
    if st.HoldStep? || st.MuteStep? {
      FlagStep(s, st, k);
    } else if st.StartRecordingStep? || st.StopRecordingStep? {
      RecordingStep(s, st, k);
    } else {
      StateStep(s, st, k);
    }
  }

  lemma DialStep(s: System, account: AccountId, uri: string, k: CallId)
    requires Inv(s) && CanDial(s, account)
    ensures CellOf(Next(s, Dial(account, uri)), k) == DialCell(s, account, uri, k)
    ensures Next(s, Dial(account, uri)).active == s.backend.nextCallId
  {
    CallInvariant.NextIdUnrecorded(s);
    assert s.active != s.backend.nextCallId;
    hide Inv, SetActiveCall, Yielding;
    var id := s.backend.nextCallId;
    var r := CallRecord(account, uri, "", Calling, 0, false, false, false, false);
    SetActiveCell(s.(backend := BackendSpec.MakeCall(s.backend, s.backendFor[account], uri),
                     records := s.records[id := r]), id, k);
  }

  lemma AnswerCell(s: System, id: CallId, k: CallId)
    ensures CellOf(s.(backend := Answer(s.backend, id)), k) == if k == id then Answering(CellOf(s, k)) else CellOf(s, k)
  {
  }

  lemma AcceptingStep(s: System, id: CallId, k: CallId)
    requires Inv(s)
    ensures CellOf(Next(s, AcceptStep(id)), k) == AcceptCell(s, id, k)
    ensures Next(s, AcceptStep(id)).active == if id in s.records then id else s.active
  {
    if id in s.records { RecordIds(s, id); }
    hide Inv, SetActiveCall, Yielding, Taking, Answering;
    if id in s.records {
      SetActiveCell(s, id, k);
      AnswerCell(SetActiveCall(s, id), id, k);
    }
  }

  lemma RecordIds(s: System, id: CallId)
    requires Inv(s) && id in s.records
    ensures id >= 1 && id < s.backend.nextCallId
  {
    assert ViewOk(s, id);
  }

  lemma UnholdingStep(s: System, id: CallId, n: int, k: CallId)
    ensures CellOf(RequestUnhold(s, id, n), k) == Unheld(s, id, n, k)
    ensures RequestUnhold(s, id, n).active == if id in s.records && OnHold(CellOf(s, id)) then id else s.active
  {
    hide Yielding, Resuming, OnHold, Marked;
    if id in s.records {
      UnholdCell(s, id, n, k);
    } else {
      assert RequestUnhold(s, id, n) == s;
    }
    hide RequestUnhold;
  }

  lemma MergingStep(s: System, id: CallId, other: CallId, k: CallId)
    ensures CellOf(Next(s, MergeStep(id, other)), k) == CellNext(s, MergeStep(id, other), k)
    ensures Next(s, MergeStep(id, other)).active == ActiveNext(s, MergeStep(id, other))
  {
    UnholdingStep(s, other, 5, k);
    hide Unheld, OnHold, RequestUnhold;
    if Mergeable(s, id, other) {
      SameCell(RequestUnhold(s, other, 5), RequestUnhold(s, other, 5).(timers := RequestUnhold(s, other, 5).timers + multiset{BridgeRetry(id, other, 5)}), k);
      BridgeCell(s, id, other, 5, k);
      hide WireBridge;
    }
  }

  lemma BridgeCell(s: System, id: CallId, other: CallId, n: int, k: CallId)
    ensures CellOf(WireBridge(s, id, other, n), k) == CellOf(s, k) && WireBridge(s, id, other, n).active == s.active
  {
  }

  lemma HeldOthers(s: System, id: CallId)
    ensures Promotable(s.records - {id}) != {} <==> SomeHeld(s, id)
  {
    var others := Promotable(s.records - {id});
    if k :| k in others {
      assert k in s.records && k != id && s.records[k].held && s.records[k].state == Confirmed;
    }
    if k :| k in s.records && k != id && s.records[k].held && s.records[k].state == Confirmed {
      assert k in others;
    }
  }

  lemma RetiredCell(s: System, id: CallId, code: int, k: CallId)
    requires s.backend.queue != [] && id in s.records
    ensures CellOf(CallInvariant.Retired(s, id, code), k) == if k == id then Cell(None, None) else CellOf(s, k)
  {
  }

  lemma EndingStep(s: System, pick: CallId, k: CallId)
    requires Inv(s) && Enabled(s, DeliverStep(pick))
    requires s.backend.queue[0].CallStateChanged? && s.backend.queue[0].state == Disconnected
    requires s.backend.queue[0].id in s.records
    ensures CellOf(Deliver(s, pick), k) == EventCell(s, s.backend.queue[0], pick, k)
    ensures Deliver(s, pick).active == ActiveNext(s, DeliverStep(pick))
  {
    var CallStateChanged(id, _, code) := s.backend.queue[0];
    var t := CallInvariant.Retired(s, id, code).(active := pick);
    CallInvariant.DisconnectShape(s, pick);
    HeldOthers(s, id);
    RetiredCell(s, id, code, k);
    SameCell(CallInvariant.Retired(s, id, code), t, k);
    assert pick in Promotable(s.records - {id}) ==> pick in s.records && pick != id;
    hide Inv, Deliver, RequestUnhold, SomeHeld, CellOf, Resuming, Promotable;
    if s.active == id && SomeHeld(s, id) { PromotedCell(t, pick, k); }
  }

  lemma PromotedCell(t: System, pick: CallId, k: CallId)
    requires pick in t.records && t.active == pick
    ensures CellOf(RequestUnhold(t, pick, 3), k) == if k == pick then Resuming(CellOf(t, k)) else CellOf(t, k)
    ensures RequestUnhold(t, pick, 3).active == pick
  {
    UnholdingStep(t, pick, 3, k);
    hide RequestUnhold;
  }

  lemma TransferStep(s: System, pick: CallId, k: CallId)
    requires Inv(s) && Enabled(s, DeliverStep(pick)) && s.backend.queue[0].TransferStatus?
    ensures CellOf(Deliver(s, pick), k) == EventCell(s, s.backend.queue[0], pick, k)
    ensures Deliver(s, pick).active == s.active
  {
    CallTheorems.TransferOutcome(s, pick);
    if k in s.records { CallInvariant.LiveRecord(s, k); }
    hide Inv, Deliver;
  }

  lemma IncomingStep(s: System, pick: CallId, k: CallId)
    requires Inv(s) && s.backend.queue != [] && s.backend.queue[0].IncomingCall?
    ensures CellOf(Deliver(s, pick), k) == EventCell(s, s.backend.queue[0], pick, k)
    ensures Deliver(s, pick).active == s.active
  {
    CallInvariant.AnnouncePending(s);
    var IncomingCall(account, id, _, _) := s.backend.queue[0];
    assert id !in s.records && id in s.backend.calls;
    hide Inv;
    if account !in s.accountFor {
      RejectedCell(s.(backend := s.backend.(queue := s.backend.queue[1..])), id, k);
    }
  }

  lemma RejectedCell(s: System, id: CallId, k: CallId)
    ensures CellOf(s.(backend := ReleaseCall(Decline(s.backend, id, 480), id)), k)
            == if k == id then CellOf(s, k).(call := None) else CellOf(s, k)
  {
  }

  lemma ProgressStep(s: System, pick: CallId, k: CallId)
    requires s.backend.queue != []
    requires s.backend.queue[0].MediaStateChanged?
             || (s.backend.queue[0].CallStateChanged?
                 && (s.backend.queue[0].state != Disconnected || s.backend.queue[0].id !in s.records))
    ensures CellOf(Deliver(s, pick), k) == EventCell(s, s.backend.queue[0], pick, k)
    ensures Deliver(s, pick).active == s.active
  {
    hide HandleDisconnected;
  }

  lemma DeliveringStep(s: System, pick: CallId, k: CallId)
    requires Inv(s) && Enabled(s, DeliverStep(pick))
    ensures CellOf(Deliver(s, pick), k) == EventCell(s, s.backend.queue[0], pick, k)
    ensures Deliver(s, pick).active == ActiveNext(s, DeliverStep(pick))
  {
    hide Inv, SomeHeld, CellOf, EventCell, Deliver;
    match s.backend.queue[0]
    case IncomingCall(_, _, _, _) => IncomingStep(s, pick, k);
    case CallStateChanged(id, st, _) =>
      if id in s.records && st == Disconnected { EndingStep(s, pick, k); } else { ProgressStep(s, pick, k); }
    case MediaStateChanged(_, _, _) => ProgressStep(s, pick, k);
    case TransferStatus(_, _, _) => TransferStep(s, pick, k);
  }

  predicate Projects(s: System, st: Step, k: CallId)
    requires Enabled(s, st)
  {
    CellOf(Next(s, st), k) == CellNext(s, st, k) && Next(s, st).active == ActiveNext(s, st)
  }

  lemma PlainProjects(s: System, st: Step, k: CallId)
    requires Plain(st) && Enabled(s, st)
    ensures Projects(s, st, k)
  {
    PlainStep(s, st, k);
    hide PlainCell, Next, CellOf, Enabled;
  }

  lemma CommandProjects(s: System, st: Step, k: CallId)
    requires Inv(s) && Enabled(s, st) && (st.Dial? || st.AcceptStep? || st.UnholdStep? || st.MergeStep?)
    ensures Projects(s, st, k)
  {
    hide Inv, Unheld, DialCell, AcceptCell, RequestUnhold, MergeCalls, CallSpec.MakeCall, Accept, SomeHeld;
    match st
    case Dial(account, uri) => if CanDial(s, account) { DialStep(s, account, uri, k); } else { NoDial(s, account, uri, k); }
    case AcceptStep(id) => AcceptingStep(s, id, k);
    case UnholdStep(id) => UnholdingStep(s, id, 5, k);
    case MergeStep(id, other) => MergingStep(s, id, other, k);
  }

  lemma LoopProjects(s: System, st: Step, k: CallId)
    requires Inv(s) && Enabled(s, st) && Internal(st)
    ensures Projects(s, st, k)
  {
    hide Inv, Unheld, EventCell, RequestUnhold, Deliver, WireBridge, SomeHeld;
    match st
    case UnholdTimer(id, n) => RetryStep(s, id, n, k);
    case DeliverStep(pick) => DeliveringStep(s, pick, k);
    case BridgeTimer(id, other, n) => BridgeCell(Disarm(s, BridgeRetry(id, other, n)), id, other, n, k);
    case LingerTimer(_) =>
  }

  lemma RestProjects(s: System, st: Step, k: CallId)
    requires Enabled(s, st) && !Plain(st) && !Internal(st)
    requires !(st.Dial? || st.AcceptStep? || st.UnholdStep? || st.MergeStep?)
    ensures Projects(s, st, k)
  {
  }

  /** The whole transition system, projected to one call and to the active id. */
  lemma StepOnCell(s: System, st: Step, k: CallId)
    requires Inv(s) && Enabled(s, st)
    ensures CellOf(Next(s, st), k) == CellNext(s, st, k)
    ensures Next(s, st).active == ActiveNext(s, st)
  {
    if Plain(st) {
      PlainProjects(s, st, k);
    } else if Internal(st) {
      LoopProjects(s, st, k);
    } else if st.Dial? || st.AcceptStep? || st.UnholdStep? || st.MergeStep? {
      CommandProjects(s, st, k);
    } else {
      RestProjects(s, st, k);
    }
    hide Inv, Enabled, Next, CellOf, CellNext, ActiveNext;
  }

  lemma NoDial(s: System, account: AccountId, uri: string, k: CallId)
    requires !CanDial(s, account)
    ensures CallSpec.MakeCall(s, account, uri) == s && DialCell(s, account, uri, k) == CellOf(s, k)
  {
  }

  lemma RetryStep(s: System, id: CallId, n: int, k: CallId)
    ensures CellOf(RequestUnhold(Disarm(s, UnholdRetry(id, n)), id, n), k) == Unheld(s, id, n, k)
    ensures RequestUnhold(Disarm(s, UnholdRetry(id, n)), id, n).active
            == if id in s.records && OnHold(CellOf(s, id)) then id else s.active
  {
    UnholdingStep(Disarm(s, UnholdRetry(id, n)), id, n, k);
    hide RequestUnhold;
  }
}
