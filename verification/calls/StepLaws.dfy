/** What a step of the call layer does to the fields of one call, read off the
    fields alone. */
module StepLaws {
  import opened SipTypes
  import opened CallSpec
  import opened CallViews
  import opened CallCells
  import BackendSpec
  import CallInvariant

  /** What the invariant says of one call. */
  lemma CallFacts(s: System, k: CallId)
    requires Inv(s)
    ensures k in s.records ==>
              && 1 <= k < s.backend.nextCallId && k in s.backend.calls
              && var r, c := s.records[k], s.backend.calls[k];
              && r.state != Disconnected && r.muted == c.muted && r.recording == c.recording && r.inbound == c.inbound
              && (c.state != Disconnected ==> r.held == c.held)
              && (r.state == Confirmed ==> c.state == Confirmed || c.state == Disconnected)
    ensures k in s.backend.calls ==>
              && k < s.backend.nextCallId
              && var c := s.backend.calls[k];
              && c.state != Idle
              && (c.state == Calling || c.state == Confirmed ==> k in s.records)
              && (c.inbound <==> c.state == EarlyMedia || (c.state != Calling && c.inbound))
              && (c.state == Calling ==> !c.inbound) && (c.state == EarlyMedia ==> c.inbound)
              && (c.state == Calling || c.state == EarlyMedia ==> !c.held && !c.muted)
  {
    assert ViewOk(s, k);
    if k in s.records && s.records[k].state == Confirmed { CallInvariant.ConfirmedRecord(s, k); }
  }

  // -------------------------------------------------------------------------
  // Hold
  // -------------------------------------------------------------------------

  predicate Talks(s: System, k: CallId) {
    k in s.records && s.records[k].state == Confirmed && !s.records[k].held
  }

  lemma CellsAgree(s: System, t: System, k: CallId)
    ensures CellOf(t, k).record.Some? <==> k in t.records
    ensures k in t.records ==> CellOf(t, k).record.value == t.records[k]
    ensures CellOf(t, k).call.Some? <==> k in t.backend.calls
    ensures k in t.backend.calls ==> CellOf(t, k).call.value == t.backend.calls[k]
  {
  }

  /** The step asks for this call to be resumed, and has an attempt left or a
      backend that agrees. */
  predicate AsksToResume(s: System, st: Step, k: CallId) {
    match st
    case UnholdStep(id) => id == k
    case UnholdTimer(id, n) =>
      id == k && (n > 0 || (k in s.backend.calls && s.backend.calls[k].state == Confirmed && s.backend.calls[k].held))
    case MergeStep(id, other) =>
      other == k && id in s.records && s.records[id].state == Confirmed && k in s.records && s.records[k].state == Confirmed
    case _ => false
  }

  /** A call comes to be held exactly if it was talking and another call became
      active, or by the command on this very call while it is confirmed. A held
      one is no longer marked held exactly if it became the active one, or if
      resuming it was asked for. */
  predicate HeldNext(s: System, st: Step, k: CallId, active: CallId, held: bool)
    requires k in s.records && k in s.backend.calls
  {
    if !s.records[k].held then
      held <==> (k == s.active && active != k && s.records[k].state == Confirmed)
                || (st == HoldStep(k) && s.backend.calls[k].state == Confirmed)
    else !held <==> (active == k && s.active != k) || AsksToResume(s, st, k)
  }

  predicate HeldOk(s: System, st: Step, k: CallId)
    requires Enabled(s, st)
  {
    k in s.records && k in s.backend.calls && CellNext(s, st, k).record.Some?
    ==> HeldNext(s, st, k, ActiveNext(s, st), CellNext(s, st, k).record.value.held)
  }

  lemma HeldByPlain(s: System, st: Step, k: CallId)
    requires Inv(s) && Enabled(s, st) && Plain(st)
    ensures HeldOk(s, st, k)
  {
    CallFacts(s, k);
    hide Inv, Refusing, HangingUp;
    RecordsKept(CellOf(s, k));
  }

  lemma RecordsKept(c: Cell)
    ensures Refusing(c).record == c.record && HangingUp(c).record == c.record && Answering(c).record == c.record
  {
  }

  lemma HeldByTaking(s: System, st: Step, k: CallId)
    requires Inv(s) && Enabled(s, st) && (st.Dial? || st.AcceptStep?)
    ensures HeldOk(s, st, k)
  {
    CallFacts(s, k);
    CallFacts(s, s.active);
    CallInvariant.NextIdUnrecorded(s);
    hide Inv, Answering;
    RecordsKept(if k in s.records then Taking(CellOf(s, k)) else CellOf(s, k));
    RecordsKept(CellOf(s, k));
  }

  lemma HeldByUnhold(s: System, id: CallId, n: int, k: CallId)
    requires Inv(s) && k in s.records
    ensures k in s.backend.calls && Unheld(s, id, n, k).record.Some?
    ensures var held := Unheld(s, id, n, k).record.value.held;
            var can := id in s.records && OnHold(CellOf(s, id));
            var active := if can then id else s.active;
            if !s.records[k].held then held <==> k == s.active && active != k && s.records[k].state == Confirmed
            else !held <==> (active == k && s.active != k) || (id == k && (n > 0 || can))
  {
    CallFacts(s, k);
    hide Inv;
  }

  lemma HeldByResuming(s: System, st: Step, k: CallId)
    requires Inv(s) && Enabled(s, st) && (st.UnholdStep? || st.UnholdTimer? || st.MergeStep?)
    ensures HeldOk(s, st, k)
  {
    if k in s.records {
      CallFacts(s, k);
      match st
      case UnholdStep(id) => HeldByUnhold(s, id, 5, k);
      case UnholdTimer(id, n) => HeldByUnhold(s, id, n, k);
      case MergeStep(id, other) => HeldByUnhold(s, other, 5, k);
    }
    hide Inv, Unheld;
  }

  lemma HeldByLoop(s: System, st: Step, k: CallId)
    requires Inv(s) && Enabled(s, st) && !Plain(st) && !st.Dial? && !st.AcceptStep?
    requires !st.UnholdStep? && !st.UnholdTimer? && !st.MergeStep?
    ensures HeldOk(s, st, k)
  {
    CallFacts(s, k);
    if st.DeliverStep? && s.backend.queue[0].IncomingCall? { CallInvariant.AnnouncePending(s); }
    if st.DeliverStep? && EndsRecord(s, st, s.active) { HeldOthers(s, s.active); }
    hide Inv, HangingUp;
    RecordsKept(CellOf(s, k));
  }

  lemma HeldExact(s: System, st: Step, k: CallId)
    requires Inv(s) && Enabled(s, st) && k in s.records && k in Next(s, st).records
    ensures k in s.backend.calls
    ensures HeldNext(s, st, k, Next(s, st).active, Next(s, st).records[k].held)
  {
    StepOnCell(s, st, k);
    CallFacts(s, k);
    CellsAgree(s, Next(s, st), k);
    if Plain(st) { HeldByPlain(s, st, k); }
    else if st.Dial? || st.AcceptStep? { HeldByTaking(s, st, k); }
    else if st.UnholdStep? || st.UnholdTimer? || st.MergeStep? { HeldByResuming(s, st, k); }
    else { HeldByLoop(s, st, k); }
    hide Inv, Next, Enabled, CellNext, ActiveNext, CellOf, HeldNext;
  }

  /** Whatever makes another call the active one, the call that was talking is
      held, in the record and in the backend. */
  lemma AutoHold(s: System, st: Step)
    requires Inv(s) && Enabled(s, st)
    ensures var t, a := Next(s, st), s.active;
            Talks(s, a) && t.active != a && a in t.records ==>
              && t.records[a].held && a in t.backend.calls
              && (t.backend.calls[a].state == Confirmed ==> t.backend.calls[a].held)
  {
    var t, a := Next(s, st), s.active;
    CallInvariant.NextKeeps(s, st);
    CallFacts(t, a);
    if a in s.records && a in t.records { HeldExact(s, st, a); }
    hide Inv, Next, Enabled;
  }

  // -------------------------------------------------------------------------
  // Who is active
  // -------------------------------------------------------------------------

  /** The backend has the call on hold, and the step asks for it to be resumed. */
  predicate ResumesNow(s: System, st: Step, k: CallId) {
    k in s.records && k in s.backend.calls && s.backend.calls[k].state == Confirmed && s.backend.calls[k].held
    && AsksToResume(s, st, k)
  }

  predicate Takes(s: System, st: Step, k: CallId) {
    match st
    case Dial(account, _) =>
      k == s.backend.nextCallId && account in s.backendFor && s.backendFor[account] in s.backend.accounts
    case AcceptStep(id) => k == id && id in s.records
    case _ => ResumesNow(s, st, k)
  }

  /** A call becomes, or stays, active by being dialled, accepted or resumed; when
      the active call ends, a held confirmed call takes over, if there is one;
      otherwise nothing changes. */
  lemma ActiveExact(s: System, st: Step)
    requires Inv(s) && Enabled(s, st)
    ensures var t := Next(s, st);
            && (forall k | Takes(s, st, k) :: t.active == k)
            && (EndsRecord(s, st, s.active) ==>
                  if exists k :: k in s.records && k != s.active && s.records[k].held && s.records[k].state == Confirmed
                  then t.active in s.records && t.active != s.active && s.records[t.active].held
                       && s.records[t.active].state == Confirmed
                  else t.active == INVALID_ID)
            && (t.active != s.active ==> Takes(s, st, t.active) || EndsRecord(s, st, s.active))
  {
    StepOnCell(s, st, s.active);
    if EndsRecord(s, st, s.active) { HeldOthers(s, s.active); }
    forall k ensures CellOf(s, k).call.Some? <==> k in s.backend.calls { CellsAgree(s, s, k); }
    CallFacts(s, s.active);
    if st.MergeStep? { CallFacts(s, st.other); }
    hide Inv, Next, CellNext;
  }

  // -------------------------------------------------------------------------
  // States
  // -------------------------------------------------------------------------

  predicate Answers(s: System, st: Step, k: CallId)
    requires k in s.backend.calls
  {
    (st == AcceptStep(k) && k in s.records && s.backend.calls[k].state == EarlyMedia)
    || (st == RemoteAnswerStep(k) && s.backend.calls[k].state == Calling)
  }

  /** A final 2xx on a pending transfer that lists the call. */
  predicate TransferEnds(s: System, st: Step, k: CallId) {
    st.DeliverStep? && s.backend.queue != [] && s.backend.queue[0].TransferStatus?
    && s.backend.queue[0].isFinal && 200 <= s.backend.queue[0].code < 300
    && s.backend.queue[0].id in s.transfers && k in s.transfers[s.backend.queue[0].id] && k in s.records
  }

  predicate Ends(s: System, st: Step, k: CallId)
    requires k in s.backend.calls
  {
    match st
    case HangupStep(id) => id == k && k in s.records
    case RemoteHangupStep(id, _) => id == k
    case DeclineStep(id) => id == k && k in s.records && s.backend.calls[k].state == EarlyMedia
    case ForwardStep(id, uri) => id == k && k in s.records && uri != "" && s.backend.calls[k].state == EarlyMedia
    case _ => TransferEnds(s, st, k)
  }

  predicate CallNext(s: System, st: Step, k: CallId, c: FakeCall)
    requires k in s.backend.calls
  {
    var was := s.backend.calls[k];
    && c.state == (if Answers(s, st, k) then Confirmed else if Ends(s, st, k) then Disconnected else was.state)
    && c.muted == (if st.MuteStep? && st.id == k && was.state == Confirmed && k in s.records then st.on else was.muted)
    && c.recording == (if st == StartRecordingStep(k) && was.state == Confirmed && k in s.records then true
                       else if st == StopRecordingStep(k) then false
                       else was.recording)
    && c.accountId == was.accountId && c.remoteUri == was.remoteUri && c.inbound == was.inbound
  }

  predicate CallOk(s: System, st: Step, k: CallId)
    requires Enabled(s, st)
  {
    k in s.backend.calls && CellNext(s, st, k).call.Some? ==> CallNext(s, st, k, CellNext(s, st, k).call.value)
  }

  predicate SetsFlag(st: Step) {
    st.HoldStep? || st.MuteStep? || st.StartRecordingStep? || st.StopRecordingStep?
  }

  lemma CallByFlag(s: System, st: Step, k: CallId)
    requires Inv(s) && Enabled(s, st) && SetsFlag(st)
    ensures CallOk(s, st, k)
  {
    CallFacts(s, k);
    hide Inv;
  }

  lemma CallByState(s: System, st: Step, k: CallId)
    requires Inv(s) && Enabled(s, st) && Plain(st) && !SetsFlag(st)
    ensures CallOk(s, st, k)
  {
    CallFacts(s, k);
    hide Inv;
  }

  lemma SameCall(c: Cell)
    ensures var d := Yielding(c);
            d.call.Some? == c.call.Some? && (c.call.Some? ==> d.call.value == c.call.value.(held := d.call.value.held, mediaActive := d.call.value.mediaActive))
    ensures c.record.Some? ==>
              var d := Resuming(c);
              d.call.Some? == c.call.Some? && (c.call.Some? ==> d.call.value == c.call.value.(held := d.call.value.held, mediaActive := d.call.value.mediaActive))
    ensures c.record.Some? ==> Marked(c, false).call == c.call
  {
  }

  lemma CallByTaking(s: System, st: Step, k: CallId)
    requires Inv(s) && Enabled(s, st) && (st.Dial? || st.AcceptStep?)
    ensures CallOk(s, st, k)
  {
    CallFacts(s, k);
    SameCall(CellOf(s, k));
    hide Inv, Yielding, Resuming, Marked;
  }

  lemma CallByResuming(s: System, st: Step, k: CallId)
    requires Inv(s) && Enabled(s, st) && (st.UnholdStep? || st.UnholdTimer? || st.MergeStep?)
    ensures CallOk(s, st, k)
  {
    SameCall(CellOf(s, k));
    hide Inv, Yielding, Resuming, Marked, OnHold, Mergeable;
  }

  lemma CallByLoop(s: System, st: Step, k: CallId)
    requires Inv(s) && Enabled(s, st) && !Plain(st) && !st.Dial? && !st.AcceptStep?
    requires !st.UnholdStep? && !st.UnholdTimer? && !st.MergeStep?
    ensures CallOk(s, st, k)
  {
    CallFacts(s, k);
    SameCall(CellOf(s, k));
    hide Inv, Yielding, Resuming, Marked, SomeHeld;
  }

  /** A backend call changes its state, its mute flag and its recording flag by
      exactly these steps, and never its account, address or direction. */
  lemma CallExact(s: System, st: Step, k: CallId)
    requires Inv(s) && Enabled(s, st) && k in s.backend.calls && k in Next(s, st).backend.calls
    ensures CallNext(s, st, k, Next(s, st).backend.calls[k])
  {
    StepOnCell(s, st, k);
    CellsAgree(s, Next(s, st), k);
    if SetsFlag(st) { CallByFlag(s, st, k); }
    else if Plain(st) { CallByState(s, st, k); }
    else if st.Dial? || st.AcceptStep? { CallByTaking(s, st, k); }
    else if st.UnholdStep? || st.UnholdTimer? || st.MergeStep? { CallByResuming(s, st, k); }
    else { CallByLoop(s, st, k); }
    hide Inv, Next, Enabled, CellNext, CellOf, CallNext;
  }

  // -------------------------------------------------------------------------
  // Coming and going
  // -------------------------------------------------------------------------

  predicate Dials(s: System, st: Step) {
    st.Dial? && st.account in s.backendFor && s.backendFor[st.account] in s.backend.accounts
  }

  predicate Announces(s: System, st: Step, k: CallId) {
    st.DeliverStep? && s.backend.queue != [] && s.backend.queue[0].IncomingCall? && s.backend.queue[0].id == k
  }

  predicate PresenceNext(s: System, st: Step, k: CallId, c: Cell) {
    && (k !in s.backend.calls ==>
          (c.call.Some? <==> k == s.backend.nextCallId && (Dials(s, st) || st.RemoteCallStep?)))
    && (k in s.backend.calls ==>
          (c.call.None? <==> EndsRecord(s, st, k) || (Announces(s, st, k) && s.backend.queue[0].account !in s.accountFor)))
    && (k !in s.records ==>
          (c.record.Some? <==> (k == s.backend.nextCallId && Dials(s, st))
                               || (Announces(s, st, k) && s.backend.queue[0].account in s.accountFor)))
    && (k in s.records ==> (c.record.None? <==> EndsRecord(s, st, k)))
    && (k == s.backend.nextCallId && Dials(s, st) ==>
          c == Cell(Some(CallRecord(st.account, st.uri, "", Calling, 0, false, false, false, false)),
                    Some(FakeCall(s.backendFor[st.account], st.uri, Calling, false, false, false, false, false))))
    && (Announces(s, st, k) && s.backend.queue[0].account in s.accountFor ==>
          c.record == Some(CallRecord(s.accountFor[s.backend.queue[0].account], s.backend.queue[0].uri,
                                      s.backend.queue[0].name, Calling, 0, true, false, false, false)))
    && (k == s.backend.nextCallId && st.RemoteCallStep? ==>
          c.call == Some(FakeCall(st.account, st.uri, EarlyMedia, true, false, false, false, false)))
  }

  lemma PresenceByLoop(s: System, st: Step, k: CallId)
    requires Inv(s) && Enabled(s, st) && (st.UnholdTimer? || st.BridgeTimer? || st.LingerTimer? || st.RemoteCallStep?)
    ensures PresenceNext(s, st, k, CellNext(s, st, k))
  {
    CallFacts(s, k);
    CallInvariant.NextIdUnrecorded(s);
    SameCall(CellOf(s, k));
    hide Inv, Yielding, Marked;
  }

  lemma PresenceByDelivery(s: System, st: Step, k: CallId)
    requires Inv(s) && Enabled(s, st) && st.DeliverStep?
    ensures PresenceNext(s, st, k, CellNext(s, st, k))
  {
    CallFacts(s, k);
    SameCall(CellOf(s, k));
    if s.backend.queue[0].IncomingCall? { CallInvariant.AnnouncePending(s); }
    hide Inv, Yielding, Marked, SomeHeld;
  }

  lemma PresenceByCommand(s: System, st: Step, k: CallId)
    requires Inv(s) && Enabled(s, st) && !Internal(st) && !st.RemoteCallStep?
    ensures PresenceNext(s, st, k, CellNext(s, st, k))
  {
    CallFacts(s, k);
    CallInvariant.NextIdUnrecorded(s);
    hide Inv;
  }

  /** Calls and records come about and go by exactly these steps; a new call has
      the account and the address it was made with. */
  lemma PresenceExact(s: System, st: Step, k: CallId)
    requires Inv(s) && Enabled(s, st)
    ensures PresenceNext(s, st, k, CellOf(Next(s, st), k))
  {
    StepOnCell(s, st, k);
    if st.DeliverStep? { PresenceByDelivery(s, st, k); }
    else if Internal(st) || st.RemoteCallStep? { PresenceByLoop(s, st, k); } else { PresenceByCommand(s, st, k); }
    hide Inv, Next, Enabled, CellNext, CellOf, PresenceNext;
  }
}
