/** Merging two calls ends with a bridge between these two, or with the end of
    one of them; and no two calls are bridged that were not merged. */
module MergeLaws {
  import opened SipTypes
  import opened CallSpec
  import opened CallViews
  import opened StepLaws
  import BackendSpec
  import CallInvariant
  import CallTheorems

  predicate Bridged(s: System, id: CallId, other: CallId) {
    DidBridge(id, other) in s.backend.log
  }

  ghost predicate WillTry(s: System, id: CallId, other: CallId) {
    exists n :: BridgeRetry(id, other, n) in s.timers
  }

  // -------------------------------------------------------------------------
  // Steps that do not concern bridges
  // -------------------------------------------------------------------------

  /** The log grows, and neither a bridge nor an attempt at one comes or goes. */
  ghost predicate Onward(s: System, t: System, id: CallId, other: CallId) {
    && s.backend.log <= t.backend.log
    && (Bridged(t, id, other) <==> Bridged(s, id, other))
    && forall n :: BridgeRetry(id, other, n) in t.timers <==> BridgeRetry(id, other, n) in s.timers
  }

  lemma OnwardTrans(s: System, t: System, u: System, id: CallId, other: CallId)
    requires Onward(s, t, id, other) && Onward(t, u, id, other)
    ensures Onward(s, u, id, other)
  {
  }

  lemma SameLog(s: System, t: System, id: CallId, other: CallId)
    requires t.backend.log == s.backend.log && t.timers == s.timers
    ensures Onward(s, t, id, other)
  {
  }

  lemma OneLine(s: System, t: System, c: Command, id: CallId, other: CallId)
    requires t.backend.log == s.backend.log + [c] && !c.DidBridge? && t.timers == s.timers
    ensures Onward(s, t, id, other)
  {
  }

  lemma NewTimer(s: System, t: System, x: Timer, id: CallId, other: CallId)
    requires t.backend.log == s.backend.log && t.timers == s.timers + multiset{x} && !x.BridgeRetry?
    ensures Onward(s, t, id, other)
  {
  }

  lemma HoldOnward(s: System, a: CallId, id: CallId, other: CallId)
    ensures Onward(s, HoldIfTalking(s, a), id, other)
  {
    var t := HoldIfTalking(s, a);
    assert t.backend.log == s.backend.log || t.backend.log == s.backend.log + [DidHold(a)];
    hide HoldIfTalking, Onward;
    if t.backend.log == s.backend.log { SameLog(s, t, id, other); } else { OneLine(s, t, DidHold(a), id, other); }
  }

  lemma ResumeOnward(s: System, a: CallId, id: CallId, other: CallId)
    requires a in s.records
    ensures Onward(s, WithHeld(s.(backend := BackendSpec.Unhold(s.backend, a)), a, false), id, other)
  {
    var t := WithHeld(s.(backend := BackendSpec.Unhold(s.backend, a)), a, false);
    assert t.backend.log == s.backend.log || t.backend.log == s.backend.log + [DidUnhold(a)];
    hide Onward;
    if t.backend.log == s.backend.log { SameLog(s, t, id, other); } else { OneLine(s, t, DidUnhold(a), id, other); }
  }

  lemma SetActiveOnward(s: System, a: CallId, id: CallId, other: CallId)
    ensures Onward(s, SetActiveCall(s, a), id, other)
  {
    hide Onward, HoldIfTalking, WithHeld;
    SameLog(s, s, id, other);
    HoldOnward(s, s.active, id, other);
    var s0 := HoldIfTalking(s, s.active);
    var s1 := s0.(active := a);
    SameLog(s0, s1, id, other);
    OnwardTrans(s, s0, s1, id, other);
    if a in s1.records {
      ResumeOnward(s1, a, id, other);
      OnwardTrans(s, s1, WithHeld(s1.(backend := BackendSpec.Unhold(s1.backend, a)), a, false), id, other);
    }
  }

  lemma UnholdOnward(s: System, a: CallId, n: int, id: CallId, other: CallId)
    ensures Onward(s, RequestUnhold(s, a, n), id, other)
  {
    SameLog(s, s, id, other);
    if a in s.records {
      if BackendSpec.CanUnhold(s.backend, a) {
        hide Onward, HoldIfTalking, WithHeld;
        ResumeOnward(s, a, id, other);
        var s1 := WithHeld(s.(backend := BackendSpec.Unhold(s.backend, a)), a, false);
        HoldOnward(s1, s1.active, id, other);
        var s2 := HoldIfTalking(s1, s1.active);
        OnwardTrans(s, s1, s2, id, other);
        SameLog(s2, s2.(active := a), id, other);
        OnwardTrans(s, s2, s2.(active := a), id, other);
      } else if n > 0 {
        NewTimer(s, RequestUnhold(s, a, n), UnholdRetry(a, n - 1), id, other);
      }
    }
  }

  lemma HangupOnward(s: System, a: CallId, id: CallId, other: CallId)
    ensures Onward(s, s.(backend := BackendSpec.Hangup(s.backend, a)), id, other)
  {
    var t := s.(backend := BackendSpec.Hangup(s.backend, a));
    if t.backend.log == s.backend.log { SameLog(s, t, id, other); } else { OneLine(s, t, DidHangup(a), id, other); }
  }

  lemma {:induction false} LegsOnward(s: System, legs: seq<CallId>, id: CallId, other: CallId)
    ensures Onward(s, HangupLegs(s, legs), id, other)
    decreases |legs|
  {
    hide Onward;
    SameLog(s, s, id, other);
    if legs != [] {
      HangupOnward(s, legs[0], id, other);
      var t := if legs[0] in s.records then s.(backend := BackendSpec.Hangup(s.backend, legs[0])) else s;
      LegsOnward(t, legs[1..], id, other);
      OnwardTrans(s, t, HangupLegs(t, legs[1..]), id, other);
    }
  }

  lemma DialOnward(s: System, account: AccountId, uri: string, id: CallId, other: CallId)
    ensures Onward(s, CallSpec.MakeCall(s, account, uri), id, other)
  {
    hide Onward, SetActiveCall;
    SameLog(s, s, id, other);
    if CanDial(s, account) {
      var n := s.backend.nextCallId;
      var r := CallRecord(account, uri, "", Calling, 0, false, false, false, false);
      var t := s.(backend := BackendSpec.MakeCall(s.backend, s.backendFor[account], uri),
                  records := if n in s.records then s.records else s.records[n := r]);
      OneLine(s, t, DidMakeCall(n, uri), id, other);
      SetActiveOnward(t, n, id, other);
      OnwardTrans(s, t, SetActiveCall(t, n), id, other);
    }
  }

  lemma AcceptOnward(s: System, a: CallId, id: CallId, other: CallId)
    ensures Onward(s, Accept(s, a), id, other)
  {
    hide Onward, SetActiveCall;
    SameLog(s, s, id, other);
    SetActiveOnward(s, a, id, other);
    var s1 := SetActiveCall(s, a);
    var t := s1.(backend := BackendSpec.Answer(s1.backend, a));
    if t.backend.log == s1.backend.log { SameLog(s1, t, id, other); } else { OneLine(s1, t, DidAnswer(a), id, other); }
    OnwardTrans(s, s1, t, id, other);
  }

  /** The line the step adds to the log, for the steps that add one at the most. */
  function Line(st: Step): Command {
    match st
    case DeclineStep(id) => DidDecline(id, 486)
    case ForwardStep(id, uri) => DidRedirect(id, uri)
    case HoldStep(id) => DidHold(id)
    case BlindStep(id, uri) => DidBlindTransfer(id, uri)
    case AttendedStep(id, dest) => DidAttendedTransfer(id, dest)
    case HangupStep(id) => DidHangup(id)
    case MuteStep(id, on) => DidSetMuted(id, on)
    case StartRecordingStep(id) => DidStartRecording(id)
    case StopRecordingStep(id) => DidStopRecording(id)
    case _ => DidAnswer(0)
  }

  lemma OneLineSteps(s: System, st: Step)
    requires Enabled(s, st) && !Internal(st) && !st.Dial? && !st.AcceptStep? && !st.UnholdStep? && !st.MergeStep?
    ensures Next(s, st).timers == s.timers
    ensures Next(s, st).backend.log == s.backend.log || Next(s, st).backend.log == s.backend.log + [Line(st)]
  {
    if SetsFlag(st) { FlagLine(s, st); }
    else if st.BlindStep? { BlindLine(s, st); }
    else if st.AttendedStep? { AttendedLine(s, st); }
    else if st.DeclineStep? || st.ForwardStep? || st.HangupStep? { EndLine(s, st); }
    else { RemoteLine(s, st); }
    hide Next, Enabled, Line;
  }

  lemma FlagLine(s: System, st: Step)
    requires Enabled(s, st) && SetsFlag(st)
    ensures Next(s, st).timers == s.timers
    ensures Next(s, st).backend.log == s.backend.log || Next(s, st).backend.log == s.backend.log + [Line(st)]
  {
  }

  lemma BlindLine(s: System, st: Step)
    requires Enabled(s, st) && st.BlindStep?
    ensures Next(s, st).timers == s.timers
    ensures Next(s, st).backend.log == s.backend.log || Next(s, st).backend.log == s.backend.log + [Line(st)]
  {
  }

  lemma AttendedLine(s: System, st: Step)
    requires Enabled(s, st) && st.AttendedStep?
    ensures Next(s, st).timers == s.timers
    ensures Next(s, st).backend.log == s.backend.log || Next(s, st).backend.log == s.backend.log + [Line(st)]
  {
  }

  lemma EndLine(s: System, st: Step)
    requires Enabled(s, st) && (st.DeclineStep? || st.ForwardStep? || st.HangupStep?)
    ensures Next(s, st).timers == s.timers
    ensures Next(s, st).backend.log == s.backend.log || Next(s, st).backend.log == s.backend.log + [Line(st)]
  {
  }

  lemma RemoteLine(s: System, st: Step)
    requires Enabled(s, st)
    requires st.RemoteCallStep? || st.RemoteAnswerStep? || st.RemoteHangupStep? || st.RemoteTransferStep? || st.AccountsStep?
    ensures Next(s, st).timers == s.timers && Next(s, st).backend.log == s.backend.log
  {
  }

  lemma EndOnward(s: System, pick: CallId, id: CallId, other: CallId)
    requires s.backend.queue != [] && s.backend.queue[0].CallStateChanged?
    requires s.backend.queue[0].state == Disconnected && s.backend.queue[0].id in s.records
    ensures Onward(s, Deliver(s, pick), id, other)
  {
    var k, code := s.backend.queue[0].id, s.backend.queue[0].code;
    CallInvariant.DisconnectShape(s, pick);
    var t := CallInvariant.Retired(s, k, code);
    RetiredOnward(s, k, code, id, other);
    hide Onward, RequestUnhold;
    var u := t.(active := pick);
    SameLog(t, u, id, other);
    OnwardTrans(s, t, u, id, other);
    UnholdOnward(u, pick, 3, id, other);
    OnwardTrans(s, u, RequestUnhold(u, pick, 3), id, other);
  }

  lemma RetiredOnward(s: System, k: CallId, code: int, id: CallId, other: CallId)
    requires s.backend.queue != [] && k in s.records
    ensures Onward(s, CallInvariant.Retired(s, k, code), id, other)
  {
    var t := CallInvariant.Retired(s, k, code);
    var u := s.(timers := t.timers);
    NewTimer(s, u, LingerExpiry(k), id, other);
    if t.backend.log == s.backend.log { SameLog(u, t, id, other); } else { OneLine(u, t, DidReleaseCall(k), id, other); }
    OnwardTrans(s, u, t, id, other);
  }

  lemma RejectOnward(s: System, k: CallId, id: CallId, other: CallId)
    ensures Onward(s, s.(backend := BackendSpec.ReleaseCall(BackendSpec.Decline(s.backend, k, 480), k)), id, other)
  {
    hide Onward;
    var t := s.(backend := BackendSpec.Decline(s.backend, k, 480));
    var u := t.(backend := BackendSpec.ReleaseCall(t.backend, k));
    if t.backend.log == s.backend.log { SameLog(s, t, id, other); } else { OneLine(s, t, DidDecline(k, 480), id, other); }
    if u.backend.log == t.backend.log { SameLog(t, u, id, other); } else { OneLine(t, u, DidReleaseCall(k), id, other); }
    OnwardTrans(s, t, u, id, other);
  }

  lemma DeliverOnward(s: System, pick: CallId, id: CallId, other: CallId)
    requires s.backend.queue != []
    ensures Onward(s, Deliver(s, pick), id, other)
  {
    hide Onward, HandleDisconnected, HangupLegs;
    var p := CallInvariant.Popped(s);
    SameLog(s, p, id, other);
    match s.backend.queue[0]
    case IncomingCall(account, k, _, _) =>
      if account in s.accountFor {
        SameLog(s, Deliver(s, pick), id, other);
      } else {
        RejectOnward(p, k, id, other);
        OnwardTrans(s, p, Deliver(s, pick), id, other);
      }
    case CallStateChanged(k, st, _) =>
      if k in s.records && st == Disconnected { EndOnward(s, pick, id, other); }
      else { SameLog(s, Deliver(s, pick), id, other); }
    case MediaStateChanged(_, _, _) =>
    case TransferStatus(k, code, isFinal) =>
      var t := p.(transfers := if isFinal then s.transfers - {k} else s.transfers);
      SameLog(s, t, id, other);
      LegsOnward(t, LegsToHangup(s.transfers, k, code, isFinal), id, other);
      OnwardTrans(s, t, Deliver(s, pick), id, other);
  }

  lemma DisarmOnward(s: System, x: Timer, id: CallId, other: CallId)
    requires x in s.timers && !x.BridgeRetry?
    ensures Onward(s, Disarm(s, x), id, other)
  {
  }

  /** Only merging two calls, and retrying it, has to do with their bridge. */
  lemma StepOnward(s: System, st: Step, id: CallId, other: CallId)
    requires Enabled(s, st) && !st.MergeStep? && !st.BridgeTimer?
    ensures Onward(s, Next(s, st), id, other)
  {
    hide Onward, SetActiveCall, RequestUnhold, Accept, CallSpec.MakeCall, Deliver;
    match st
    case Dial(account, uri) => DialOnward(s, account, uri, id, other);
    case AcceptStep(a) => AcceptOnward(s, a, id, other);
    case UnholdStep(a) => UnholdOnward(s, a, 5, id, other);
    case UnholdTimer(a, n) =>
      var t := Disarm(s, UnholdRetry(a, n));
      DisarmOnward(s, UnholdRetry(a, n), id, other);
      UnholdOnward(t, a, n, id, other);
      OnwardTrans(s, t, Next(s, st), id, other);
    case LingerTimer(a) =>
      var t := Disarm(s, LingerExpiry(a));
      DisarmOnward(s, LingerExpiry(a), id, other);
      SameLog(t, Next(s, st), id, other);
      OnwardTrans(s, t, Next(s, st), id, other);
    case DeliverStep(pick) => DeliverOnward(s, pick, id, other);
    case _ => OtherOnward(s, st, id, other);
  }

  lemma OtherOnward(s: System, st: Step, id: CallId, other: CallId)
    requires Enabled(s, st) && !Internal(st) && !st.Dial? && !st.AcceptStep? && !st.UnholdStep? && !st.MergeStep?
    ensures Onward(s, Next(s, st), id, other)
  {
    OneLineSteps(s, st);
    hide Next, Onward;
    if Next(s, st).backend.log == s.backend.log { SameLog(s, Next(s, st), id, other); }
    else { OneLine(s, Next(s, st), Line(st), id, other); }
  }

  // -------------------------------------------------------------------------
  // Merging
  // -------------------------------------------------------------------------

  predicate BothTalking(s: System, id: CallId, other: CallId) {
    id in s.backend.calls && s.backend.calls[id].state == Confirmed
    && other in s.backend.calls && s.backend.calls[other].state == Confirmed
  }

  lemma AttemptFor(s: System, id: CallId, other: CallId, n: int)
    requires id in s.records && other in s.records
    ensures var t := WireBridge(s, id, other, n);
            && s.backend.log <= t.backend.log
            && (BothTalking(s, id, other) ==> Bridged(t, id, other))
            && (!BothTalking(s, id, other) && n > 0 ==> BridgeRetry(id, other, n - 1) in t.timers)
            && (Bridged(s, id, other) ==> Bridged(t, id, other))
  {
    var t := WireBridge(s, id, other, n);
    if BothTalking(s, id, other) {
      assert t.backend.log == s.backend.log + [DidBridge(id, other)];
      assert t.backend.log[|s.backend.log|] == DidBridge(id, other);
    }
  }

  lemma AttemptForOthers(s: System, id: CallId, other: CallId, n: int, a: CallId, b: CallId)
    requires (a, b) != (id, other)
    ensures Onward(s, WireBridge(s, id, other, n), a, b)
  {
    var t := WireBridge(s, id, other, n);
    if t.backend.log != s.backend.log {
      OtherLine(s, t, id, other, a, b);
    } else if t.timers != s.timers {
      OtherTimer(s, t, id, other, n - 1, a, b);
    } else {
      SameLog(s, t, a, b);
    }
  }

  lemma OtherLine(s: System, t: System, id: CallId, other: CallId, a: CallId, b: CallId)
    requires (a, b) != (id, other)
    requires t.backend.log == s.backend.log + [DidBridge(id, other)] && t.timers == s.timers
    ensures Onward(s, t, a, b)
  {
  }

  lemma OtherTimer(s: System, t: System, id: CallId, other: CallId, n: int, a: CallId, b: CallId)
    requires (a, b) != (id, other)
    requires t.backend.log == s.backend.log && t.timers == s.timers + multiset{BridgeRetry(id, other, n)}
    ensures Onward(s, t, a, b)
  {
    forall m ensures BridgeRetry(a, b, m) in t.timers <==> BridgeRetry(a, b, m) in s.timers {
      assert BridgeRetry(a, b, m) != BridgeRetry(id, other, n);
    }
  }

  /** Two confirmed records that are merged are bridged at once if the second
      call is not on hold and both are up, and tried again later otherwise. */
  lemma MergeStarts(s: System, id: CallId, other: CallId)
    requires id in s.records && s.records[id].state == Confirmed && other in s.records && s.records[other].state == Confirmed
    ensures var t := Next(s, MergeStep(id, other));
            && s.backend.log <= t.backend.log
            && (if !s.records[other].held && BothTalking(s, id, other) then Bridged(t, id, other) else WillTry(t, id, other))
  {
    hide RequestUnhold, WireBridge;
    if s.records[other].held {
      UnholdOnward(s, other, 5, id, other);
      var t := Next(s, MergeStep(id, other));
      assert BridgeRetry(id, other, 5) in t.timers;
    } else {
      AttemptFor(s, id, other, 5);
    }
  }

  lemma MergeForOthers(s: System, st: Step, a: CallId, b: CallId)
    requires st.MergeStep? && (a, b) != (st.id, st.other)
    ensures Onward(s, Next(s, st), a, b)
  {
    hide Onward, RequestUnhold, WireBridge;
    SameLog(s, s, a, b);
    AttemptForOthers(s, st.id, st.other, 5, a, b);
    UnholdOnward(s, st.other, 5, a, b);
    var t := RequestUnhold(s, st.other, 5);
    var u := t.(timers := t.timers + multiset{BridgeRetry(st.id, st.other, 5)});
    OtherTimer(t, u, st.id, st.other, 5, a, b);
    OnwardTrans(s, t, u, a, b);
  }

  lemma RetryForOthers(s: System, st: Step, a: CallId, b: CallId)
    requires st.BridgeTimer? && Enabled(s, st) && (a, b) != (st.id, st.other)
    ensures Onward(s, Next(s, st), a, b)
  {
    var x := BridgeRetry(st.id, st.other, st.retries);
    var t := Disarm(s, x);
    assert Onward(s, t, a, b) by {
      forall m ensures BridgeRetry(a, b, m) in t.timers <==> BridgeRetry(a, b, m) in s.timers {
        assert BridgeRetry(a, b, m) != x;
      }
    }
    hide Onward, WireBridge;
    AttemptForOthers(t, st.id, st.other, st.retries, a, b);
    OnwardTrans(s, t, Next(s, st), a, b);
  }

  // -------------------------------------------------------------------------
  // Over runs
  // -------------------------------------------------------------------------

  predicate Over(s: System, k: CallId) {
    k !in s.backend.calls || s.backend.calls[k].state == Disconnected
  }

  /** A call that has been confirmed is up or over, and stays so. */
  predicate WasUp(s: System, k: CallId) {
    1 <= k < s.backend.nextCallId && (Over(s, k) || s.backend.calls[k].state == Confirmed)
  }

  lemma UpAndOver(s: System, st: Step, k: CallId)
    requires Inv(s) && Enabled(s, st) && WasUp(s, k)
    ensures WasUp(Next(s, st), k) && (Over(s, k) ==> Over(Next(s, st), k))
  {
    var t := Next(s, st);
    if k in s.backend.calls && k in t.backend.calls { CallExact(s, st, k); }
    PresenceExact(s, st, k);
    CallCells.StepOnCell(s, st, k);
    IdsGrow(s, st);
    CellsAgree(s, t, k);
    hide Inv, Enabled, Next;
  }

  /** Minted ids stay minted. */
  lemma IdsGrow(s: System, st: Step)
    requires Inv(s) && Enabled(s, st)
    ensures s.backend.nextCallId <= Next(s, st).backend.nextCallId
  {
    var k := s.backend.nextCallId - 1;
    CallInvariant.NextKeeps(s, st);
    if k >= 1 {
      assert ViewOk(s, k) && Phase(s, k) > 0;
      assert Phase(s, k) <= Phase(Next(s, st), k);
      assert ViewOk(Next(s, st), k);
    }
    hide Next, Enabled;
  }

  /** Merging has been asked for: it is done, or tried again, or a call is over. */
  ghost predicate Merging(s: System, id: CallId, other: CallId) {
    WasUp(s, id) && WasUp(s, other)
    && (Bridged(s, id, other) || WillTry(s, id, other) || Over(s, id) || Over(s, other))
  }

  lemma RetryMerges(s: System, st: Step)
    requires Inv(s) && Enabled(s, st) && st.BridgeTimer? && Merging(s, st.id, st.other)
    ensures var t := Next(s, st);
            Bridged(t, st.id, st.other) || WillTry(t, st.id, st.other) || Over(s, st.id) || Over(s, st.other)
  {
    CallFacts(s, st.id);
    CallFacts(s, st.other);
    hide Inv, WireBridge;
    if st.id in s.records && st.other in s.records {
      AttemptFor(Disarm(s, BridgeRetry(st.id, st.other, st.retries)), st.id, st.other, st.retries);
    }
  }

  lemma MergingStays(s: System, st: Step, id: CallId, other: CallId)
    requires Inv(s) && Enabled(s, st) && Merging(s, id, other)
    ensures Merging(Next(s, st), id, other)
  {
    UpAndOver(s, st, id);
    UpAndOver(s, st, other);
    var t := Next(s, st);
    if st.BridgeTimer? && (id, other) == (st.id, st.other) {
      RetryMerges(s, st);
    } else if st == MergeStep(id, other) {
      if Bridged(s, id, other) || WillTry(s, id, other) { AgainMerges(s, id, other); }
    } else {
      if st.BridgeTimer? { RetryForOthers(s, st, id, other); }
      else if st.MergeStep? { MergeForOthers(s, st, id, other); }
      else { StepOnward(s, st, id, other); }
    }
    hide Inv, Next, Enabled, Over, WasUp;
  }

  lemma AgainMerges(s: System, id: CallId, other: CallId)
    requires Bridged(s, id, other) || WillTry(s, id, other)
    ensures Bridged(Next(s, MergeStep(id, other)), id, other) || WillTry(Next(s, MergeStep(id, other)), id, other)
  {
    var t := Next(s, MergeStep(id, other));
    UnholdOnward(s, other, 5, id, other);
    AttemptKeeps(s, id, other);
    hide RequestUnhold, WireBridge, Onward;
    var u := RequestUnhold(s, other, 5);
    OneMoreTry(s, u, id, other, BridgeRetry(id, other, 5));
    OneMoreTry(s, s, id, other, BridgeRetry(id, other, 5));
  }

  lemma OneMoreTry(s: System, t: System, id: CallId, other: CallId, x: Timer)
    requires Bridged(s, id, other) || WillTry(s, id, other)
    ensures Onward(s, t, id, other) ==>
              var u := t.(timers := t.timers + multiset{x});
              Bridged(u, id, other) || WillTry(u, id, other)
  {
    if Onward(s, t, id, other) {
      if n :| BridgeRetry(id, other, n) in s.timers { assert BridgeRetry(id, other, n) in t.timers + multiset{x}; }
    }
  }

  lemma AttemptKeeps(s: System, id: CallId, other: CallId)
    requires Bridged(s, id, other) || WillTry(s, id, other)
    ensures var t := WireBridge(s, id, other, 5); Bridged(t, id, other) || WillTry(t, id, other)
  {
    var t := WireBridge(s, id, other, 5);
    if n :| BridgeRetry(id, other, n) in s.timers { assert BridgeRetry(id, other, n) in t.timers; }
  }

  lemma {:induction false} MergingThroughout(s: System, steps: seq<Step>, id: CallId, other: CallId)
    requires Inv(s) && IsRun(s, steps) && Merging(s, id, other)
    ensures Merging(Run(s, steps), id, other)
    decreases |steps|
  {
    hide Inv, Merging, Next, Enabled;
    if steps != [] {
      MergingStays(s, steps[0], id, other);
      CallInvariant.NextKeeps(s, steps[0]);
      MergingThroughout(Next(s, steps[0]), steps[1..], id, other);
    }
  }

  /** Two confirmed calls that are merged end up bridged with each other, unless
      one of them is over first: whatever happens in between, this is so as soon
      as nothing is left to do. */
  lemma MergeEndsInBridge(steps: seq<Step>, id: CallId, other: CallId, more: seq<Step>)
    requires IsRun(Initial, steps)
    requires var s := Run(Initial, steps);
             && id in s.records && s.records[id].state == Confirmed && other in s.records && s.records[other].state == Confirmed
             && IsRun(Next(s, MergeStep(id, other)), more)
    ensures var t := Run(Next(Run(Initial, steps), MergeStep(id, other)), more);
            && (Bridged(t, id, other) || WillTry(t, id, other) || Over(t, id) || Over(t, other))
            && (t.timers == multiset{} ==> Bridged(t, id, other) || Over(t, id) || Over(t, other))
  {
    var s := Run(Initial, steps);
    CallInvariant.Reachable(steps);
    CallFacts(s, id);
    CallFacts(s, other);
    UpAndOver(s, MergeStep(id, other), id);
    UpAndOver(s, MergeStep(id, other), other);
    MergeStarts(s, id, other);
    CallInvariant.NextKeeps(s, MergeStep(id, other));
    hide Inv, Next, IsRun, Run;
    MergingThroughout(Next(s, MergeStep(id, other)), more, id, other);
  }

  ghost predicate Asked(steps: seq<Step>, id: CallId, other: CallId) {
    exists i | 0 <= i < |steps| :: steps[i] == MergeStep(id, other)
  }

  /** No two calls are bridged, or about to be, that were not merged. */
  lemma {:induction false} BridgesWereMerged(s: System, steps: seq<Step>, id: CallId, other: CallId)
    requires IsRun(s, steps) && !Bridged(s, id, other) && !WillTry(s, id, other)
    ensures Bridged(Run(s, steps), id, other) || WillTry(Run(s, steps), id, other) ==> Asked(steps, id, other)
    decreases |steps|
  {
    if steps != [] {
      var st, t := steps[0], Next(s, steps[0]);
      if st != MergeStep(id, other) {
        if st.BridgeTimer? { RetryForOthers(s, st, id, other); }
        else if st.MergeStep? { MergeForOthers(s, st, id, other); }
        else { StepOnward(s, st, id, other); }
        hide Next, Enabled;
        BridgesWereMerged(t, steps[1..], id, other);
        if i :| 0 <= i < |steps[1..]| && steps[1..][i] == MergeStep(id, other) { assert steps[i + 1] == MergeStep(id, other); }
      }
    }
  }
}
