/** Every step of the call system keeps the invariant, and no call ever moves
    to an earlier phase of its life. */
module CallInvariant {
  import opened SipTypes
  import opened BackendSpec
  import opened CallSpec
  import opened CallViews

  /** `t` is a good successor of `s`. */
  ghost predicate Keeps(s: System, t: System) {
    Inv(t) && Forward(s, t)
  }

  predicate Quiet(c: Command) {
    !c.DidReleaseCall?
  }

  lemma KeepsTrans(s: System, t: System, u: System)
    requires Forward(s, t) && Keeps(t, u)
    ensures Keeps(s, u)
  {
    forall id ensures Phase(s, id) <= Phase(u, id) {
      assert Phase(s, id) <= Phase(t, id) <= Phase(u, id);
    }
  }

  // -------------------------------------------------------------------------
  // Frame: what an update of one call does to the view of every call
  // -------------------------------------------------------------------------

  lemma UpdateEffect(b: Backend, id: CallId, c: FakeCall, events: seq<Event>, commands: seq<Command>, other: CallId)
    requires |events| <= 1 && |commands| <= 1
    requires events != [] ==> events[0].id == id
    requires commands != [] ==> Quiet(commands[0])
    ensures var b' := Update(b, id, c, events, commands);
            && Pending(b'.queue, other)
               == Pending(b.queue, other) + (if other == id && events != [] then TokensOf(events[0], id) else [])
            && Releases(b'.log, other) == Releases(b.log, other)
  {
    PendingAppend(b.queue, events, other);
    if events != [] {
      assert events == [events[0]];
      PendingOne(events[0], other);
    }
    if commands == [] {
      assert b.log + commands == b.log;
    } else {
      assert commands == [commands[0]];
      ReleasesAppend(b.log, commands[0], other);
    }
  }

  /** A change of the backend call and of the record of `id` alone. */
  lemma LocalChange(s: System, t: System, id: CallId, c: FakeCall, events: seq<Event>, commands: seq<Command>)
    requires Inv(s)
    requires |events| <= 1 && |commands| <= 1
    requires events != [] ==> events[0].id == id
    requires commands != [] ==> Quiet(commands[0])
    requires t == s.(backend := Update(s.backend, id, c, events, commands), records := t.records)
    requires t.records.Keys == s.records.Keys
    requires forall k | k in s.records && k != id :: t.records[k] == s.records[k]
    requires ViewOk(t, id) && Phase(s, id) <= Phase(t, id)
    ensures Keeps(s, t)
  {
    hide GoodView, Pending, Releases;
    forall k ensures ViewOk(t, k) && Phase(s, k) <= Phase(t, k) {
      if k != id {
        UpdateEffect(s.backend, id, c, events, commands, k);
        assert ViewOk(s, k);
        assert View(t, k) == View(s, k);
      }
    }
  }

  /** A change that no view shows. */
  lemma InvisibleChange(s: System, t: System)
    requires Inv(s)
    requires t.records == s.records && t.lingering == s.lingering && t.signals == s.signals
    requires t.backend.calls == s.backend.calls && t.backend.nextCallId == s.backend.nextCallId
    requires forall id :: Pending(t.backend.queue, id) == Pending(s.backend.queue, id)
    requires forall id :: Releases(t.backend.log, id) == Releases(s.backend.log, id)
    requires forall id :: t.timers[LingerExpiry(id)] == s.timers[LingerExpiry(id)]
    requires t.active == INVALID_ID || t.active in t.records
    requires TransfersOk(t)
    ensures Keeps(s, t)
  {
    forall id ensures ViewOk(t, id) && Phase(s, id) <= Phase(t, id) {
      assert ViewOk(s, id);
      assert View(t, id) == View(s, id);
    }
  }

  lemma QuietLog(s: System, t: System, c: Command)
    requires Quiet(c) && t.backend.log == s.backend.log + [c]
    ensures forall id :: Releases(t.backend.log, id) == Releases(s.backend.log, id)
  {
    forall id ensures Releases(t.backend.log, id) == Releases(s.backend.log, id) {
      ReleasesAppend(s.backend.log, c, id);
    }
  }

  // -------------------------------------------------------------------------
  // Holding and resuming
  // -------------------------------------------------------------------------

  lemma LiveRecord(s: System, id: CallId)
    requires Inv(s) && id in s.records
    ensures id in s.backend.calls && IsLive(View(s, id)) && Minted(s, id)
  {
    assert ViewOk(s, id);
  }

  /** New flags on both sides of a live call, if they agree, keep everything. */
  lemma FlagChange(s: System, id: CallId, c: FakeCall, r: CallRecord, events: seq<Event>, commands: seq<Command>)
    requires Inv(s) && id in s.records && id in s.backend.calls
    requires c.state == s.backend.calls[id].state && r.state == s.records[id].state && FlagsAgree(c, r)
    requires |events| <= 1 && |commands| <= 1
    requires events != [] ==> events[0].MediaStateChanged? && events[0].id == id
    requires commands != [] ==> Quiet(commands[0])
    ensures Keeps(s, s.(backend := Update(s.backend, id, c, events, commands), records := s.records[id := r]))
  {
    LiveRecord(s, id);
    var t := s.(backend := Update(s.backend, id, c, events, commands), records := s.records[id := r]);
    UpdateEffect(s.backend, id, c, events, commands, id);
    assert View(t, id) == View(s, id).(call := Some(c), record := Some(r));
    LocalChange(s, t, id, c, events, commands);
  }

  /** Hold or resume `id` in the backend and set the manager's flag, in any
      situation in which the flags agree afterwards. */
  lemma SetHeldKeeps(s: System, id: CallId, held: bool, t: System)
    requires Inv(s) && id in s.records
    requires t == WithHeld(s.(backend := if held then Hold(s.backend, id) else Unhold(s.backend, id)), id, held)
    requires held ==> InState(s.backend, id, Confirmed) || InState(s.backend, id, Disconnected)
    ensures Keeps(s, t)
  {
    LiveRecord(s, id);
    var c, r := s.backend.calls[id], s.records[id].(held := held);
    if held && CanHold(s.backend, id) {
      FlagChange(s, id, c.(held := true, mediaActive := false), r,
                 [MediaStateChanged(id, false, true)], [DidHold(id)]);
    } else if !held && CanUnhold(s.backend, id) {
      FlagChange(s, id, c.(held := false, mediaActive := true), r,
                 [MediaStateChanged(id, true, false)], [DidUnhold(id)]);
    } else {
      assert Update(s.backend, id, c, [], []) == s.backend;
      FlagChange(s, id, c, r, [], []);
    }
  }

  lemma ConfirmedRecord(s: System, id: CallId)
    requires Inv(s) && id in s.records && s.records[id].state == Confirmed
    ensures InState(s.backend, id, Confirmed) || InState(s.backend, id, Disconnected)
  {
    LiveRecord(s, id);
    var v := View(s, id);
    var h := v.observed + v.pending;
    assert |v.observed| >= 1 && h[|v.observed| - 1] == To(Confirmed);
  }

  lemma HoldIfTalkingKeeps(s: System, id: CallId)
    requires Inv(s)
    ensures Keeps(s, HoldIfTalking(s, id))
    ensures HoldIfTalking(s, id).records.Keys == s.records.Keys
  {
    if id != INVALID_ID && Talking(s, id) {
      ConfirmedRecord(s, id);
      SetHeldKeeps(s, id, true, HoldIfTalking(s, id));
    }
  }

  lemma ActivateKeeps(s: System, id: CallId)
    requires Inv(s) && (id == INVALID_ID || id in s.records)
    ensures Keeps(s, s.(active := id))
  {
    InvisibleChange(s, s.(active := id));
  }

  lemma SetActiveCallKeeps(s: System, id: CallId)
    requires Inv(s) && id in s.records
    ensures Keeps(s, SetActiveCall(s, id))
    ensures SetActiveCall(s, id).records.Keys == s.records.Keys
  {
    if s.active != id {
      HoldIfTalkingKeeps(s, s.active);
      var s0 := HoldIfTalking(s, s.active);
      ActivateKeeps(s0, id);
      var s1 := s0.(active := id);
      KeepsTrans(s, s0, s1);
      if id != INVALID_ID && s1.records[id].held {
        var t := WithHeld(s1.(backend := Unhold(s1.backend, id)), id, false);
        SetHeldKeeps(s1, id, false, t);
        KeepsTrans(s, s1, t);
      }
    }
  }

  lemma ArmKeeps(s: System, t: Timer)
    requires Inv(s) && !t.LingerExpiry?
    ensures Keeps(s, s.(timers := s.timers + multiset{t}))
    ensures Keeps(s, s.(timers := s.timers - multiset{t}))
  {
    InvisibleChange(s, s.(timers := s.timers + multiset{t}));
    InvisibleChange(s, s.(timers := s.timers - multiset{t}));
  }

  lemma RequestUnholdKeeps(s: System, id: CallId, retries: int)
    requires Inv(s)
    ensures Keeps(s, RequestUnhold(s, id, retries))
    ensures RequestUnhold(s, id, retries).records.Keys == s.records.Keys
  {
    if id in s.records {
      var s1 := WithHeld(s.(backend := Unhold(s.backend, id)), id, false);
      SetHeldKeeps(s, id, false, s1);
      if !CanUnhold(s.backend, id) {
        if retries > 0 {
          ArmKeeps(s1, UnholdRetry(id, retries - 1));
          assert s1 == WithHeld(s, id, false);
          KeepsTrans(s, s1, RequestUnhold(s, id, retries));
        }
      } else if s1.active != id {
        HoldIfTalkingKeeps(s1, s1.active);
        var s2 := HoldIfTalking(s1, s1.active);
        KeepsTrans(s, s1, s2);
        ActivateKeeps(s2, id);
        KeepsTrans(s, s2, s2.(active := id));
      }
    }
  }

  // -------------------------------------------------------------------------
  // Backend transitions
  // -------------------------------------------------------------------------

  lemma EndView(v: CallView, c: FakeCall)
    requires v.call.Some? && (IsAnnounced(v) || IsLive(v)) && v.call.value.state != Disconnected
    requires c.inbound == v.call.value.inbound && c.held == v.call.value.held && c.muted == v.call.value.muted
    requires c.recording == v.call.value.recording && c.state == Disconnected
    ensures var w := v.(call := Some(c), pending := v.pending + [To(Disconnected)]);
            if IsAnnounced(v) then IsAnnounced(w) else IsLive(w)
  {
    assert v.observed + (v.pending + [To(Disconnected)]) == v.observed + v.pending + [To(Disconnected)];
  }

  /** Decline, redirect, hang-up and remote hang-up: the backend call ends. */
  lemma EndKeeps(s: System, id: CallId, media: bool, code: int, commands: seq<Command>)
    requires Inv(s) && id in s.backend.calls && s.backend.calls[id].state != Disconnected
    requires |commands| <= 1 && (commands != [] ==> Quiet(commands[0]))
    ensures Keeps(s, s.(backend := Update(s.backend, id, s.backend.calls[id].(state := Disconnected, mediaActive := media),
                                          [CallStateChanged(id, Disconnected, code)], commands)))
  {
    assert ViewOk(s, id);
    var c := s.backend.calls[id].(state := Disconnected, mediaActive := media);
    var e := [CallStateChanged(id, Disconnected, code)];
    var t := s.(backend := Update(s.backend, id, c, e, commands));
    UpdateEffect(s.backend, id, c, e, commands, id);
    EndView(View(s, id), c);
    assert View(t, id) == View(s, id).(call := Some(c), pending := View(s, id).pending + [To(Disconnected)]);
    LocalChange(s, t, id, c, e, commands);
  }

  lemma HangupKeeps(s: System, id: CallId)
    requires Inv(s)
    ensures Keeps(s, s.(backend := Hangup(s.backend, id)))
  {
    if id in s.backend.calls && s.backend.calls[id].state != Disconnected {
      EndKeeps(s, id, false, if s.backend.calls[id].state == Confirmed then 200 else 487, [DidHangup(id)]);
    }
  }

  lemma RemoteHangupKeeps(s: System, id: CallId, code: int)
    requires Inv(s)
    ensures Keeps(s, s.(backend := RemoteHangup(s.backend, id, code)))
  {
    if id in s.backend.calls && s.backend.calls[id].state != Disconnected {
      EndKeeps(s, id, false, code, []);
    }
  }

  lemma DeclineKeeps(s: System, id: CallId, code: int)
    requires Inv(s)
    ensures Keeps(s, s.(backend := Decline(s.backend, id, code)))
  {
    if BackendSpec.Ringing(s.backend, id) {
      EndKeeps(s, id, s.backend.calls[id].mediaActive, code, [DidDecline(id, code)]);
    }
  }

  lemma RedirectKeeps(s: System, id: CallId, uri: string)
    requires Inv(s)
    ensures Keeps(s, s.(backend := Redirect(s.backend, id, uri)))
  {
    if BackendSpec.Ringing(s.backend, id) {
      EndKeeps(s, id, s.backend.calls[id].mediaActive, 302, [DidRedirect(id, uri)]);
    }
  }

  lemma ConfirmView(v: CallView, c: FakeCall)
    requires IsLive(v) && (v.call.value.state == Calling || v.call.value.state == EarlyMedia)
    requires c == v.call.value.(state := Confirmed, mediaActive := true)
    ensures IsLive(v.(call := Some(c), pending := v.pending + [To(Confirmed)]))
  {
    assert v.observed + (v.pending + [To(Confirmed)]) == v.observed + v.pending + [To(Confirmed)];
  }

  /** Local answer of a recorded call and remote answer of a dialled one. */
  lemma ConfirmKeeps(s: System, id: CallId, commands: seq<Command>)
    requires Inv(s) && id in s.backend.calls
    requires s.backend.calls[id].state == Calling || (s.backend.calls[id].state == EarlyMedia && id in s.records)
    requires |commands| <= 1 && (commands != [] ==> Quiet(commands[0]))
    ensures Keeps(s, s.(backend := Update(s.backend, id, s.backend.calls[id].(state := Confirmed, mediaActive := true),
                                          [CallStateChanged(id, Confirmed, 200)], commands)))
  {
    assert ViewOk(s, id);
    var c := s.backend.calls[id].(state := Confirmed, mediaActive := true);
    var e := [CallStateChanged(id, Confirmed, 200)];
    var t := s.(backend := Update(s.backend, id, c, e, commands));
    UpdateEffect(s.backend, id, c, e, commands, id);
    ConfirmView(View(s, id), c);
    assert View(t, id) == View(s, id).(call := Some(c), pending := View(s, id).pending + [To(Confirmed)]);
    LocalChange(s, t, id, c, e, commands);
  }

  lemma AnswerKeeps(s: System, id: CallId)
    requires Inv(s) && id in s.records
    ensures Keeps(s, s.(backend := Answer(s.backend, id)))
  {
    if BackendSpec.Ringing(s.backend, id) {
      ConfirmKeeps(s, id, [DidAnswer(id)]);
    }
  }

  lemma RemoteAnswerKeeps(s: System, id: CallId)
    requires Inv(s)
    ensures Keeps(s, s.(backend := RemoteAnswer(s.backend, id)))
  {
    if InState(s.backend, id, Calling) && !s.backend.calls[id].inbound {
      ConfirmKeeps(s, id, []);
    }
  }

  function WithRecord(records: map<CallId, CallRecord>, id: CallId, r: Option<CallRecord>): map<CallId, CallRecord> {
    match r case None => records case Some(x) => records[id := x]
  }

  function MintedCall(s: System, r: Option<CallRecord>, c: FakeCall, e: Event, commands: seq<Command>): System {
    s.(backend := Update(s.backend, e.id, c, [e], commands).(nextCallId := e.id + 1),
       records := WithRecord(s.records, e.id, r))
  }

  lemma MintViews(s: System, r: Option<CallRecord>, c: FakeCall, e: Event, commands: seq<Command>, k: CallId)
    requires |commands| <= 1 && (commands != [] ==> Quiet(commands[0]))
    requires IsUnminted(View(s, e.id))
    ensures View(MintedCall(s, r, c, e, commands), k)
            == if k == e.id then CallView(Some(c), r, false, 0, TokensOf(e, k), [], 0) else View(s, k)
  {
    UpdateEffect(s.backend, e.id, c, [e], commands, k);
    assert e.id !in s.records;
  }

  /** A new call under the next id, with the record the manager gives it (none
      for a call it has not been told about). */
  lemma MintKeeps(s: System, r: Option<CallRecord>, c: FakeCall, e: Event, commands: seq<Command>)
    requires Inv(s)
    requires |commands| <= 1 && (commands != [] ==> Quiet(commands[0]))
    requires e.id == s.backend.nextCallId
    requires GoodView(CallView(Some(c), r, false, 0, TokensOf(e, e.id), [], 0), true)
    ensures Keeps(s, MintedCall(s, r, c, e, commands))
  {
    hide Pending, Observed, Releases;
    var t := MintedCall(s, r, c, e, commands);
    assert ViewOk(s, e.id);
    forall k ensures ViewOk(t, k) && Phase(s, k) <= Phase(t, k) {
      MintViews(s, r, c, e, commands, k);
      assert ViewOk(s, k);
    }
    MintViews(s, r, c, e, commands, e.id);
    assert e.id !in s.records;
  }

  lemma NextIdUnrecorded(s: System)
    requires Inv(s)
    ensures s.backend.nextCallId !in s.records && s.backend.nextCallId !in s.backend.calls
    ensures s.backend.nextCallId >= 1
  {
    assert ViewOk(s, s.backend.nextCallId);
  }

  lemma MakeCallKeeps(s: System, account: AccountId, uri: string)
    requires Inv(s)
    ensures Keeps(s, CallSpec.MakeCall(s, account, uri))
  {
    NextIdUnrecorded(s);
    hide Inv, ViewOk, GoodView, SetActiveCall;
    if CanDial(s, account) {
      var id := s.backend.nextCallId;
      var r := CallRecord(account, uri, "", Calling, 0, false, false, false, false);
      var c := FakeCall(s.backendFor[account], uri, Calling, false, false, false, false, false);
      var t := s.(backend := BackendSpec.MakeCall(s.backend, s.backendFor[account], uri), records := s.records[id := r]);
      MintKeeps(s, Some(r), c, CallStateChanged(id, Calling, 0), [DidMakeCall(id, uri)]);
      SetActiveCallKeeps(t, id);
      KeepsTrans(s, t, SetActiveCall(t, id));
    }
  }

  lemma RemoteCallKeeps(s: System, account: BackendAccountId, uri: string, name: string)
    requires Inv(s) && CanMakeCall(s.backend, account)
    ensures Keeps(s, s.(backend := RemoteCall(s.backend, account, uri, name)))
  {
    var id := s.backend.nextCallId;
    assert ViewOk(s, id);
    MintKeeps(s, None,
              FakeCall(account, uri, EarlyMedia, true, false, false, false, false),
              IncomingCall(account, id, uri, name), []);
  }

  // -------------------------------------------------------------------------
  // Delivery
  // -------------------------------------------------------------------------

  function Popped(s: System): System
    requires s.backend.queue != []
  {
    s.(backend := s.backend.(queue := s.backend.queue[1..]))
  }

  /** Events without a token for any call leave the queue unnoticed. */
  lemma SilentPopKeeps(s: System)
    requires Inv(s) && s.backend.queue != []
    requires s.backend.queue[0].MediaStateChanged? || s.backend.queue[0].TransferStatus?
    ensures Keeps(s, Popped(s))
  {
    InvisibleChange(s, Popped(s));
  }

  lemma PopPending(s: System, k: CallId)
    requires s.backend.queue != []
    ensures Pending(s.backend.queue, k) == TokensOf(s.backend.queue[0], k) + Pending(s.backend.queue[1..], k)
    ensures s.backend.queue[0].id != k ==> Pending(s.backend.queue[1..], k) == Pending(s.backend.queue, k)
  {
  }

  /** A change that only the view of `id` shows. */
  lemma HandledKeeps(s: System, t: System, id: CallId)
    requires Inv(s)
    requires t.backend.nextCallId == s.backend.nextCallId
    requires forall k | k != id :: View(t, k) == View(s, k)
    requires ViewOk(t, id) && Phase(s, id) <= Phase(t, id)
    requires t.active == INVALID_ID || t.active in t.records
    requires TransfersOk(t)
    ensures Keeps(s, t)
  {
    forall k ensures ViewOk(t, k) && Phase(s, k) <= Phase(t, k) {
      assert ViewOk(s, k);
    }
  }

  lemma UnknownStateKeeps(s: System)
    requires Inv(s) && s.backend.queue != []
    requires s.backend.queue[0].CallStateChanged? && s.backend.queue[0].id !in s.records
    ensures Keeps(s, Popped(s))
  {
    var id := s.backend.queue[0].id;
    assert ViewOk(s, id);
    var v, w := View(s, id), View(Popped(s), id);
    assert v.pending == [To(s.backend.queue[0].state)] + w.pending;
    assert v.pending[0] != Announced;
    assert IsGone(v) && |v.pending| == 1;
    assert w == v.(pending := []);
    forall k | k != id ensures View(Popped(s), k) == View(s, k) {
      PopPending(s, k);
    }
    HandledKeeps(s, Popped(s), id);
  }

  lemma ObservedOther(xs: seq<Signal>, id: CallId, st: CallState)
    ensures forall k | k != id :: Observed(xs + [CallEvent(id, st)], k) == Observed(xs, k)
    ensures Observed(xs + [CallEvent(id, st)], id) == Observed(xs, id) + [To(st)]
  {
    forall k ensures Observed(xs + [CallEvent(id, st)], k)
                     == Observed(xs, k) + SignalTokens(CallEvent(id, st), k)
    {
      ObservedAppend(xs, CallEvent(id, st), k);
    }
  }

  /** What is known about a live call whose oldest notice is `st`. */
  lemma NextNotice(v: CallView, st: CallState, rest: seq<Token>)
    requires IsLive(v) && v.pending == [To(st)] + rest
    ensures v.observed + v.pending == (v.observed + [To(st)]) + rest
    ensures st == Calling || st == Confirmed || st == Disconnected
    ensures st == Disconnected ==> rest == [] && EndedHistory(v.observed + [To(st)])
    ensures st == Confirmed ==> v.observed != []
  {
    var h := v.observed + v.pending;
    assert h == (v.observed + [To(st)]) + rest;
    assert h[|v.observed|] == To(st);
  }

  lemma ProgressKeeps(s: System, pick: CallId)
    requires Inv(s) && s.backend.queue != []
    requires s.backend.queue[0].CallStateChanged? && s.backend.queue[0].id in s.records
    requires s.backend.queue[0].state != Disconnected
    ensures Keeps(s, Deliver(s, pick))
  {
    var CallStateChanged(id, st, code) := s.backend.queue[0];
    LiveRecord(s, id);
    var t := Deliver(s, pick);
    var v, w := View(s, id), View(t, id);
    ObservedOther(s.signals, id, st);
    NextNotice(v, st, w.pending);
    assert w == v.(record := Some(s.records[id].(state := st)), observed := v.observed + [To(st)], pending := w.pending);
    forall k | k != id ensures View(t, k) == View(s, k) {
      PopPending(s, k);
    }
    HandledKeeps(s, t, id);
  }

  lemma NoAnnouncement(v: CallView)
    ensures IsLive(v) ==> Announced !in v.pending
  {
    forall i | 0 <= i < |v.pending| ensures IsLive(v) ==> v.pending[i] != Announced {
      var h := v.observed + v.pending;
      assert h[|v.observed| + i] == v.pending[i];
    }
  }

  lemma AnnouncePending(s: System)
    requires Inv(s) && s.backend.queue != [] && s.backend.queue[0].IncomingCall?
    ensures var id := s.backend.queue[0].id;
            && IsAnnounced(View(s, id)) && Minted(s, id)
            && View(s, id).pending == [Announced] + Pending(s.backend.queue[1..], id)
  {
    var id := s.backend.queue[0].id;
    assert ViewOk(s, id);
    assert View(s, id).pending == [Announced] + Pending(s.backend.queue[1..], id);
    assert View(s, id).pending[0] == Announced;
    NoAnnouncement(View(s, id));
  }

  lemma AdoptSignals(xs: seq<Signal>, id: CallId, k: CallId)
    ensures Observed(xs + [CallEvent(id, Calling), IncomingCallSignal(id)], k)
            == Observed(xs, k) + (if k == id then [To(Calling)] else [])
  {
    var x := xs + [CallEvent(id, Calling)];
    assert xs + [CallEvent(id, Calling), IncomingCallSignal(id)] == x + [IncomingCallSignal(id)];
    ObservedAppend(xs, CallEvent(id, Calling), k);
    ObservedAppend(x, IncomingCallSignal(id), k);
  }

  lemma AdoptView(v: CallView, r: CallRecord)
    requires IsAnnounced(v)
    requires r.state == Calling && r.inbound && !r.held && !r.muted && !r.recording
    ensures IsLive(v.(record := Some(r), observed := [To(Calling)], pending := v.pending[1..]))
  {
  }

  function Adopted(s: System, id: CallId, r: CallRecord): System
    requires s.backend.queue != []
  {
    Popped(s).(records := s.records[id := r], signals := s.signals + [CallEvent(id, Calling), IncomingCallSignal(id)])
  }

  lemma AdoptedViews(s: System, id: CallId, r: CallRecord, k: CallId)
    requires s.backend.queue != [] && s.backend.queue[0].id == id
    ensures var v := View(s, k);
            if k != id then View(Adopted(s, id, r), k) == v
            else View(Adopted(s, id, r), k)
                 == v.(record := Some(r), observed := v.observed + [To(Calling)], pending := Pending(s.backend.queue[1..], k))
  {
    hide Pending, Observed, Releases;
    PopPending(s, k);
    AdoptSignals(s.signals, id, k);
  }

  lemma AdoptKeeps(s: System, pick: CallId)
    requires Inv(s) && s.backend.queue != [] && s.backend.queue[0].IncomingCall?
    requires s.backend.queue[0].account in s.accountFor
    ensures Keeps(s, Deliver(s, pick))
  {
    hide Pending, Observed, Releases;
    var IncomingCall(account, id, uri, name) := s.backend.queue[0];
    var r := CallRecord(s.accountFor[account], uri, name, Calling, 0, true, false, false, false);
    AnnouncePending(s);
    AdoptView(View(s, id), r);
    assert View(s, id).pending[1..] == Pending(s.backend.queue[1..], id);
    forall k ensures k != id ==> View(Adopted(s, id, r), k) == View(s, k) {
      AdoptedViews(s, id, r, k);
    }
    AdoptedViews(s, id, r, id);
    HandledKeeps(s, Adopted(s, id, r), id);
  }

  /** The head of the queue is dropped and the call `id` released. */
  function PoppedAndReleased(s: System, id: CallId): System
    requires s.backend.queue != []
  {
    Popped(s).(backend := ReleaseCall(Popped(s).backend, id))
  }

  lemma ReleaseOther(s: System, id: CallId, k: CallId)
    requires s.backend.queue != [] && s.backend.queue[0].id == id && k != id && id in s.backend.calls
    ensures View(PoppedAndReleased(s, id), k) == View(s, k)
  {
    PopPending(s, k);
    ReleasesAppend(s.backend.log, DidReleaseCall(id), k);
  }

  lemma ReleaseSelf(s: System, id: CallId)
    requires s.backend.queue != [] && id in s.backend.calls
    ensures var v := View(s, id);
            View(PoppedAndReleased(s, id), id)
            == v.(call := None, releases := v.releases + 1, pending := Pending(s.backend.queue[1..], id))
  {
    ReleasesAppend(s.backend.log, DidReleaseCall(id), id);
  }

  /** An announced call that has ended is given up. */
  lemma AbandonKeeps(s: System, id: CallId)
    requires Inv(s) && s.backend.queue != [] && s.backend.queue[0].IncomingCall? && s.backend.queue[0].id == id
    requires InState(s.backend, id, Disconnected)
    ensures Keeps(s, PoppedAndReleased(s, id))
  {
    AnnouncePending(s);
    ReleaseSelf(s, id);
    var v := View(s, id);
    assert Pending(s.backend.queue[1..], id) == v.pending[1..] == [To(Disconnected)];
    assert IsGone(View(PoppedAndReleased(s, id), id));
    forall k | k != id ensures View(PoppedAndReleased(s, id), k) == View(s, k) {
      ReleaseOther(s, id, k);
    }
    HandledKeeps(s, PoppedAndReleased(s, id), id);
  }

  /** Declining after the announcement was taken off the queue is the same as
      declining before. */
  lemma RejectShape(s: System, pick: CallId)
    requires s.backend.queue != [] && s.backend.queue[0].IncomingCall?
    requires s.backend.queue[0].account !in s.accountFor
    ensures var id := s.backend.queue[0].id;
            var s1 := s.(backend := Decline(s.backend, id, 480));
            s1.backend.queue != [] && s1.backend.queue[0] == s.backend.queue[0]
            && Deliver(s, pick) == PoppedAndReleased(s1, id)
  {
    var id := s.backend.queue[0].id;
    var s1 := s.(backend := Decline(s.backend, id, 480));
    if BackendSpec.Ringing(s.backend, id) {
      var e := [CallStateChanged(id, Disconnected, 480)];
      assert (s.backend.queue + e)[1..] == s.backend.queue[1..] + e;
      assert Decline(Popped(s).backend, id, 480) == Popped(s1).backend;
    }
  }

  lemma RejectKeeps(s: System, pick: CallId)
    requires Inv(s) && s.backend.queue != [] && s.backend.queue[0].IncomingCall?
    requires s.backend.queue[0].account !in s.accountFor
    ensures Keeps(s, Deliver(s, pick))
  {
    var id := s.backend.queue[0].id;
    var s1 := s.(backend := Decline(s.backend, id, 480));
    AnnouncePending(s);
    DeclineKeeps(s, id, 480);
    RejectShape(s, pick);
    AbandonKeeps(s1, id);
    KeepsTrans(s, s1, Deliver(s, pick));
  }

  /** The bookkeeping of a disconnect without the promotion. */
  function Retired(s: System, id: CallId, code: int): System
    requires s.backend.queue != [] && id in s.records
  {
    var r := s.records[id].(state := Disconnected, lastStatusCode := code);
    Popped(s).(records := s.records - {id},
               transfers := s.transfers - {id},
               backend := ReleaseCall(Popped(s).backend, id),
               lingering := s.lingering[id := r],
               signals := s.signals + [CallEvent(id, Disconnected)],
               active := if s.active == id then INVALID_ID else s.active,
               timers := s.timers + multiset{LingerExpiry(id)})
  }

  lemma RetireView(v: CallView, rest: seq<Token>)
    requires IsLive(v) && v.pending == [To(Disconnected)] + rest
    ensures IsLingering(v.(call := None, record := None, lingering := true, lingerTimers := 1,
                           pending := rest, observed := v.observed + [To(Disconnected)], releases := 1))
  {
    NextNotice(v, Disconnected, rest);
  }

  lemma RetiredViews(s: System, id: CallId, code: int, k: CallId)
    requires s.backend.queue != [] && id in s.records && id in s.backend.calls
    requires s.backend.queue[0].id == id
    ensures var v, t := View(s, id), Retired(s, id, code);
            if k != id then View(t, k) == View(s, k)
            else View(t, k) == v.(call := None, record := None, lingering := true, lingerTimers := v.lingerTimers + 1,
                                  pending := Pending(s.backend.queue[1..], id),
                                  observed := v.observed + [To(Disconnected)], releases := v.releases + 1)
  {
    if k != id {
      ReleaseOther(s, id, k);
    } else {
      ReleaseSelf(s, id);
    }
    ObservedAppend(s.signals, CallEvent(id, Disconnected), k);
  }

  lemma RetiredKeeps(s: System)
    requires Inv(s) && s.backend.queue != []
    requires s.backend.queue[0].CallStateChanged? && s.backend.queue[0].state == Disconnected
    requires s.backend.queue[0].id in s.records
    ensures Keeps(s, Retired(s, s.backend.queue[0].id, s.backend.queue[0].code))
  {
    var CallStateChanged(id, st, code) := s.backend.queue[0];
    LiveRecord(s, id);
    PopPending(s, id);
    RetireView(View(s, id), Pending(s.backend.queue[1..], id));
    forall k ensures k != id ==> View(Retired(s, id, code), k) == View(s, k) {
      RetiredViews(s, id, code, k);
    }
    RetiredViews(s, id, code, id);
    HandledKeeps(s, Retired(s, id, code), id);
  }

  lemma HoldCommutes(s: System, id: CallId, timers: multiset<Timer>)
    ensures HoldIfTalking(s.(timers := timers), id) == HoldIfTalking(s, id).(timers := timers)
    ensures HoldIfTalking(s, id).timers == s.timers
  {
  }

  lemma UnholdCommutes(s: System, id: CallId, retries: int, t: Timer)
    ensures RequestUnhold(s, id, retries).(timers := RequestUnhold(s, id, retries).timers + multiset{t})
            == RequestUnhold(s.(timers := s.timers + multiset{t}), id, retries)
  {
    if id in s.records && !CanUnhold(s.backend, id) && retries > 0 {
      assert s.timers + multiset{UnholdRetry(id, retries - 1)} + multiset{t}
          == s.timers + multiset{t} + multiset{UnholdRetry(id, retries - 1)};
    } else if id in s.records && CanUnhold(s.backend, id) {
      var s1 := WithHeld(s.(backend := Unhold(s.backend, id)), id, false);
      HoldCommutes(s1, s1.active, s.timers + multiset{t});
    }
  }

  /** A disconnect is the bookkeeping followed, if the active call ended and
      there is a held one, by its promotion. */
  lemma DisconnectShape(s: System, pick: CallId)
    requires s.backend.queue != []
    requires s.backend.queue[0].CallStateChanged? && s.backend.queue[0].state == Disconnected
    requires s.backend.queue[0].id in s.records
    ensures var id := s.backend.queue[0].id;
            var t := Retired(s, id, s.backend.queue[0].code);
            Deliver(s, pick) == if s.active == id && Promotable(t.records) != {}
                                then RequestUnhold(t.(active := pick), pick, 3) else t
  {
    hide RequestUnhold;
    var CallStateChanged(id, st, code) := s.backend.queue[0];
    var t := Retired(s, id, code);
    var r := s.records[id].(state := Disconnected, lastStatusCode := code);
    assert s.records[id := r] - {id} == t.records;
    var u := t.(active := pick, timers := s.timers);
    UnholdCommutes(u, pick, 3, LingerExpiry(id));
    assert u.(timers := s.timers + multiset{LingerExpiry(id)}) == t.(active := pick);
  }

  lemma DisconnectKeeps(s: System, pick: CallId)
    requires Inv(s) && DeliverEnabled(s, pick)
    requires s.backend.queue[0].CallStateChanged? && s.backend.queue[0].state == Disconnected
    requires s.backend.queue[0].id in s.records
    ensures Keeps(s, Deliver(s, pick))
  {
    var CallStateChanged(id, st, code) := s.backend.queue[0];
    var t := Retired(s, id, code);
    RetiredKeeps(s);
    DisconnectShape(s, pick);
    if s.active == id && Promotable(t.records) != {} {
      ActivateKeeps(t, pick);
      KeepsTrans(s, t, t.(active := pick));
      RequestUnholdKeeps(t.(active := pick), pick, 3);
      KeepsTrans(s, t.(active := pick), Deliver(s, pick));
    }
  }

  lemma {:induction false} HangupLegsKeeps(s: System, legs: seq<CallId>)
    requires Inv(s)
    ensures Keeps(s, HangupLegs(s, legs))
    decreases |legs|
  {
    if legs == [] {
    } else if legs[0] in s.records {
      var t := s.(backend := Hangup(s.backend, legs[0]));
      HangupKeeps(s, legs[0]);
      HangupLegsKeeps(t, legs[1..]);
      KeepsTrans(s, t, HangupLegs(s, legs));
    } else {
      HangupLegsKeeps(s, legs[1..]);
    }
  }

  lemma TransferStatusKeeps(s: System, pick: CallId)
    requires Inv(s) && s.backend.queue != [] && s.backend.queue[0].TransferStatus?
    ensures Keeps(s, Deliver(s, pick))
  {
    var TransferStatus(id, code, isFinal) := s.backend.queue[0];
    var t := Popped(s).(transfers := if isFinal then s.transfers - {id} else s.transfers);
    InvisibleChange(s, t);
    var legs := LegsToHangup(s.transfers, id, code, isFinal);
    HangupLegsKeeps(t, legs);
    KeepsTrans(s, t, HangupLegs(t, legs));
  }

  lemma DeliverKeeps(s: System, pick: CallId)
    requires Inv(s) && DeliverEnabled(s, pick)
    ensures Keeps(s, Deliver(s, pick))
  {
    match s.backend.queue[0]
    case IncomingCall(account, _, _, _) =>
      if account in s.accountFor { AdoptKeeps(s, pick); } else { RejectKeeps(s, pick); }
    case CallStateChanged(id, st, _) =>
      if id !in s.records {
        UnknownStateKeeps(s);
      } else if st == Disconnected {
        DisconnectKeeps(s, pick);
      } else {
        ProgressKeeps(s, pick);
      }
    case MediaStateChanged(_, _, _) => SilentPopKeeps(s);
    case TransferStatus(_, _, _) => TransferStatusKeeps(s, pick);
  }

  // -------------------------------------------------------------------------
  // Timers and commands
  // -------------------------------------------------------------------------

  lemma LingerKeeps(s: System, id: CallId)
    requires Inv(s) && LingerExpiry(id) in s.timers
    ensures Keeps(s, Next(s, LingerTimer(id)))
  {
    assert ViewOk(s, id);
    var t := Next(s, LingerTimer(id));
    assert IsLingering(View(s, id));
    assert View(t, id) == View(s, id).(lingering := false, lingerTimers := 0);
    HandledKeeps(s, t, id);
  }

  lemma WireBridgeKeeps(s: System, id: CallId, other: CallId, retries: int)
    requires Inv(s)
    ensures Keeps(s, WireBridge(s, id, other, retries))
  {
    var t := WireBridge(s, id, other, retries);
    if id in s.records && other in s.records {
      if BothConfirmed(s.backend, id, other) {
        QuietLog(s, t, DidBridge(id, other));
        InvisibleChange(s, t);
      } else if retries > 0 {
        ArmKeeps(s, BridgeRetry(id, other, retries - 1));
      }
    }
  }

  lemma AcceptKeeps(s: System, id: CallId)
    requires Inv(s)
    ensures Keeps(s, Accept(s, id))
  {
    if id in s.records {
      SetActiveCallKeeps(s, id);
      var s1 := SetActiveCall(s, id);
      AnswerKeeps(s1, id);
      KeepsTrans(s, s1, Accept(s, id));
    }
  }

  lemma HoldCallKeeps(s: System, id: CallId)
    requires Inv(s)
    ensures Keeps(s, HoldCall(s, id))
  {
    if id in s.records && CanHold(s.backend, id) {
      SetHeldKeeps(s, id, true, HoldCall(s, id));
    }
  }

  lemma MergeKeeps(s: System, id: CallId, other: CallId)
    requires Inv(s)
    ensures Keeps(s, MergeCalls(s, id, other))
  {
    if id in s.records && other in s.records
       && s.records[id].state == Confirmed && s.records[other].state == Confirmed {
      if s.records[other].held {
        RequestUnholdKeeps(s, other, 5);
        var s1 := RequestUnhold(s, other, 5);
        ArmKeeps(s1, BridgeRetry(id, other, 5));
        KeepsTrans(s, s1, MergeCalls(s, id, other));
      } else {
        WireBridgeKeeps(s, id, other, 5);
      }
    }
  }

  lemma BlindKeeps(s: System, id: CallId, uri: string)
    requires Inv(s)
    ensures Keeps(s, BlindTransferCall(s, id, uri))
  {
    hide Pending, Releases, GoodView;
    var t := BlindTransferCall(s, id, uri);
    if id in s.records {
      if InState(s.backend, id, Confirmed) {
        QuietLog(s, t, DidBlindTransfer(id, uri));
      }
      InvisibleChange(s, t);
    }
  }

  lemma AttendedKeeps(s: System, id: CallId, dest: CallId)
    requires Inv(s)
    ensures Keeps(s, AttendedTransferCalls(s, id, dest))
  {
    hide Pending, Releases, GoodView;
    var t := AttendedTransferCalls(s, id, dest);
    if id != dest && id in s.records && dest in s.records {
      if BothConfirmed(s.backend, id, dest) {
        QuietLog(s, t, DidAttendedTransfer(id, dest));
      }
      InvisibleChange(s, t);
    }
  }

  lemma MuteKeeps(s: System, id: CallId, on: bool)
    requires Inv(s)
    ensures Keeps(s, MuteCall(s, id, on))
  {
    if id in s.records && InState(s.backend, id, Confirmed) {
      LiveRecord(s, id);
      FlagChange(s, id, s.backend.calls[id].(muted := on), s.records[id].(muted := on), [], [DidSetMuted(id, on)]);
    }
  }

  lemma StartRecordingKeeps(s: System, id: CallId)
    requires Inv(s)
    ensures Keeps(s, StartRecordingCall(s, id))
  {
    if id in s.records && CanStartRecording(s.backend, id) {
      LiveRecord(s, id);
      FlagChange(s, id, s.backend.calls[id].(recording := true), s.records[id].(recording := true), [], [DidStartRecording(id)]);
    }
  }

  lemma StopRecordingKeeps(s: System, id: CallId)
    requires Inv(s)
    ensures Keeps(s, StopRecordingCall(s, id))
  {
    if CanStopRecording(s.backend, id) {
      assert ViewOk(s, id);
      FlagChange(s, id, s.backend.calls[id].(recording := false), s.records[id].(recording := false), [], [DidStopRecording(id)]);
    }
  }

  lemma RemoteTransferKeeps(s: System, id: CallId, code: int, isFinal: bool)
    requires Inv(s)
    ensures Keeps(s, s.(backend := RemoteTransferStatus(s.backend, id, code, isFinal)))
  {
    forall k ensures Pending(s.backend.queue + [TransferStatus(id, code, isFinal)], k) == Pending(s.backend.queue, k) {
      PendingAppend(s.backend.queue, [TransferStatus(id, code, isFinal)], k);
      PendingOne(TransferStatus(id, code, isFinal), k);
    }
    InvisibleChange(s, s.(backend := RemoteTransferStatus(s.backend, id, code, isFinal)));
  }

  lemma SelfKeeps(s: System)
    requires Inv(s)
    ensures Keeps(s, s)
  {
  }

  lemma AccountsKeeps(s: System, accounts: set<BackendAccountId>, backendFor: map<AccountId, BackendAccountId>,
                      accountFor: map<BackendAccountId, AccountId>)
    requires Inv(s)
    ensures Keeps(s, s.(backend := s.backend.(accounts := accounts), backendFor := backendFor, accountFor := accountFor))
  {
    InvisibleChange(s, s.(backend := s.backend.(accounts := accounts), backendFor := backendFor, accountFor := accountFor));
  }

  lemma UserKeeps(s: System, st: Step)
    requires Inv(s) && Enabled(s, st) && !Internal(st)
    ensures Keeps(s, Next(s, st))
  {
    hide Inv, Forward;
    SelfKeeps(s);
    match st
    case Dial(account, uri) => MakeCallKeeps(s, account, uri);
    case AcceptStep(id) => AcceptKeeps(s, id);
    case DeclineStep(id) => DeclineKeeps(s, id, 486);
    case ForwardStep(id, uri) => RedirectKeeps(s, id, uri);
    case HoldStep(id) => HoldCallKeeps(s, id);
    case UnholdStep(id) => RequestUnholdKeeps(s, id, 5);
    case MergeStep(id, other) => MergeKeeps(s, id, other);
    case BlindStep(id, uri) => BlindKeeps(s, id, uri);
    case AttendedStep(id, dest) => AttendedKeeps(s, id, dest);
    case HangupStep(id) => HangupKeeps(s, id);
    case MuteStep(id, on) => MuteKeeps(s, id, on);
    case StartRecordingStep(id) => StartRecordingKeeps(s, id);
    case StopRecordingStep(id) => StopRecordingKeeps(s, id);
    case RemoteCallStep(account, uri, name) => RemoteCallKeeps(s, account, uri, name);
    case RemoteAnswerStep(id) => RemoteAnswerKeeps(s, id);
    case RemoteHangupStep(id, code) => RemoteHangupKeeps(s, id, code);
    case RemoteTransferStep(id, code, isFinal) => RemoteTransferKeeps(s, id, code, isFinal);
    case AccountsStep(accounts, backendFor, accountFor) => AccountsKeeps(s, accounts, backendFor, accountFor);
  }

  lemma InternalKeeps(s: System, st: Step)
    requires Inv(s) && Enabled(s, st) && Internal(st)
    ensures Keeps(s, Next(s, st))
  {
    match st
    case DeliverStep(pick) => DeliverKeeps(s, pick);
    case LingerTimer(id) => LingerKeeps(s, id);
    case UnholdTimer(id, n) =>
      ArmKeeps(s, UnholdRetry(id, n));
      var s1 := Disarm(s, UnholdRetry(id, n));
      RequestUnholdKeeps(s1, id, n);
      KeepsTrans(s, s1, Next(s, st));
    case BridgeTimer(id, other, n) =>
      ArmKeeps(s, BridgeRetry(id, other, n));
      var s1 := Disarm(s, BridgeRetry(id, other, n));
      WireBridgeKeeps(s1, id, other, n);
      KeepsTrans(s, s1, Next(s, st));
  }

  /** One step of any kind. */
  lemma NextKeeps(s: System, st: Step)
    requires Inv(s) && Enabled(s, st)
    ensures Inv(Next(s, st)) && Forward(s, Next(s, st))
  {
    if Internal(st) { InternalKeeps(s, st); } else { UserKeeps(s, st); }
  }

  /** A whole run. */
  lemma {:induction false} RunKeeps(s: System, steps: seq<Step>)
    requires Inv(s) && IsRun(s, steps)
    ensures Inv(Run(s, steps)) && Forward(s, Run(s, steps))
    decreases |steps|
  {
    if steps != [] {
      var t := Next(s, steps[0]);
      NextKeeps(s, steps[0]);
      RunKeeps(t, steps[1..]);
      KeepsTrans(s, t, Run(t, steps[1..]));
    }
  }

  lemma InitialInv()
    ensures Inv(Initial)
  {
  }

  lemma Reachable(steps: seq<Step>)
    requires IsRun(Initial, steps)
    ensures Inv(Run(Initial, steps))
  {
    InitialInv();
    RunKeeps(Initial, steps);
  }
}
