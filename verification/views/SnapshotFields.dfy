/** What the entries of a snapshot say, field by field, after any run of the
    call layer. */
module SnapshotFields {
  import opened SipTypes
  import opened CallSnapshots
  import opened CallsModelSpec
  import CallSpec
  import CallViews
  import CallInvariant
  import CallIdentity
  import CallTheorems
  import CallCells
  import StepLaws

  // -------------------------------------------------------------------------
  // Lingering calls
  // -------------------------------------------------------------------------

  predicate AllEnded(lingering: map<CallId, CallRecord>) {
    forall id | id in lingering :: lingering[id].state == Disconnected
  }

  /** The call that ends is kept as it was, but for its state and its code. */
  lemma EndKeepsRecord(s: CallSpec.System, pick: CallId)
    requires s.backend.queue != [] && s.backend.queue[0].CallStateChanged?
    requires s.backend.queue[0].state == Disconnected && s.backend.queue[0].id in s.records
    ensures var id, code := s.backend.queue[0].id, s.backend.queue[0].code;
            CallSpec.Deliver(s, pick).lingering
            == s.lingering[id := s.records[id].(state := Disconnected, lastStatusCode := code)]
  {
    CallInvariant.DisconnectShape(s, pick);
    CallTheorems.UnholdKeys(CallInvariant.Retired(s, s.backend.queue[0].id, s.backend.queue[0].code).(active := pick), pick, 3);
    hide CallSpec.RequestUnhold;
  }

  lemma EndedNext(s: CallSpec.System, st: CallSpec.Step)
    requires CallViews.Inv(s) && CallSpec.Enabled(s, st) && AllEnded(s.lingering)
    ensures AllEnded(CallSpec.Next(s, st).lingering)
  {
    CallIdentity.StepFollows(s, st);
    if CallIdentity.EffectOf(s, st).Published? && CallIdentity.EffectOf(s, st).state == Disconnected {
      EndKeepsRecord(s, st.pick);
    }
    hide CallViews.Inv, CallSpec.Deliver, CallIdentity.SameCalls;
  }

  lemma {:induction false} EndedThroughout(s: CallSpec.System, steps: seq<CallSpec.Step>)
    requires CallViews.Inv(s) && CallSpec.IsRun(s, steps) && AllEnded(s.lingering)
    ensures AllEnded(CallSpec.Run(s, steps).lingering)
    decreases |steps|
  {
    hide CallViews.Inv, CallSpec.Next, CallSpec.Enabled, AllEnded;
    if steps != [] {
      EndedNext(s, steps[0]);
      CallInvariant.NextKeeps(s, steps[0]);
      EndedThroughout(CallSpec.Next(s, steps[0]), steps[1..]);
    }
  }

  // -------------------------------------------------------------------------
  // Entries
  // -------------------------------------------------------------------------

  /** Field by field. */
  predicate SaysOf(e: CallEntry, r: CallRecord) {
    && e.accountId == r.accountId && e.remoteUri == r.remoteUri && e.remoteDisplayName == r.displayName
    && e.state == r.state && (e.held <==> r.held) && (e.muted <==> r.muted) && (e.recording <==> r.recording)
    && (e.direction == Inbound <==> r.inbound)
  }

  lemma EntrySays(s: CallSpec.System, out: seq<CallEntry>, e: CallEntry)
    requires IsSnapshot(s, out) && s.records.Keys !! s.lingering.Keys && e in out
    ensures e.id in s.records.Keys + s.lingering.Keys
    ensures e.id in s.records ==> SaysOf(e, s.records[e.id])
    ensures e.id in s.lingering ==> SaysOf(e, s.lingering[e.id])
  {
    SnapshotShows(s, out);
    assert Shows(s, e);
    assert e.id in s.records ==> e.id in s.records.Keys;
    assert e.id in s.lingering ==> e.id in s.lingering.Keys;
  }

  /** The last state published about a call, and Calling before the first. */
  function LastPublished(signals: seq<Signal>, id: CallId): CallState {
    if signals == [] then Calling
    else
      var x := signals[|signals| - 1];
      if x.CallEvent? && x.id == id then x.state else LastPublished(signals[..|signals| - 1], id)
  }

  lemma {:induction false} ObservedLast(signals: seq<Signal>, id: CallId)
    ensures CallViews.LastState(CallViews.Observed(signals, id)) == LastPublished(signals, id)
  {
    if signals != [] {
      ObservedLast(signals[..|signals| - 1], id);
      var before := CallViews.Observed(signals[..|signals| - 1], id);
      assert before + [] == before;
    }
  }

  /** After any run, in any snapshot: the entry of a recorded call has the flags,
      the address and the direction of the call itself, as the backend has them,
      and the state last published; that of a lingering call says that it is over.
      There is an entry for each of these calls and for no other. */
  lemma EntriesAreTheCalls(steps: seq<CallSpec.Step>, out: seq<CallEntry>, e: CallEntry)
    requires CallSpec.IsRun(CallSpec.Initial, steps) && IsSnapshot(CallSpec.Run(CallSpec.Initial, steps), out) && e in out
    ensures var s := CallSpec.Run(CallSpec.Initial, steps);
            && (e.id in s.records ==>
                  && SaysOf(e, s.records[e.id])
                  && e.state == LastPublished(s.signals, e.id) && e.state != Disconnected
                  && e.id in s.backend.calls
                  && var c := s.backend.calls[e.id];
                  && (e.muted <==> c.muted) && (e.recording <==> c.recording) && (e.direction == Inbound <==> c.inbound)
                  && (c.state != Disconnected ==> (e.held <==> c.held)))
            && (e.id !in s.records ==>
                  e.id in s.lingering && SaysOf(e, s.lingering[e.id]) && e.state == Disconnected)
  {
    var s := CallSpec.Run(CallSpec.Initial, steps);
    CallInvariant.Reachable(steps);
    CallInvariant.InitialInv();
    EndedThroughout(CallSpec.Initial, steps);
    RecordsApartFromLingering(steps);
    EntrySays(s, out, e);
    StepLaws.CallFacts(s, e.id);
    if e.id in s.records {
      CallInvariant.LiveRecord(s, e.id);
      ObservedLast(s.signals, e.id);
    }
    hide CallViews.Inv, CallSpec.IsRun, CallSpec.Run, IsSnapshot, CallViews.Observed, CallViews.Pending;
  }

  lemma EntryForEach(steps: seq<CallSpec.Step>, out: seq<CallEntry>, id: CallId)
    requires CallSpec.IsRun(CallSpec.Initial, steps) && IsSnapshot(CallSpec.Run(CallSpec.Initial, steps), out)
    ensures var s := CallSpec.Run(CallSpec.Initial, steps);
            id in s.records || id in s.lingering <==> exists e :: e in out && e.id == id
  {
    var s := CallSpec.Run(CallSpec.Initial, steps);
    SnapshotShows(s, out);
    if id in s.records { assert Shows(s, EntryOf(id, s.records[id])); assert EntryOf(id, s.records[id]) in out; }
    if id in s.lingering { assert Shows(s, EntryOf(id, s.lingering[id])); assert EntryOf(id, s.lingering[id]) in out; }
    if e :| e in out && e.id == id { assert Shows(s, e); }
  }

  // -------------------------------------------------------------------------
  // Rows
  // -------------------------------------------------------------------------

  /** What a refreshed model answers about a call, role by role. */
  lemma RowsAreTheCalls(steps: seq<CallSpec.Step>, rows: seq<CallEntry>, next: seq<CallEntry>, row: CallEntry)
    requires CallSpec.IsRun(CallSpec.Initial, steps) && IsSnapshot(CallSpec.Run(CallSpec.Initial, steps), next)
    requires DistinctIds(rows) && row in Refreshed(rows, next)
    requires row.id in CallSpec.Run(CallSpec.Initial, steps).records
    ensures var s := CallSpec.Run(CallSpec.Initial, steps);
            && row.id in s.backend.calls
            && var r, c := s.records[row.id], s.backend.calls[row.id];
            && Data(row, IdRole) == Number(row.id) && Data(row, AccountIdRole) == Number(r.accountId)
            && Data(row, RemoteUriRole) == Text(r.remoteUri) && Data(row, RemoteDisplayNameRole) == Text(r.displayName)
            && Data(row, MutedRole) == Flag(c.muted) && Data(row, RecordingRole) == Flag(c.recording)
            && (c.state != Disconnected ==> Data(row, HeldRole) == Flag(c.held))
            && Data(row, DirectionRole) == Text(if c.inbound then "in" else "out")
            && Data(row, StateRole) == Text(match LastPublished(s.signals, row.id)
                                            case Idle => "idle"
                                            case Calling => "calling"
                                            case EarlyMedia => "early"
                                            case Confirmed => "active"
                                            case Disconnected => "disconnected")
  {
    ModelShowsTheCalls(steps, rows, next);
    SnapshotShows(CallSpec.Run(CallSpec.Initial, steps), next);
    EntriesAreTheCalls(steps, next, row);
    hide CallSpec.IsRun, CallSpec.Run, IsSnapshot, Refreshed, LastPublished;
  }
}
