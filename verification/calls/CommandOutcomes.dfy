/** What becomes of a command in the end: runs that follow it, whatever else
    happens in them. */
module CommandOutcomes {
  import opened SipTypes
  import opened CallSpec
  import opened CallViews
  import opened StepLaws
  import opened MergeLaws
  import CallInvariant
  import CallTheorems

  lemma {:induction false} UpThroughout(s: System, steps: seq<Step>, k: CallId)
    requires Inv(s) && IsRun(s, steps) && WasUp(s, k)
    ensures WasUp(Run(s, steps), k) && (Over(s, k) ==> Over(Run(s, steps), k))
    decreases |steps|
  {
    hide Inv, Next, Enabled, WasUp, Over;
    if steps != [] {
      UpAndOver(s, steps[0], k);
      CallInvariant.NextKeeps(s, steps[0]);
      UpThroughout(Next(s, steps[0]), steps[1..], k);
    }
  }

  /** The run `steps`, then the command `st`, then `more`. */
  lemma Joined(steps: seq<Step>, st: Step, more: seq<Step>)
    requires IsRun(Initial, steps) && Enabled(Run(Initial, steps), st) && IsRun(Next(Run(Initial, steps), st), more)
    ensures IsRun(Initial, steps + ([st] + more))
    ensures Run(Initial, steps + ([st] + more)) == Run(Next(Run(Initial, steps), st), more)
  {
    var tail := [st] + more;
    assert tail[1..] == more && tail[0] == st;
    hide Next, Enabled;
    CallTheorems.RunAppend(Initial, steps, tail);
  }

  /** A call that is hung up ends: from then on the backend has it at most as
      ended, and when nothing is left to do there is no trace of it. */
  lemma HangupEndsCall(steps: seq<Step>, id: CallId, more: seq<Step>)
    requires IsRun(Initial, steps) && id in Run(Initial, steps).records
    requires IsRun(Next(Run(Initial, steps), HangupStep(id)), more)
    ensures var t := Run(Next(Run(Initial, steps), HangupStep(id)), more);
            && Over(t, id)
            && (CallTheorems.Settled(t) ==> id !in t.records && id !in t.backend.calls && id !in t.lingering)
  {
    var s := Run(Initial, steps);
    CallInvariant.Reachable(steps);
    CallFacts(s, id);
    var u := Next(s, HangupStep(id));
    PresenceExact(s, HangupStep(id), id);
    CellsAgree(s, u, id);
    if id in u.backend.calls { CallExact(s, HangupStep(id), id); }
    IdsGrow(s, HangupStep(id));
    CallInvariant.NextKeeps(s, HangupStep(id));
    hide Inv, Next;
    UpThroughout(u, more, id);
    Joined(steps, HangupStep(id), more);
    if CallTheorems.Settled(Run(u, more)) { CallTheorems.SettledAgreement(steps + ([HangupStep(id)] + more)); }
    hide IsRun, Run;
  }

  /** A ringing call that is accepted is active and up at once; from then on it is
      up or over, and when nothing is left to do its record says so. */
  lemma AcceptConfirmsCall(steps: seq<Step>, id: CallId, more: seq<Step>)
    requires IsRun(Initial, steps) && id in Run(Initial, steps).records && id in Run(Initial, steps).backend.calls
    requires Run(Initial, steps).backend.calls[id].state == EarlyMedia
    requires IsRun(Next(Run(Initial, steps), AcceptStep(id)), more)
    ensures var u := Next(Run(Initial, steps), AcceptStep(id));
            u.active == id && id in u.backend.calls && u.backend.calls[id].state == Confirmed
    ensures var t := Run(Next(Run(Initial, steps), AcceptStep(id)), more);
            && (id in t.backend.calls ==> t.backend.calls[id].state == Confirmed || t.backend.calls[id].state == Disconnected)
            && (CallTheorems.Settled(t) && id in t.records ==> t.records[id].state == Confirmed)
  {
    var s, st := Run(Initial, steps), AcceptStep(id);
    CallInvariant.Reachable(steps);
    CallFacts(s, id);
    var u := Next(s, st);
    PresenceExact(s, st, id);
    CellsAgree(s, u, id);
    assert id in u.backend.calls;
    CallExact(s, st, id);
    ActiveExact(s, st);
    assert Takes(s, st, id);
    IdsGrow(s, st);
    CallInvariant.NextKeeps(s, st);
    hide Inv, Next;
    UpThroughout(u, more, id);
    Joined(steps, st, more);
    if CallTheorems.Settled(Run(u, more)) { CallTheorems.SettledAgreement(steps + ([st] + more)); }
    hide IsRun, Run;
  }

  // -------------------------------------------------------------------------
  // Flags
  // -------------------------------------------------------------------------

  predicate Up(s: System, k: CallId) {
    k in s.records && k in s.backend.calls && s.backend.calls[k].state == Confirmed
  }

  /** The last mute command the call took, if any: mute is off to begin with. */
  ghost function LastMute(s: System, steps: seq<Step>, k: CallId, before: bool): bool
    requires IsRun(s, steps)
    decreases |steps|
  {
    if steps == [] then before
    else
      var st := steps[0];
      LastMute(Next(s, st), steps[1..], k, if st.MuteStep? && st.id == k && Up(s, k) then st.on else before)
  }

  ghost function LastRecording(s: System, steps: seq<Step>, k: CallId, before: bool): bool
    requires IsRun(s, steps)
    decreases |steps|
  {
    if steps == [] then before
    else
      var st := steps[0];
      LastRecording(Next(s, st), steps[1..], k,
                    if st == StartRecordingStep(k) && Up(s, k) then true else if st == StopRecordingStep(k) then false else before)
  }

  /** What the backend says of a call it has; off for a call to come. */
  predicate Shows(s: System, k: CallId, muted: bool, recording: bool) {
    (k in s.backend.calls ==> s.backend.calls[k].muted == muted && s.backend.calls[k].recording == recording)
    && (s.backend.nextCallId <= k ==> !muted && !recording)
  }

  lemma ShowsNext(s: System, st: Step, k: CallId, muted: bool, recording: bool)
    requires Inv(s) && Enabled(s, st) && Shows(s, k, muted, recording)
    ensures Shows(Next(s, st), k,
                  if st.MuteStep? && st.id == k && Up(s, k) then st.on else muted,
                  if st == StartRecordingStep(k) && Up(s, k) then true else if st == StopRecordingStep(k) then false else recording)
  {
    var t := Next(s, st);
    CallFacts(s, k);
    PresenceExact(s, st, k);
    CellsAgree(s, t, k);
    IdsGrow(s, st);
    if k in s.backend.calls && k in t.backend.calls { CallExact(s, st, k); }
    hide Inv, Next, Enabled;
  }

  lemma {:induction false} ShowsThroughout(s: System, steps: seq<Step>, k: CallId, muted: bool, recording: bool)
    requires Inv(s) && IsRun(s, steps) && Shows(s, k, muted, recording)
    ensures Shows(Run(s, steps), k, LastMute(s, steps, k, muted), LastRecording(s, steps, k, recording))
    decreases |steps|
  {
    hide Inv, Next, Enabled, Shows, Up;
    if steps != [] {
      var st := steps[0];
      ShowsNext(s, st, k, muted, recording);
      CallInvariant.NextKeeps(s, st);
      ShowsThroughout(Next(s, st), steps[1..], k,
                      if st.MuteStep? && st.id == k && Up(s, k) then st.on else muted,
                      if st == StartRecordingStep(k) && Up(s, k) then true else if st == StopRecordingStep(k) then false else recording);
    }
  }

  /** After any run the mute and recording flags of a call are those of the last
      command it took, in the record and in the backend. */
  lemma FlagsAreTheLast(steps: seq<Step>, k: CallId)
    requires IsRun(Initial, steps) && k in Run(Initial, steps).records
    ensures var s := Run(Initial, steps);
            && k in s.backend.calls
            && s.records[k].muted == s.backend.calls[k].muted == LastMute(Initial, steps, k, false)
            && s.records[k].recording == s.backend.calls[k].recording == LastRecording(Initial, steps, k, false)
  {
    CallInvariant.InitialInv();
    ShowsThroughout(Initial, steps, k, false, false);
    CallInvariant.Reachable(steps);
    CallFacts(Run(Initial, steps), k);
    hide Inv;
  }
}
