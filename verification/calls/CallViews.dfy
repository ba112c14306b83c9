/** What the whole system says about one call id, and the protocol that this
    local view obeys. */
module CallViews {
  import opened SipTypes
  import opened BackendSpec
  import opened CallSpec

  /** Something the manager has been, or will be, told about a call. */
  datatype Token = Announced | To(state: CallState)

  function TokensOf(e: Event, id: CallId): seq<Token> {
    match e
    case IncomingCall(_, i, _, _) => if i == id then [Announced] else []
    case CallStateChanged(i, st, _) => if i == id then [To(st)] else []
    case _ => []
  }

  /** The undelivered notices about `id`, oldest first. */
  function Pending(queue: seq<Event>, id: CallId): seq<Token> {
    if queue == [] then [] else TokensOf(queue[0], id) + Pending(queue[1..], id)
  }

  function SignalTokens(x: Signal, id: CallId): seq<Token> {
    match x
    case CallEvent(i, st) => if i == id then [To(st)] else []
    case IncomingCallSignal(_) => []
  }

  /** The states the manager has published for `id`, oldest first. */
  function Observed(signals: seq<Signal>, id: CallId): seq<Token> {
    if signals == [] then []
    else Observed(signals[..|signals| - 1], id) + SignalTokens(signals[|signals| - 1], id)
  }

  /** How often the backend has really released `id`. */
  function Releases(log: seq<Command>, id: CallId): nat {
    if log == [] then 0
    else Releases(log[..|log| - 1], id) + (if log[|log| - 1] == DidReleaseCall(id) then 1 else 0)
  }

  lemma ReleasesAppend(log: seq<Command>, c: Command, id: CallId)
    ensures Releases(log + [c], id) == Releases(log, id) + (if c == DidReleaseCall(id) then 1 else 0)
  {
    assert (log + [c])[..|log|] == log;
  }

  lemma {:induction false} PendingAppend(q: seq<Event>, r: seq<Event>, id: CallId)
    ensures Pending(q + r, id) == Pending(q, id) + Pending(r, id)
  {
    if q == [] {
      assert q + r == r;
    } else {
      assert (q + r)[1..] == q[1..] + r;
      PendingAppend(q[1..], r, id);
    }
  }

  lemma PendingOne(e: Event, id: CallId)
    ensures Pending([e], id) == TokensOf(e, id)
  {
    assert Pending([e][1..], id) == [];
  }

  lemma ObservedAppend(xs: seq<Signal>, x: Signal, id: CallId)
    ensures Observed(xs + [x], id) == Observed(xs, id) + SignalTokens(x, id)
  {
    assert (xs + [x])[..|xs|] == xs;
  }

  datatype CallView = CallView(
    call: Option<FakeCall>,
    record: Option<CallRecord>,
    lingering: bool,
    lingerTimers: nat,
    pending: seq<Token>,
    observed: seq<Token>,
    releases: nat)

  function Lookup<V>(m: map<CallId, V>, id: CallId): Option<V> {
    if id in m then Some(m[id]) else None
  }

  function View(s: System, id: CallId): CallView {
    CallView(Lookup(s.backend.calls, id), Lookup(s.records, id), id in s.lingering,
             s.timers[LingerExpiry(id)], Pending(s.backend.queue, id), Observed(s.signals, id),
             Releases(s.backend.log, id))
  }

  predicate Minted(s: System, id: CallId) {
    1 <= id < s.backend.nextCallId
  }

  // -------------------------------------------------------------------------
  // The protocol of one call
  // -------------------------------------------------------------------------

  predicate EndedHistory(h: seq<Token>) {
    h == [To(Calling), To(Disconnected)] || h == [To(Calling), To(Confirmed), To(Disconnected)]
  }

  /** The complete list of notices a call in backend state `st` gives rise to. */
  predicate HistoryFor(h: seq<Token>, st: CallState) {
    match st
    case Idle => false
    case Calling | EarlyMedia => h == [To(Calling)]
    case Confirmed => h == [To(Calling), To(Confirmed)]
    case Disconnected => EndedHistory(h)
  }

  /** At most one Calling, then at most one Confirmed, then at most one
      Disconnected: the only sequences observers may ever see. */
  predicate LegalHistory(h: seq<Token>) {
    h == [] || h == [To(Calling)] || h == [To(Calling), To(Confirmed)] || EndedHistory(h)
  }

  /** The state of a record after the notices `h`; a fresh record says Calling. */
  function LastState(h: seq<Token>): CallState {
    if h == [] then Calling
    else match h[|h| - 1] case To(st) => st case Announced => Idle
  }

  predicate IsUnminted(v: CallView) {
    v == CallView(None, None, false, 0, [], [], 0)
  }

  /** An incoming call the manager has not been told about yet. */
  predicate IsAnnounced(v: CallView) {
    v.call.Some? && v.record.None? && !v.lingering && v.lingerTimers == 0 && v.releases == 0
    && v.observed == []
    && var c := v.call.value;
    c.inbound && !c.held && !c.muted && !c.recording
    && ((c.state == EarlyMedia && v.pending == [Announced])
        || (c.state == Disconnected && v.pending == [Announced, To(Disconnected)]))
  }

  /** The manager's flags agree with the backend's; the held flag need not
      once the backend call has ended. */
  predicate FlagsAgree(c: FakeCall, r: CallRecord) {
    c.inbound == r.inbound && c.muted == r.muted && c.recording == r.recording
    && (c.state != Disconnected ==> c.held == r.held)
    && (c.state != Disconnected && c.state != Confirmed ==> !c.held && !c.muted)
    && (c.state == Calling ==> !c.inbound)
    && (c.state == EarlyMedia ==> c.inbound)
  }

  predicate IsLive(v: CallView) {
    v.call.Some? && v.record.Some? && !v.lingering && v.lingerTimers == 0 && v.releases == 0
    && HistoryFor(v.observed + v.pending, v.call.value.state)
    && v.record.value.state == LastState(v.observed)
    && v.record.value.state != Disconnected
    && FlagsAgree(v.call.value, v.record.value)
  }

  predicate IsLingering(v: CallView) {
    v.call.None? && v.record.None? && v.lingering && v.lingerTimers == 1 && v.releases == 1
    && v.pending == [] && EndedHistory(v.observed)
  }

  predicate IsGone(v: CallView) {
    v.call.None? && v.record.None? && !v.lingering && v.lingerTimers == 0 && v.releases == 1
    && ((v.observed == [] && (v.pending == [] || v.pending == [To(Disconnected)]))
        || (EndedHistory(v.observed) && v.pending == []))
  }

  predicate GoodView(v: CallView, minted: bool) {
    if minted then IsAnnounced(v) || IsLive(v) || IsLingering(v) || IsGone(v) else IsUnminted(v)
  }

  /** 0 not minted, 1 announced, 2 live, 3 lingering, 4 gone. */
  function PhaseOf(v: CallView, minted: bool): nat {
    if v.lingering then 3
    else if v.record.Some? then 2
    else if Announced in v.pending then 1
    else if minted then 4
    else 0
  }

  function Phase(s: System, id: CallId): nat {
    PhaseOf(View(s, id), Minted(s, id))
  }

  // -------------------------------------------------------------------------
  // The invariant of the whole system
  // -------------------------------------------------------------------------

  predicate ViewOk(s: System, id: CallId) {
    GoodView(View(s, id), Minted(s, id))
  }

  ghost predicate TransfersOk(s: System) {
    s.transfers.Keys <= s.records.Keys
    && forall id | id in s.transfers :: 1 <= |s.transfers[id]| <= 2 && s.transfers[id][0] == id
  }

  ghost predicate Inv(s: System) {
    1 <= s.backend.nextCallId
    && (s.active == INVALID_ID || s.active in s.records)
    && TransfersOk(s)
    && forall id :: ViewOk(s, id)
  }

  ghost predicate Forward(s: System, t: System) {
    forall id :: Phase(s, id) <= Phase(t, id)
  }
}
