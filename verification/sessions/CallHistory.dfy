/** The call layer and the controller that listens to it, run together. The
    controller places its dials and notes adopted calls on the spot; call events
    reach it through a queue of their own, in the order in which they were
    published, and any time later. */
module CallHistory {
  import opened SipTypes
  import opened CallSpec
  import opened CallIdentity
  import CallViews
  import CallInvariant
  import CallSnapshots
  import CallSessions
  import S = SessionSpec
  import T = SessionTheorems

  /** `handled` counts the published signals the controller has handled,
      `inputs` is what it was told altogether. `parties` remembers the record
      with which each call began. */
  datatype Phone = Phone(system: System, handled: nat, inputs: seq<S.Input>, parties: map<CallId, CallRecord>)

  const SWITCHED_OFF := Phone(Initial, 0, [], map[])

  datatype Turn =
    | Request(account: AccountId, target: string, now: int)
    | Work(step: Step, now: int)
    | Handle(now: int)

  predicate CanTake(p: Phone, t: Turn) {
    match t
    case Request(_, _, _) => true
    case Work(st, _) => Enabled(p.system, st) && !st.Dial?
    case Handle(_) => p.handled < |p.system.signals|
  }

  /** What the snapshot says about a call at this moment. */
  function Found(s: System, id: CallId): Option<CallEntry> {
    if id in s.records then Some(EntryOf(id, s.records[id]))
    else if id in s.lingering then Some(EntryOf(id, s.lingering[id]))
    else None
  }

  function Noted(s: System, id: CallId): CallEntry {
    CallSessions.EntryOr(Found(s, id), id)
  }

  function Parties(parties: map<CallId, CallRecord>, e: Effect): map<CallId, CallRecord> {
    if e.Born? then parties[e.id := e.record] else parties
  }

  ghost predicate Refused(p: Phone, target: string) {
    S.HasLiveOutboundTo(S.Run(p.inputs).sessions, target)
  }

  /** The guard is open: the call layer is asked for a call. */
  function Requested(p: Phone, account: AccountId, target: string, now: int): Phone {
    var e := EffectOf(p.system, Dial(account, target));
    p.(system := Next(p.system, Dial(account, target)),
       inputs := p.inputs + [S.DialRequest(if e.Born? then e.id else INVALID_ID, account, target, now)],
       parties := Parties(p.parties, e))
  }

  function Worked(p: Phone, st: Step, now: int): Phone
    requires Enabled(p.system, st)
  {
    var e, t := EffectOf(p.system, st), Next(p.system, st);
    p.(system := t,
       inputs := if e.Born? && e.announced then p.inputs + [S.IncomingNote(Noted(t, e.id), now)] else p.inputs,
       parties := Parties(p.parties, e))
  }

  function Handled(p: Phone, now: int): Phone
    requires p.handled < |p.system.signals|
  {
    p.(handled := p.handled + 1,
       inputs := match p.system.signals[p.handled]
                 case CallEvent(id, state) => p.inputs + [S.StateNote(Noted(p.system, id), state, now)]
                 case IncomingCallSignal(_) => p.inputs)
  }

  ghost function Take(p: Phone, t: Turn): Phone
    requires CanTake(p, t)
  {
    match t
    case Request(account, target, now) => if Refused(p, target) then p else Requested(p, account, target, now)
    case Work(st, now) => Worked(p, st, now)
    case Handle(now) => Handled(p, now)
  }

  ghost predicate IsCourse(p: Phone, turns: seq<Turn>)
    decreases |turns|
  {
    turns == [] || (CanTake(p, turns[0]) && IsCourse(Take(p, turns[0]), turns[1..]))
  }

  ghost function Course(p: Phone, turns: seq<Turn>): Phone
    requires IsCourse(p, turns)
    decreases |turns|
  {
    if turns == [] then p else Course(Take(p, turns[0]), turns[1..])
  }

  /** `Found` is what a search of any snapshot finds. */
  lemma SnapshotFinds(s: System, out: seq<CallEntry>, e: CallEntry)
    requires CallSnapshots.IsSnapshot(s, out) && s.records.Keys !! s.lingering.Keys
    ensures e in out <==> Found(s, e.id) == Some(e)
  {
    CallSnapshots.SnapshotShows(s, out);
    assert e in out <==> CallSnapshots.Shows(s, e);
    assert e.id in s.records ==> e.id in s.records.Keys;
    assert e.id in s.lingering ==> e.id in s.lingering.Keys;
  }

  // -------------------------------------------------------------------------
  // Which calls there are, and which have ended
  // -------------------------------------------------------------------------

  predicate EndAt(xs: seq<Signal>, id: CallId, i: int) {
    0 <= i < |xs| && xs[i] == CallEvent(id, Disconnected)
  }

  /** The end of the call is published as the signal number `from` or later. */
  predicate EndsFrom(xs: seq<Signal>, id: CallId, from: int) {
    exists i | from <= i < |xs| :: EndAt(xs, id, i)
  }

  /** The controller has handled the end of the call. */
  predicate EndHandled(p: Phone, id: CallId) {
    exists i | 0 <= i < p.handled :: EndAt(p.system.signals, id, i)
  }

  predicate About(x: Signal, id: CallId) {
    x.CallEvent? && x.id == id
  }

  predicate UnheardOf(xs: seq<Signal>, id: CallId) {
    forall i | 0 <= i < |xs| :: !About(xs[i], id)
  }

  /** A call somebody has heard of has its record or comes to its end; an end is
      final. */
  predicate Lasts(s: System, i: int)
    requires 0 <= i < |s.signals| && s.signals[i].CallEvent?
  {
    var id := s.signals[i].id;
    && (id in s.records || EndsFrom(s.signals, id, i))
    && (s.signals[i].state == Disconnected ==>
          id !in s.records && forall j | i < j < |s.signals| :: !About(s.signals[j], id))
  }

  ghost predicate Orderly(s: System) {
    forall i | 0 <= i < |s.signals| && s.signals[i].CallEvent? :: Lasts(s, i)
  }

  ghost predicate Recorded(s: System, parties: map<CallId, CallRecord>) {
    && (forall id :: id in parties <==> id in s.records || EndsFrom(s.signals, id, 0))
    && (forall id | id in s.records :: Identity(s.records[id]) == parties[id])
    && (forall id | id in s.lingering :: id in parties && Identity(s.lingering[id]) == parties[id])
  }

  lemma EndsMore(xs: seq<Signal>, more: seq<Signal>, id: CallId, from: int)
    requires 0 <= from <= |xs|
    ensures EndsFrom(xs + more, id, from) <==> EndsFrom(xs, id, from) || EndsFrom(more, id, 0)
  {
    var ys := xs + more;
    if i :| from <= i < |ys| && EndAt(ys, id, i) {
      assert if i < |xs| then EndAt(xs, id, i) else EndAt(more, id, i - |xs|);
    }
    if i :| from <= i < |xs| && EndAt(xs, id, i) { assert EndAt(ys, id, i); }
    if i :| 0 <= i < |more| && EndAt(more, id, i) { assert EndAt(ys, id, |xs| + i); }
  }

  function Signals(e: Effect): seq<Signal> {
    match e
    case Silent => []
    case Born(id, _, announced) => if announced then [CallEvent(id, Calling), IncomingCallSignal(id)] else []
    case Published(id, state) => [CallEvent(id, state)]
  }

  predicate Ending(e: Effect, id: CallId) {
    e == Published(id, Disconnected)
  }

  lemma EffectEnds(e: Effect, id: CallId)
    ensures EndsFrom(Signals(e), id, 0) <==> Ending(e, id)
  {
    if Ending(e, id) { assert EndAt(Signals(e), id, 0); }
  }

  /** What one effect does to one call. */
  lemma EffectOn(s: System, t: System, e: Effect, id: CallId)
    requires Follows(s, t, e)
    ensures t.signals == s.signals + Signals(e)
    ensures id in t.records <==> (id in s.records && !Ending(e, id)) || (e.Born? && e.id == id)
    ensures e.Published? && e.id == id ==> id in s.records
    ensures e.Born? && e.id == id ==> id !in s.records && id in t.records && Identity(t.records[id]) == e.record
    ensures id in t.records && id in s.records ==> Identity(t.records[id]) == Identity(s.records[id])
    ensures id in t.lingering ==>
              || (id in s.lingering && t.lingering[id] == s.lingering[id])
              || (id in s.records && Ending(e, id) && Identity(t.lingering[id]) == Identity(s.records[id]))
  {
    assert s.signals + [] == s.signals;
  }

  predicate Fresh(s: System, e: Effect) {
    e.Born? ==> UnheardOf(s.signals, e.id)
  }

  lemma OrderlyKeeps(s: System, t: System, e: Effect)
    requires Orderly(s) && Follows(s, t, e) && Fresh(s, e)
    ensures Orderly(t)
  {
    forall i | 0 <= i < |t.signals| && t.signals[i].CallEvent? ensures Lasts(t, i) {
      LastsKeeps(s, t, e, i);
    }
  }

  lemma AboutOne(e: Effect, k: int, id: CallId)
    requires 0 <= k < |Signals(e)| && About(Signals(e)[k], id)
    ensures !e.Silent? && e.id == id
    ensures e.Published? ==> k == 0 && Signals(e)[k].state == e.state
    ensures e.Born? ==> Signals(e)[k].state == Calling
  {
  }

  lemma LastsKeeps(s: System, t: System, e: Effect, i: int)
    requires Orderly(s) && Follows(s, t, e) && Fresh(s, e)
    requires 0 <= i < |t.signals| && t.signals[i].CallEvent?
    ensures Lasts(t, i)
  {
    var id := t.signals[i].id;
    EffectOn(s, t, e, id);
    hide Follows, EndsFrom, Signals;
    if i < |s.signals| {
      assert Lasts(s, i) && About(s.signals[i], id);
      EffectEnds(e, id);
      EndsMore(s.signals, Signals(e), id, i);
      if s.signals[i].state == Disconnected {
        forall j | i < j < |t.signals| ensures !About(t.signals[j], id) {
          if j >= |s.signals| && About(t.signals[j], id) { AboutOne(e, j - |s.signals|, id); }
        }
      }
    } else {
      NewLasts(s, t, e, i);
    }
  }

  lemma NewLasts(s: System, t: System, e: Effect, i: int)
    requires Follows(s, t, e) && |s.signals| <= i < |t.signals| && t.signals[i].CallEvent?
    ensures Lasts(t, i)
  {
    var id := t.signals[i].id;
    EffectOn(s, t, e, id);
    hide Follows;
    assert t.signals[i] == Signals(e)[i - |s.signals|] && About(t.signals[i], id);
    AboutOne(e, i - |s.signals|, id);
    if Ending(e, id) { assert EndAt(t.signals, id, i); }
  }

  lemma RecordedKeeps(s: System, t: System, e: Effect, parties: map<CallId, CallRecord>)
    requires Recorded(s, parties) && Follows(s, t, e) && Fresh(s, e)
    ensures Recorded(t, Parties(parties, e))
  {
    var after := Parties(parties, e);
    forall id
      ensures id in after <==> id in t.records || EndsFrom(t.signals, id, 0)
      ensures id in t.records ==> id in after && Identity(t.records[id]) == after[id]
      ensures id in t.lingering ==> id in after && Identity(t.lingering[id]) == after[id]
    {
      EffectOn(s, t, e, id);
      EffectEnds(e, id);
      EndsMore(s.signals, Signals(e), id, 0);
      BornUnrecorded(s, e, parties);
      hide Follows, EndsFrom, Signals;
      assert id in parties <==> id in s.records || EndsFrom(s.signals, id, 0);
    }
  }

  lemma BornUnrecorded(s: System, e: Effect, parties: map<CallId, CallRecord>)
    requires Recorded(s, parties) && Fresh(s, e) && (e.Born? ==> e.id !in s.records)
    ensures e.Born? ==> e.id !in parties
  {
    if e.Born? { EndIsHeard(s.signals, e.id, 0); }
  }

  lemma EndIsHeard(xs: seq<Signal>, id: CallId, from: nat)
    ensures EndsFrom(xs, id, from) ==> !UnheardOf(xs, id)
  {
    if i :| from <= i < |xs| && EndAt(xs, id, i) { assert About(xs[i], id); }
  }

  lemma StepIsFresh(s: System, st: Step)
    requires CallViews.Inv(s) && Enabled(s, st)
    ensures Follows(s, Next(s, st), EffectOf(s, st)) && Fresh(s, EffectOf(s, st))
    ensures CallViews.Inv(Next(s, st))
  {
    hide CallViews.Inv, Next, EffectOf, Follows;
    StepFollows(s, st);
    CallInvariant.NextKeeps(s, st);
    forall i | 0 <= i < |s.signals| && EffectOf(s, st).Born? ensures !About(s.signals[i], EffectOf(s, st).id) {
      if s.signals[i].CallEvent? { BornUnheardOf(s, st, i); }
    }
  }

  // -------------------------------------------------------------------------
  // Sessions
  // -------------------------------------------------------------------------

  /** For the controller the call is not over yet. */
  predicate Live(p: Phone, id: CallId) {
    id in p.system.records || EndsFrom(p.system.signals, id, p.handled)
  }

  function DirectionOf(r: CallRecord): CallDirection {
    if r.inbound then Inbound else Outbound
  }

  /** The session says of the call what its record began with. */
  predicate Fits(s: S.Session, r: CallRecord) {
    && s.accountId == r.accountId && s.remoteUri == r.remoteUri && s.displayName == r.displayName
    && s.direction == DirectionOf(r) && s.hasDirection
    && s.dialedTarget == if r.inbound then "" else r.remoteUri
  }

  ghost predicate SessionOk(p: Phone, id: CallId) {
    var m := S.Run(p.inputs).sessions;
    && (id in m <==> Live(p, id))
    && (id in m ==> id in p.parties && Fits(m[id], p.parties[id]))
  }

  /** The call was one a history row can be written about. */
  predicate Presentable(r: CallRecord) {
    r.accountId != S.INVALID_ACCOUNT && r.remoteUri != ""
  }

  predicate Describes(row: S.HistoryEntry, r: CallRecord) {
    row.accountId == r.accountId && row.remoteUri == r.remoteUri && row.displayName == r.displayName
    && row.direction == DirectionOf(r)
  }

  ghost predicate RowsOk(p: Phone, id: CallId) {
    && T.RowsOf(S.Run(p.inputs).history, id)
       == (if EndHandled(p, id) && id in p.parties && Presentable(p.parties[id]) then 1 else 0)
    && forall k | 0 <= k < |S.Run(p.inputs).history| && S.Run(p.inputs).history[k].0 == id ::
         id in p.parties && Describes(S.Run(p.inputs).history[k].1, p.parties[id])
  }

  ghost predicate Consistent(p: Phone) {
    && CallViews.Inv(p.system) && Orderly(p.system) && Recorded(p.system, p.parties)
    && p.handled <= |p.system.signals|
    && forall id :: SessionOk(p, id) && RowsOk(p, id)
  }

  lemma OneMoreInput(xs: seq<S.Input>, x: S.Input)
    ensures S.Run(xs + [x]) == S.Next(S.Run(xs), x)
  {
    assert (xs + [x])[..|xs|] == xs;
  }

  /** A note about a live call, from its record or blank, keeps what its session
      says. */
  lemma UpsertFits(s: S.Session, r: CallRecord, e: CallEntry, now: int)
    requires Fits(s, r)
    requires !S.HasDetails(e)
             || (e.accountId == r.accountId && e.remoteUri == r.remoteUri && e.remoteDisplayName == r.displayName
                 && e.direction == DirectionOf(r))
    ensures Fits(S.Upserted(s, e, now), r)
  {
  }

  lemma BirthFits(r: CallRecord, e: CallEntry, now: int)
    requires r.inbound && e.accountId == r.accountId && e.remoteUri == r.remoteUri && e.remoteDisplayName == r.displayName
    ensures Fits(S.Upserted(S.NEW_SESSION, e, now).(direction := Inbound, hasDirection := true), r)
  {
  }

  /** A step of the call layer moves no end across the handled part. */
  lemma LiveAfter(s: System, t: System, e: Effect, handled: nat, id: CallId)
    requires Follows(s, t, e) && handled <= |s.signals|
    ensures (id in t.records || EndsFrom(t.signals, id, handled))
            <==> id in s.records || EndsFrom(s.signals, id, handled) || (e.Born? && e.id == id)
    ensures forall i | 0 <= i < handled :: EndAt(t.signals, id, i) <==> EndAt(s.signals, id, i)
  {
    EffectOn(s, t, e, id);
    EffectEnds(e, id);
    EndsMore(s.signals, Signals(e), id, handled);
  }

  // -------------------------------------------------------------------------
  // Turns of the call layer
  // -------------------------------------------------------------------------

  /** The invariant of call `id`, with the inputs summed up. */
  ghost predicate CallOk(p: Phone, b: S.Book, id: CallId) {
    && (id in b.sessions <==> Live(p, id))
    && (id in b.sessions ==> id in p.parties && Fits(b.sessions[id], p.parties[id]))
    && T.RowsOf(b.history, id) == (if EndHandled(p, id) && id in p.parties && Presentable(p.parties[id]) then 1 else 0)
    && RowsDescribe(b.history, p.parties, id)
  }

  predicate RowsDescribe(history: seq<(CallId, S.HistoryEntry)>, parties: map<CallId, CallRecord>, id: CallId) {
    forall k | 0 <= k < |history| && history[k].0 == id :: id in parties && Describes(history[k].1, parties[id])
  }

  lemma OkIsCallOk(p: Phone, id: CallId)
    ensures SessionOk(p, id) && RowsOk(p, id) <==> CallOk(p, S.Run(p.inputs), id)
  {
  }

  /** A step that starts no call, or another one. */
  lemma OtherStep(p: Phone, q: Phone, e: Effect, b: S.Book, c: S.Book, id: CallId)
    requires CallOk(p, b, id) && p.handled <= |p.system.signals| && Follows(p.system, q.system, e)
    requires q.handled == p.handled && q.parties == Parties(p.parties, e)
    requires !(e.Born? && e.id == id)
    requires c.history == b.history && (id in c.sessions <==> id in b.sessions)
    requires id in b.sessions ==> c.sessions[id] == b.sessions[id]
    ensures CallOk(q, c, id)
  {
    LiveAfter(p.system, q.system, e, p.handled, id);
    hide Follows, EndsFrom, EndAt, T.RowsOf, Fits, Presentable, Describes;
  }

  /** The step starts this very call, and its session with it. */
  lemma FirstStep(p: Phone, q: Phone, e: Effect, b: S.Book, c: S.Book)
    requires e.Born? && CallOk(p, b, e.id) && p.handled <= |p.system.signals| && Follows(p.system, q.system, e)
    requires e.id !in p.parties && UnheardOf(p.system.signals, e.id)
    requires q.handled == p.handled && q.parties == Parties(p.parties, e)
    requires c.history == b.history && e.id in c.sessions && Fits(c.sessions[e.id], e.record)
    ensures CallOk(q, c, e.id)
  {
    LiveAfter(p.system, q.system, e, p.handled, e.id);
    hide Follows, EndsFrom, T.RowsOf, Fits, Presentable, Describes;
    forall i | 0 <= i < p.handled ensures !EndAt(p.system.signals, e.id, i) {
      assert !About(p.system.signals[i], e.id);
    }
  }

  /** Nobody has heard of a call that begins. */
  lemma NewCall(p: Phone, e: Effect)
    requires Consistent(p) && e.Born? && Fresh(p.system, e) && e.id !in p.system.records
    ensures e.id !in p.parties && e.id !in S.Run(p.inputs).sessions && !Live(p, e.id)
  {
    BornUnrecorded(p.system, e, p.parties);
    EndIsHeard(p.system.signals, e.id, p.handled);
    assert SessionOk(p, e.id);
  }

  lemma SystemPart(p: Phone, st: Step)
    requires Consistent(p) && Enabled(p.system, st)
    ensures var e, t := EffectOf(p.system, st), Next(p.system, st);
            && Follows(p.system, t, e) && Fresh(p.system, e)
            && CallViews.Inv(t) && Orderly(t) && Recorded(t, Parties(p.parties, e))
            && p.handled <= |p.system.signals| <= |t.signals|
            && (e.Born? ==> e.id !in p.parties && e.id !in S.Run(p.inputs).sessions && e.id in t.records
                            && Identity(t.records[e.id]) == e.record)
  {
    hide CallViews.Inv, Orderly, Recorded, Next, EffectOf, Fresh, SessionOk, RowsOk;
    StepIsFresh(p.system, st);
    var e, t := EffectOf(p.system, st), Next(p.system, st);
    OrderlyKeeps(p.system, t, e);
    RecordedKeeps(p.system, t, e, p.parties);
    if e.Born? {
      EffectOn(p.system, t, e, e.id);
      NewCall(p, e);
    } else {
      EffectOn(p.system, t, e, 0);
    }
  }

  lemma WorkKeeps(p: Phone, st: Step, now: int)
    requires Consistent(p) && Enabled(p.system, st) && !st.Dial?
    ensures Consistent(Worked(p, st, now))
  {
    SystemPart(p, st);
    hide CallViews.Inv, Orderly, Recorded, Next, Follows, Fits, SessionOk, RowsOk, CallOk;
    var e, q := EffectOf(p.system, st), Worked(p, st, now);
    BornAnnounced(p.system, st);
    hide EffectOf;
    var b := S.Run(p.inputs);
    forall id ensures SessionOk(q, id) && RowsOk(q, id) {
      OkIsCallOk(p, id);
      OkIsCallOk(q, id);
      if e.Born? {
        var note := S.IncomingNote(Noted(q.system, e.id), now);
        OneMoreInput(p.inputs, note);
        BirthFits(e.record, Noted(q.system, e.id), now);
        if id == e.id { FirstStep(p, q, e, b, S.Run(q.inputs)); }
        else { OtherStep(p, q, e, b, S.Run(q.inputs), id); }
      } else {
        OtherStep(p, q, e, b, b, id);
      }
    }
  }

  lemma BornAnnounced(s: System, st: Step)
    requires Enabled(s, st)
    ensures EffectOf(s, st).Born? ==> (EffectOf(s, st).announced <==> !st.Dial?)
    ensures EffectOf(s, st).Born? ==> (EffectOf(s, st).record.inbound <==> !st.Dial?)
  {
  }

  lemma DialFits(account: AccountId, target: string, now: int)
    ensures Fits(S.Dialled(S.NEW_SESSION, account, target, now),
                 CallRecord(account, target, "", Calling, 0, false, false, false, false))
  {
  }

  /** What an open guard makes of a request. */
  lemma PlacedBook(b: S.Book, x: S.Input)
    requires x.DialRequest? && !S.HasLiveOutboundTo(b.sessions, x.target)
    ensures S.Next(b, x).history == b.history
    ensures S.Next(b, x).sessions
            == if x.made >= 0 then b.sessions[x.made := S.Dialled(S.At(b.sessions, x.made), x.account, x.target, x.now)]
               else b.sessions
  {
  }

  lemma DialBirth(s: System, account: AccountId, target: string)
    requires CallViews.Inv(s)
    ensures var e := EffectOf(s, Dial(account, target));
            e.Silent? || (e.Born? && e.id >= 1 && e.record == CallRecord(account, target, "", Calling, 0, false, false, false, false))
  {
    CallInvariant.NextIdUnrecorded(s);
    hide CallViews.Inv;
  }

  lemma RequestKeeps(p: Phone, account: AccountId, target: string, now: int)
    requires Consistent(p) && !Refused(p, target)
    ensures Consistent(Requested(p, account, target, now))
  {
    var st := Dial(account, target);
    SystemPart(p, st);
    DialBirth(p.system, account, target);
    hide CallViews.Inv, Orderly, Recorded, Next, Follows, Fits, SessionOk, RowsOk, CallOk, EffectOf;
    var e, q := EffectOf(p.system, st), Requested(p, account, target, now);
    var b, x := S.Run(p.inputs), S.DialRequest(if e.Born? then e.id else INVALID_ID, account, target, now);
    OneMoreInput(p.inputs, x);
    PlacedBook(b, x);
    DialFits(account, target, now);
    hide S.Next, S.Run, S.Dialled;
    forall id ensures SessionOk(q, id) && RowsOk(q, id) {
      OkIsCallOk(p, id);
      OkIsCallOk(q, id);
      if e.Born? && id == e.id { FirstStep(p, q, e, b, S.Run(q.inputs)); }
      else { OtherStep(p, q, e, b, S.Run(q.inputs), id); }
    }
  }

  // -------------------------------------------------------------------------
  // Handling a signal
  // -------------------------------------------------------------------------

  /** The end of a call is not handled before, nor again after, its one signal. */
  lemma LiveHandled(p: Phone, id: CallId)
    requires Orderly(p.system) && p.handled < |p.system.signals|
    ensures var x, q := p.system.signals[p.handled], p.(handled := p.handled + 1);
            && (x != CallEvent(id, Disconnected) ==> (Live(q, id) <==> Live(p, id)) && (EndHandled(q, id) <==> EndHandled(p, id)))
            && (x == CallEvent(id, Disconnected) ==> !Live(q, id) && EndHandled(q, id) && !EndHandled(p, id))
            && (About(x, id) ==> Live(p, id))
  {
    var xs, n := p.system.signals, p.handled;
    var x, q := xs[n], p.(handled := n + 1);
    if About(x, id) { assert Lasts(p.system, n); }
    assert EndAt(xs, id, n) <==> x == CallEvent(id, Disconnected);
    forall i | 0 <= i < n && EndAt(xs, id, i) ensures !About(x, id) { assert Lasts(p.system, i); }
    if i :| n <= i < |xs| && EndAt(xs, id, i) { assert i > n || EndAt(xs, id, n); }
  }

  /** What a note about a live call carries. */
  lemma NotedIsOwn(s: System, parties: map<CallId, CallRecord>, id: CallId)
    requires Recorded(s, parties)
    ensures var e := Noted(s, id);
            && e.id == id
            && (S.HasDetails(e) ==>
                  && id in parties
                  && var r := parties[id];
                     e.accountId == r.accountId && e.remoteUri == r.remoteUri && e.remoteDisplayName == r.displayName
                     && e.direction == DirectionOf(r))
  {
    hide EndsFrom;
  }

  lemma HandleKeeps(p: Phone, now: int)
    requires Consistent(p) && p.handled < |p.system.signals|
    ensures Consistent(Handled(p, now))
  {
    hide CallViews.Inv, Orderly, Recorded, SessionOk, RowsOk, CallOk;
    var q := Handled(p, now);
    var b := S.Run(p.inputs);
    forall id ensures SessionOk(q, id) && RowsOk(q, id) {
      OkIsCallOk(p, id);
      OkIsCallOk(q, id);
      LiveHandled(p, id);
      if p.system.signals[p.handled].IncomingCallSignal? {
        SameCallOk(p, q, b, b, id);
      } else {
        var CallEvent(about, state) := p.system.signals[p.handled];
        var note := S.StateNote(Noted(p.system, about), state, now);
        OneMoreInput(p.inputs, note);
        NotedIsOwn(p.system, p.parties, about);
        if id != about {
          OtherNote(b, note, id);
          SameCallOk(p, q, b, S.Next(b, note), id);
        } else {
          OwnNote(p, q, b, note);
        }
      }
    }
  }

  lemma SameCallOk(p: Phone, q: Phone, b: S.Book, c: S.Book, id: CallId)
    requires CallOk(p, b, id) && q.parties == p.parties
    requires (Live(q, id) <==> Live(p, id)) && (EndHandled(q, id) <==> EndHandled(p, id))
    requires (id in c.sessions <==> id in b.sessions) && (id in b.sessions ==> c.sessions[id] == b.sessions[id])
    requires T.RowsOf(c.history, id) == T.RowsOf(b.history, id)
    requires RowsDescribe(b.history, p.parties, id) ==> RowsDescribe(c.history, p.parties, id)
    ensures CallOk(q, c, id)
  {
    hide Live, EndHandled, T.RowsOf, Fits, RowsDescribe, Presentable;
  }

  lemma OneMoreRow(history: seq<(CallId, S.HistoryEntry)>, row: (CallId, S.HistoryEntry), id: CallId)
    ensures T.RowsOf(history + [row], id) == T.RowsOf(history, id) + if row.0 == id then 1 else 0
  {
    assert (history + [row])[..|history|] == history;
  }

  lemma OtherNote(b: S.Book, x: S.Input, id: CallId)
    requires x.StateNote? && x.entry.id != id
    ensures var c := S.Next(b, x);
            && (id in c.sessions <==> id in b.sessions) && (id in b.sessions ==> c.sessions[id] == b.sessions[id])
            && T.RowsOf(c.history, id) == T.RowsOf(b.history, id)
            && forall parties :: RowsDescribe(b.history, parties, id) ==> RowsDescribe(c.history, parties, id)
  {
    hide S.Upserted, T.RowsOf, Describes;
    var row := S.RowFor(b.sessions, x.entry, x.state, x.now);
    if row.Some? { OneMoreRow(b.history, (x.entry.id, row.value), id); }
    hide S.RowFor;
  }

  /** The call the note is about: its session goes on, or ends with a row. */
  lemma OwnNote(p: Phone, q: Phone, b: S.Book, x: S.Input)
    requires x.StateNote? && CallOk(p, b, x.entry.id) && Live(p, x.entry.id) && q.parties == p.parties
    requires x.state != Disconnected ==>
               (Live(q, x.entry.id) <==> Live(p, x.entry.id)) && (EndHandled(q, x.entry.id) <==> EndHandled(p, x.entry.id))
    requires x.state == Disconnected ==>
               !Live(q, x.entry.id) && EndHandled(q, x.entry.id) && !EndHandled(p, x.entry.id)
    requires S.HasDetails(x.entry) ==>
               x.entry.id in p.parties &&
               var e, r := x.entry, p.parties[x.entry.id];
               e.accountId == r.accountId && e.remoteUri == r.remoteUri && e.remoteDisplayName == r.displayName
               && e.direction == DirectionOf(r)
    ensures CallOk(q, S.Next(b, x), x.entry.id)
  {
    hide Live, EndHandled, T.RowsOf, S.Upserted, S.HasDetails;
    var id := x.entry.id;
    var r := p.parties[id];
    UpsertFits(b.sessions[id], r, x.entry, x.now);
    var s := S.Upserted(b.sessions[id], x.entry, x.now);
    var row := S.RowFor(b.sessions, x.entry, x.state, x.now);
    if x.state == Disconnected {
      assert row.Some? <==> Presentable(r);
      assert row.Some? ==> Describes(row.value, r);
      if row.Some? { OneMoreRow(b.history, (id, row.value), id); }
    }
  }

  lemma TakeKeeps(p: Phone, t: Turn)
    requires Consistent(p) && CanTake(p, t)
    ensures Consistent(Take(p, t))
  {
    hide Consistent, Refused, Requested, Worked, Handled;
    match t
    case Request(account, target, now) => if !Refused(p, target) { RequestKeeps(p, account, target, now); }
    case Work(st, now) => WorkKeeps(p, st, now);
    case Handle(now) => HandleKeeps(p, now);
  }

  lemma {:induction false} CourseKeeps(p: Phone, turns: seq<Turn>)
    requires Consistent(p) && IsCourse(p, turns)
    ensures Consistent(Course(p, turns))
    decreases |turns|
  {
    hide Consistent, Take, CanTake;
    if turns != [] {
      TakeKeeps(p, turns[0]);
      CourseKeeps(Take(p, turns[0]), turns[1..]);
    }
  }

  lemma OffIsConsistent()
    ensures Consistent(SWITCHED_OFF)
  {
    CallInvariant.InitialInv();
    hide CallViews.Inv;
  }

  // -------------------------------------------------------------------------
  // What the controller was told
  // -------------------------------------------------------------------------

  /** Exactly what was published up to the last handled signal. */
  ghost predicate Told(p: Phone, id: CallId) {
    p.handled <= |p.system.signals|
    && T.StatesNoted(p.inputs, id) == CallViews.Observed(p.system.signals[..p.handled], id)
  }

  lemma NotedAppend(xs: seq<S.Input>, x: S.Input, id: CallId)
    ensures T.StatesNoted(xs + [x], id)
            == T.StatesNoted(xs, id) + if x.StateNote? && x.entry.id == id then [CallViews.To(x.state)] else []
  {
    assert (xs + [x])[..|xs|] == xs;
  }

  lemma SignalsGrow(s: System, st: Step)
    requires CallViews.Inv(s) && Enabled(s, st)
    ensures s.signals <= Next(s, st).signals
  {
    hide CallViews.Inv, Next, EffectOf, Follows;
    StepFollows(s, st);
    EffectOn(s, Next(s, st), EffectOf(s, st), 0);
  }

  lemma ToldKeeps(p: Phone, t: Turn, id: CallId)
    requires CallViews.Inv(p.system) && Told(p, id) && CanTake(p, t)
    ensures Told(Take(p, t), id)
  {
    hide CallViews.Inv, Next, EffectOf, T.StatesNoted, Noted, CallViews.Observed;
    var q := Take(p, t);
    match t
    case Request(account, target, now) =>
      SignalsGrow(p.system, Dial(account, target));
      assert q.system.signals[..p.handled] == p.system.signals[..p.handled];
      var e := EffectOf(p.system, Dial(account, target));
      NotedAppend(p.inputs, S.DialRequest(if e.Born? then e.id else INVALID_ID, account, target, now), id);
      assert T.StatesNoted(p.inputs, id) + [] == T.StatesNoted(p.inputs, id);
    case Work(st, now) =>
      SignalsGrow(p.system, st);
      assert q.system.signals[..p.handled] == p.system.signals[..p.handled];
      if |q.inputs| > |p.inputs| { NotedAppend(p.inputs, q.inputs[|p.inputs|], id); }
      assert T.StatesNoted(p.inputs, id) + [] == T.StatesNoted(p.inputs, id);
    case Handle(now) =>
      var x := p.system.signals[p.handled];
      assert q.system.signals[..q.handled] == p.system.signals[..p.handled] + [x];
      CallViews.ObservedAppend(p.system.signals[..p.handled], x, id);
      if x.CallEvent? {
        assert Noted(p.system, x.id).id == x.id by { NotedId(p.system, x.id); }
        NotedAppend(p.inputs, S.StateNote(Noted(p.system, x.id), x.state, now), id);
      }
  }

  lemma NotedId(s: System, id: CallId)
    ensures Noted(s, id).id == id
  {
  }

  lemma {:induction false} ToldThroughout(p: Phone, turns: seq<Turn>, id: CallId)
    requires Consistent(p) && Told(p, id) && IsCourse(p, turns)
    ensures Told(Course(p, turns), id)
    decreases |turns|
  {
    hide Told, Take, CanTake, SessionOk, RowsOk, CallViews.Inv;
    if turns != [] {
      ToldKeeps(p, turns[0], id);
      TakeKeeps(p, turns[0]);
      ToldThroughout(Take(p, turns[0]), turns[1..], id);
    }
  }

  lemma {:induction false} ObservedPrefix(xs: seq<Signal>, n: nat, id: CallId)
    requires n <= |xs|
    ensures CallViews.Observed(xs[..n], id) <= CallViews.Observed(xs, id)
    decreases |xs|
  {
    if n < |xs| {
      ObservedPrefix(xs[..|xs| - 1], n, id);
      assert xs[..|xs| - 1][..n] == xs[..n];
    } else {
      assert xs[..n] == xs;
    }
  }

  // -------------------------------------------------------------------------
  // Main results
  // -------------------------------------------------------------------------

  /** However dials, calls, commands and the two queues interleave: a call has a
      session exactly from its beginning until its end is handled, and the session
      has the call's own account, address, name and direction. */
  lemma SessionsAreTheLiveCalls(turns: seq<Turn>, id: CallId)
    requires IsCourse(SWITCHED_OFF, turns)
    ensures var p := Course(SWITCHED_OFF, turns);
            var m := S.Run(p.inputs).sessions;
            && (id in m <==> id in p.system.records || EndsFrom(p.system.signals, id, p.handled))
            && (id in m ==> id in p.parties && Fits(m[id], p.parties[id]))
            && (id in p.system.records ==> id in p.parties && Identity(p.system.records[id]) == p.parties[id])
  {
    OffIsConsistent();
    CourseKeeps(SWITCHED_OFF, turns);
    assert SessionOk(Course(SWITCHED_OFF, turns), id);
  }

  /** Exactly one row of history for every call whose end has been handled and
      whose account and address are known, none for any other, and the row says
      who the call was with. */
  lemma OneRowPerCall(turns: seq<Turn>, id: CallId)
    requires IsCourse(SWITCHED_OFF, turns)
    ensures var p := Course(SWITCHED_OFF, turns);
            var history := S.Run(p.inputs).history;
            && (EndHandled(p, id) ==> id in p.parties)
            && T.RowsOf(history, id) == (if EndHandled(p, id) && Presentable(p.parties[id]) then 1 else 0)
            && forall k | 0 <= k < |history| && history[k].0 == id ::
                 id in p.parties && Describes(history[k].1, p.parties[id])
  {
    OffIsConsistent();
    CourseKeeps(SWITCHED_OFF, turns);
    var p := Course(SWITCHED_OFF, turns);
    assert RowsOk(p, id);
    if i :| 0 <= i < p.handled && EndAt(p.system.signals, id, i) {
      assert EndsFrom(p.system.signals, id, 0);
    }
  }

  /** What the controller has been told about a call is a beginning of what was
      published about it. */
  lemma ToldInOrder(turns: seq<Turn>, id: CallId)
    requires IsCourse(SWITCHED_OFF, turns)
    ensures var p := Course(SWITCHED_OFF, turns);
            T.StatesNoted(p.inputs, id) <= CallViews.Observed(p.system.signals, id)
  {
    OffIsConsistent();
    ToldThroughout(SWITCHED_OFF, turns, id);
    var p := Course(SWITCHED_OFF, turns);
    ObservedPrefix(p.system.signals, p.handled, id);
  }

  /** The guard against dialling twice refuses a target exactly if a call to it
      that we dialled is live. */
  lemma GuardSeesCalls(turns: seq<Turn>, target: string)
    requires IsCourse(SWITCHED_OFF, turns)
    ensures var p := Course(SWITCHED_OFF, turns);
            Refused(p, target)
            <==> target != "" && exists id :: Live(p, id) && DialledCall(p, id, target)
  {
    OffIsConsistent();
    CourseKeeps(SWITCHED_OFF, turns);
    var p := Course(SWITCHED_OFF, turns);
    var m := S.Run(p.inputs).sessions;
    forall id | target != "" ensures S.DialledTo(m, id, target) <==> Live(p, id) && DialledCall(p, id, target) {
      assert SessionOk(p, id);
    }
    if id :| target != "" && S.DialledTo(m, id, target) { assert Live(p, id) && DialledCall(p, id, target); }
    if id :| target != "" && Live(p, id) && DialledCall(p, id, target) { assert S.DialledTo(m, id, target); }
  }

  predicate DialledCall(p: Phone, id: CallId, target: string) {
    id in p.parties && !p.parties[id].inbound && p.parties[id].remoteUri == target
  }

  /** Two calls that we dialled are never up to the same target at once, however
      fast the requests come. */
  lemma OneCallPerTarget(turns: seq<Turn>, a: CallId, b: CallId)
    requires IsCourse(SWITCHED_OFF, turns)
    requires var m := Course(SWITCHED_OFF, turns).system.records;
             && a in m && b in m && !m[a].inbound && !m[b].inbound
             && m[a].remoteUri == m[b].remoteUri != ""
    ensures a == b
  {
    SessionsAreTheLiveCalls(turns, a);
    SessionsAreTheLiveCalls(turns, b);
    var p := Course(SWITCHED_OFF, turns);
    var target := p.system.records[a].remoteUri;
    assert Identity(p.system.records[a]).remoteUri == Identity(p.system.records[b]).remoteUri == target;
    T.NoDuplicateDials(p.inputs, a, b, target);
  }
}
