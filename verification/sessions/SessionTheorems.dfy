/** Sessions and history against a reference that looks back at the inputs
    themselves. */
module SessionTheorems {
  import opened SipTypes
  import opened SessionSpec
  import CallSpec
  import CallViews
  import CallTheorems

  // -------------------------------------------------------------------------
  // The reference: what the inputs about one call say
  // -------------------------------------------------------------------------

  function Times(x: Input): int { x.now }

  predicate Ends(x: Input) {
    x.StateNote? && x.state == Disconnected
  }

  /** The input concerns the call `id`, given the sessions it meets. */
  ghost predicate Concerns(m: Sessions, x: Input, id: CallId) {
    match x
    case DialRequest(made, _, _, _) => made == id && Places(m, x)
    case IncomingNote(e, _) => e.id == id
    case StateNote(e, _, _) => e.id == id
  }

  /** The inputs about the call since it last ended, oldest first. */
  ghost function Open(xs: seq<Input>, id: CallId): seq<Input> {
    if xs == [] then []
    else
      var x, before := xs[|xs| - 1], xs[..|xs| - 1];
      if !Concerns(Run(before).sessions, x, id) then Open(before, id)
      else if Ends(x) then []
      else Open(before, id) + [x]
  }

  predicate Confirms(x: Input) {
    x.StateNote? && x.state == Confirmed
  }

  /** The time of the first confirmation, 0 if there is none. */
  function ConfirmedAt(p: seq<Input>): int {
    if p == [] then 0
    else if Confirms(p[0]) then p[0].now
    else ConfirmedAt(p[1..])
  }

  predicate Confirmed?(p: seq<Input>) {
    exists i | 0 <= i < |p| :: Confirms(p[i])
  }

  function FirstSeen(p: seq<Input>): int {
    if p == [] then 0 else p[0].now
  }

  /** The target of the last dial. */
  function Target(p: seq<Input>): string {
    if p == [] then ""
    else
      var x := p[|p| - 1];
      if x.DialRequest? then x.target else Target(p[..|p| - 1])
  }

  /** The last account named. */
  function Account(p: seq<Input>): AccountId {
    if p == [] then INVALID_ACCOUNT
    else
      var x := p[|p| - 1];
      if x.DialRequest? then x.account
      else if x.entry.accountId != INVALID_ACCOUNT then x.entry.accountId
      else Account(p[..|p| - 1])
  }

  /** The last remote address named. */
  function Remote(p: seq<Input>): string {
    if p == [] then ""
    else
      var x := p[|p| - 1];
      if x.DialRequest? then x.target
      else if x.entry.remoteUri != "" then x.entry.remoteUri
      else Remote(p[..|p| - 1])
  }

  function Name(p: seq<Input>): string {
    if p == [] then ""
    else
      var x := p[|p| - 1];
      if !x.DialRequest? && x.entry.remoteDisplayName != "" then x.entry.remoteDisplayName
      else Name(p[..|p| - 1])
  }

  /** Dials are outbound, announcements inbound; a state note decides only if it
      carries details or comes first. */
  function Direction(p: seq<Input>): CallDirection {
    if p == [] then Outbound
    else
      var x, before := p[|p| - 1], p[..|p| - 1];
      match x
      case DialRequest(_, _, _, _) => Outbound
      case IncomingNote(_, _) => Inbound
      case StateNote(e, _, _) => if HasDetails(e) || before == [] then e.direction else Direction(before)
  }

  function Reference(p: seq<Input>): Session {
    Session(Account(p), Remote(p), Target(p), Name(p), Direction(p), FirstSeen(p), ConfirmedAt(p), Confirmed?(p), p != [])
  }

  /** The history row of a call whose inputs, from first to last, are `p`. */
  function ReferenceRow(p: seq<Input>): Option<HistoryEntry>
    requires p != []
  {
    var end := p[|p| - 1].now;
    if Account(p) == INVALID_ACCOUNT || Remote(p) == "" then None
    else if Confirmed?(p) then
      Some(HistoryEntry(Account(p), Direction(p), Remote(p), Name(p), ConfirmedAt(p),
                        if end > ConfirmedAt(p) then end - ConfirmedAt(p) else 0))
    else Some(HistoryEntry(Account(p), Direction(p), Remote(p), Name(p), FirstSeen(p), 0))
  }

  ghost function ReferenceHistory(xs: seq<Input>): seq<(CallId, HistoryEntry)> {
    if xs == [] then []
    else
      var x, before := xs[|xs| - 1], xs[..|xs| - 1];
      var earlier := ReferenceHistory(before);
      if !Ends(x) then earlier
      else
        var row := ReferenceRow(Open(before, x.entry.id) + [x]);
        if row.Some? then earlier + [(x.entry.id, row.value)] else earlier
  }

  ghost predicate Positive(xs: seq<Input>) {
    forall x | x in xs :: Times(x) > 0
  }

  // -------------------------------------------------------------------------
  // One more input
  // -------------------------------------------------------------------------

  lemma {:induction false} ConfirmedAppend(p: seq<Input>, x: Input)
    ensures ConfirmedAt(p + [x]) == if Confirmed?(p) then ConfirmedAt(p) else if Confirms(x) then x.now else 0
    ensures Confirmed?(p + [x]) <==> Confirmed?(p) || Confirms(x)
    ensures Confirmed?(p) && Positive(p) ==> ConfirmedAt(p) > 0
    ensures !Confirmed?(p) ==> ConfirmedAt(p) == 0
  {
    var q := p + [x];
    if p == [] {
      assert q[1..] == [];
      assert q[0] == x;
    } else {
      assert q[1..] == p[1..] + [x];
      ConfirmedAppend(p[1..], x);
      assert p[0] in p;
      assert Confirmed?(p) <==> Confirms(p[0]) || Confirmed?(p[1..]) by {
        if Confirmed?(p) && !Confirms(p[0]) {
          var i :| 0 <= i < |p| && Confirms(p[i]);
          assert Confirms(p[1..][i - 1]);
        }
        if Confirmed?(p[1..]) {
          var i :| 0 <= i < |p| - 1 && Confirms(p[1..][i]);
          assert Confirms(p[i + 1]);
        }
      }
      if Confirmed?(p) {
        var i :| 0 <= i < |p| && Confirms(p[i]);
        assert Confirms(q[i]);
      }
      if Confirms(x) { assert Confirms(q[|p|]); }
    }
  }

  lemma FirstSeenAppend(p: seq<Input>, x: Input)
    requires Positive(p + [x])
    ensures Seen(Reference(p), x.now).firstSeenAt == FirstSeen(p + [x])
    ensures FirstSeen(p + [x]) > 0
  {
    if p != [] {
      assert p[0] == (p + [x])[0];
      assert p[0] in p + [x];
    } else {
      assert (p + [x])[0] in p + [x];
    }
  }

  lemma DialAppend(p: seq<Input>, x: Input)
    requires Positive(p + [x]) && x.DialRequest?
    ensures Dialled(Reference(p), x.account, x.target, x.now) == Reference(p + [x])
  {
    assert (p + [x])[..|p|] == p;
    ConfirmedAppend(p, x);
    FirstSeenAppend(p, x);
  }

  lemma NoteAppend(p: seq<Input>, x: Input)
    requires Positive(p + [x]) && !x.DialRequest?
    ensures var s := Upserted(Reference(p), x.entry, x.now);
            var t := Reference(p + [x]);
            && s.accountId == t.accountId && s.remoteUri == t.remoteUri && s.dialedTarget == t.dialedTarget
            && s.displayName == t.displayName && s.firstSeenAt == t.firstSeenAt
            && (x.StateNote? ==> s.direction == t.direction)
            && (x.IncomingNote? ==> t.direction == Inbound)
            && t.hasDirection
  {
    assert (p + [x])[..|p|] == p;
    FirstSeenAppend(p, x);
  }

  /** The session after one more input about the call that does not end it. */
  function After(s: Session, x: Input): Session {
    match x
    case DialRequest(_, account, target, now) => Dialled(s, account, target, now)
    case IncomingNote(e, now) => Upserted(s, e, now).(direction := Inbound, hasDirection := true)
    case StateNote(e, state, now) =>
      if state == Confirmed then Connected(Upserted(s, e, now), now) else Upserted(s, e, now)
  }

  lemma ReferenceStep(p: seq<Input>, x: Input)
    requires Positive(p + [x])
    ensures !Ends(x) ==> After(Reference(p), x) == Reference(p + [x])
  {
    ConfirmedAppend(p, x);
    if x.DialRequest? { DialAppend(p, x); } else { NoteAppend(p, x); }
  }

  lemma ReferenceRowStep(m: Sessions, p: seq<Input>, x: Input)
    requires Positive(p + [x]) && Ends(x) && At(m, x.entry.id) == Reference(p)
    ensures RowFor(m, x.entry, x.state, x.now) == ReferenceRow(p + [x])
  {
    ConfirmedAppend(p, x);
    NoteAppend(p, x);
    FirstSeenAppend(p, x);
    assert Positive(p) by { forall y | y in p ensures Times(y) > 0 { assert y in p + [x]; } }
  }

  /** How one input changes the session of one call. */
  lemma SessionStep(b: Book, x: Input, id: CallId)
    ensures var m, n := b.sessions, Next(b, x).sessions;
            if !Concerns(m, x, id) then (id in n <==> id in m) && At(n, id) == At(m, id)
            else if Ends(x) then id !in n
            else id in n && n[id] == After(At(m, id), x)
  {
  }

  // -------------------------------------------------------------------------
  // Main results
  // -------------------------------------------------------------------------

  lemma {:induction false} OpenPositive(xs: seq<Input>, id: CallId)
    requires Positive(xs)
    ensures Positive(Open(xs, id))
  {
    if xs != [] {
      assert xs[|xs| - 1] in xs;
      OpenPositive(xs[..|xs| - 1], id);
    }
  }

  /** After any inputs a call has a session exactly if something was noted about
      it since it last ended, and the session is what those notes say: dialled
      target, first time seen, first time confirmed, latest known details. */
  lemma {:induction false} SessionsAreExact(xs: seq<Input>, id: CallId)
    requires Positive(xs)
    ensures var m, p := Run(xs).sessions, Open(xs, id);
            (id in m <==> p != []) && At(m, id) == Reference(p)
  {
    if xs != [] {
      var x, before := xs[|xs| - 1], xs[..|xs| - 1];
      assert x in xs;
      SessionsAreExact(before, id);
      SessionStep(Run(before), x, id);
      OpenPositive(before, id);
      if Concerns(Run(before).sessions, x, id) { ReferenceStep(Open(before, id), x); }
    }
  }

  /** The history is exactly one row for every ended call whose account and
      address were known: from its first confirmation, or else from when it was
      first seen, lasting until its end. */
  lemma {:induction false} HistoryIsExact(xs: seq<Input>)
    requires Positive(xs)
    ensures Run(xs).history == ReferenceHistory(xs)
  {
    if xs != [] {
      var x, before := xs[|xs| - 1], xs[..|xs| - 1];
      assert x in xs;
      HistoryIsExact(before);
      if Ends(x) {
        SessionsAreExact(before, x.entry.id);
        OpenPositive(before, x.entry.id);
        ReferenceRowStep(Run(before).sessions, Open(before, x.entry.id), x);
      }
    }
  }

  /** The duplicate guard sees a live call to a target exactly if some call that
      has not ended was last dialled to it. */
  lemma GuardIsExact(xs: seq<Input>, target: string)
    requires Positive(xs)
    ensures HasLiveOutboundTo(Run(xs).sessions, target)
            <==> target != "" && exists id :: Target(Open(xs, id)) == target
  {
    var m := Run(xs).sessions;
    if id :| DialledTo(m, id, target) { SessionsAreExact(xs, id); }
    if id :| Target(Open(xs, id)) == target {
      SessionsAreExact(xs, id);
      assert target != "" ==> DialledTo(m, id, target);
    }
  }

  /** Two live sessions never have the same target, however often it is dialled. */
  lemma {:induction false} NoDuplicateDials(xs: seq<Input>, a: CallId, b: CallId, target: string)
    requires target != "" && DialledTo(Run(xs).sessions, a, target) && DialledTo(Run(xs).sessions, b, target)
    ensures a == b
  {
    if xs != [] {
      var x, before := xs[|xs| - 1], xs[..|xs| - 1];
      var m := Run(before).sessions;
      forall id | DialledTo(Run(xs).sessions, id, target)
        ensures DialledTo(m, id, target) || (Places(m, x) && x.made == id && x.target == target)
      {
        SessionStep(Run(before), x, id);
      }
      if DialledTo(m, a, target) && DialledTo(m, b, target) { NoDuplicateDials(before, a, b, target); }
    }
  }

  // -------------------------------------------------------------------------
  // Together with the call layer
  // -------------------------------------------------------------------------

  /** The states noted about a call, as the call layer names them. */
  function StatesNoted(xs: seq<Input>, id: CallId): seq<CallViews.Token> {
    if xs == [] then []
    else
      var x := xs[|xs| - 1];
      StatesNoted(xs[..|xs| - 1], id) + if x.StateNote? && x.entry.id == id then [CallViews.To(x.state)] else []
  }

  function RowsOf(history: seq<(CallId, HistoryEntry)>, id: CallId): nat {
    if history == [] then 0
    else RowsOf(history[..|history| - 1], id) + if history[|history| - 1].0 == id then 1 else 0
  }

  function Endings(h: seq<CallViews.Token>): nat {
    if h == [] then 0
    else Endings(h[..|h| - 1]) + if h[|h| - 1] == CallViews.To(Disconnected) then 1 else 0
  }

  lemma EndingsAppend(h: seq<CallViews.Token>, k: CallViews.Token)
    ensures Endings(h + [k]) == Endings(h) + if k == CallViews.To(Disconnected) then 1 else 0
  {
    assert (h + [k])[..|h|] == h;
  }

  lemma {:induction false} RowsPerEnding(xs: seq<Input>, id: CallId)
    ensures RowsOf(Run(xs).history, id) <= Endings(StatesNoted(xs, id))
  {
    if xs != [] {
      var x, before := xs[|xs| - 1], xs[..|xs| - 1];
      RowsPerEnding(before, id);
      var h, g := Run(xs).history, Run(before).history;
      if h != g { assert h[..|h| - 1] == g; }
      if x.StateNote? && x.entry.id == id { EndingsAppend(StatesNoted(before, id), CallViews.To(x.state)); }
      else { assert StatesNoted(xs, id) == StatesNoted(before, id); }
    }
  }

  lemma {:induction false} EndingsOfPrefix(g: seq<CallViews.Token>, h: seq<CallViews.Token>)
    requires g <= h
    ensures Endings(g) <= Endings(h)
  {
    if g != h {
      assert g <= h[..|h| - 1];
      EndingsOfPrefix(g, h[..|h| - 1]);
    }
  }

  /** As long as the controller is told no more than the call layer has
      published, in that order, a call yields at most one row. */
  lemma OneRowIfLegal(s: CallSpec.System, xs: seq<Input>, id: CallId)
    requires CallViews.Inv(s) && StatesNoted(xs, id) <= CallViews.Observed(s.signals, id)
    ensures RowsOf(Run(xs).history, id) <= 1
  {
    var h := CallViews.Observed(s.signals, id);
    assert CallViews.ViewOk(s, id);
    assert CallViews.LegalHistory(h) by {
      var v := CallViews.View(s, id);
      CallTheorems.LegalObservation(v);
    }
    RowsPerEnding(xs, id);
    EndingsOfPrefix(StatesNoted(xs, id), h);
    OneEnding(h);
  }

  lemma OneEnding(h: seq<CallViews.Token>)
    requires CallViews.LegalHistory(h)
    ensures Endings(h) <= 1
  {
    if h != [] {
      var g := h[..|h| - 1];
      assert g == [] || g == [CallViews.To(Calling)] || g == [CallViews.To(Calling), CallViews.To(Confirmed)];
      assert Endings([]) == 0;
      assert [CallViews.To(Calling)][..0] == [];
      assert [CallViews.To(Calling), CallViews.To(Confirmed)][..1] == [CallViews.To(Calling)];
    }
  }
}
