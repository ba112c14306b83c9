/** Muting a call on the main thread while media callbacks of the same call run
    on a worker thread under the PJSUA lock. */
module MuteRace {
  /** A media callback. It holds the PJSUA lock from beginning to end, so the
      lock is free exactly while no callback is under way. */
  datatype Callback =
    | NoCallback
    | Started               // the renegotiation has happened, the flag is not read yet
    | FlagRead(muted: bool)
    | Wired

  /** setMuted on the main thread. `seen` is history: whether a callback has
      read the flag since it was recorded. */
  datatype Muting =
    | Nothing
    | FoundActive(want: bool)
    | FoundInactive(want: bool)
    | Recorded(want: bool, previous: bool, seen: bool)

  /** `link` is the capture-to-call connection of the conference bridge. */
  datatype Call = Call(muted: bool, link: bool, active: bool, callback: Callback, main: Muting)

  const FRESH_CALL := Call(false, false, false, NoCallback, Nothing)

  datatype Step =
    // worker thread
    | Renegotiate(active: bool, carried: bool)  // takes the lock; media comes or goes, `carried` is what is left of the link
    | ReadFlag
    | Wire
    | Finish                                    // gives the lock back
    // main thread
    | Inspect(want: bool)
    | Record
    | Apply                                     // one transmit call under the lock
    | RollBack                                  // the transmit call threw
    | Defer                                     // no active audio: only the flag is stored

  predicate Enabled(c: Call, st: Step) {
    match st
    case Renegotiate(_, _) => c.callback.NoCallback?
    case ReadFlag => c.callback.Started?
    case Wire => c.callback.FlagRead?
    case Finish => c.callback.Wired?
    case Inspect(_) => c.main.Nothing?
    case Record => c.main.FoundActive?
    case Apply => c.main.Recorded? && c.callback.NoCallback?
    case RollBack => c.main.Recorded?
    case Defer => c.main.FoundInactive?
  }

  function Next(c: Call, st: Step): Call
    requires Enabled(c, st)
  {
    match st
    case Renegotiate(active, carried) => c.(active := active, link := carried, callback := Started)
    case ReadFlag =>
      c.(callback := FlagRead(c.muted),
         main := if c.main.Recorded? then c.main.(seen := true) else c.main)
    case Wire => c.(link := if c.active then !c.callback.muted else c.link, callback := Wired)
    case Finish => c.(callback := NoCallback)
    case Inspect(want) => c.(main := if c.active then FoundActive(want) else FoundInactive(want))
    case Record => c.(muted := c.main.want, main := Recorded(c.main.want, c.muted, false))
    case Apply => c.(link := !c.main.want, main := Nothing)
    case RollBack => c.(muted := c.main.previous, main := Nothing)
    case Defer => c.(muted := c.main.want, main := Nothing)
  }

  predicate IsRun(c: Call, steps: seq<Step>)
    decreases |steps|
  {
    steps == [] || (Enabled(c, steps[0]) && IsRun(Next(c, steps[0]), steps[1..]))
  }

  function Run(c: Call, steps: seq<Step>): Call
    requires IsRun(c, steps)
    decreases |steps|
  {
    if steps == [] then c else Run(Next(c, steps[0]), steps[1..])
  }

  /** Neither a callback nor a setMuted is under way. */
  predicate Quiet(c: Call) {
    c.callback.NoCallback? && c.main.Nothing?
  }

  predicate Agrees(c: Call) {
    c.link == !c.muted
  }

  /** A setMuted on active audio that does not throw, or a callback. */
  predicate Orderly(st: Step) {
    !st.RollBack? && !st.Defer?
  }

  // -------------------------------------------------------------------------
  // The invariant
  // -------------------------------------------------------------------------

  /** The mute state the callbacks have seen last: while a record is out that no
      callback has read, the previous one. */
  function LastSeen(c: Call): bool {
    if c.main.Recorded? && !c.main.seen then c.main.previous else c.muted
  }

  /** An active call is wired as the callbacks last saw it, or is about to be. */
  predicate Wiring(c: Call) {
    match c.callback
    case NoCallback => c.active ==> c.link == !LastSeen(c)
    case Started => true
    case FlagRead(m) => c.active ==> m == LastSeen(c)
    case Wired => c.active ==> c.link == !LastSeen(c)
  }

  predicate Inv(c: Call) {
    Wiring(c) && (c.main.Recorded? ==> c.muted == c.main.want)
  }

  lemma Keeps(c: Call, st: Step)
    requires Inv(c) && Enabled(c, st) && Orderly(st)
    ensures Inv(Next(c, st))
  {
  }

  lemma {:induction false} RunKeeps(c: Call, steps: seq<Step>)
    requires Inv(c) && IsRun(c, steps) && forall st | st in steps :: Orderly(st)
    ensures Inv(Run(c, steps))
    decreases |steps|
  {
    if steps != [] {
      assert steps[0] in steps;
      Keeps(c, steps[0]);
      RunKeeps(Next(c, steps[0]), steps[1..]);
    }
  }

  /** Whatever the interleaving: when neither side is under way and media is
      active, the capture link is up exactly when the call is not muted. */
  lemma QuietAgreement(steps: seq<Step>)
    requires IsRun(FRESH_CALL, steps) && (forall st | st in steps :: Orderly(st))
    ensures var c := Run(FRESH_CALL, steps); Quiet(c) && c.active ==> Agrees(c)
  {
    RunKeeps(FRESH_CALL, steps);
  }

  // -------------------------------------------------------------------------
  // The two branches that are not orderly
  // -------------------------------------------------------------------------

  /** What is left of a callback that is under way. */
  function Remaining(c: Call): seq<Step> {
    match c.callback
    case NoCallback => []
    case Started => [ReadFlag, Wire, Finish]
    case FlagRead(_) => [Wire, Finish]
    case Wired => [Finish]
  }

  /** The call when the callback under way is through. */
  function Settled(c: Call): Call {
    match c.callback
    case NoCallback => c
    case Started => Next(Next(Next(c, ReadFlag), Wire), Finish)
    case FlagRead(_) => Next(Next(c, Wire), Finish)
    case Wired => Next(c, Finish)
  }

  /** Once setMuted is over, the invariant is exactly what makes the call agree
      when the callback under way is through. */
  lemma InvIsNecessary(c: Call)
    requires c.main.Nothing?
    ensures IsRun(c, Remaining(c)) && Run(c, Remaining(c)) == Settled(c)
    ensures var d := Settled(c); Quiet(d) && d.muted == c.muted && (Inv(c) <==> (d.active ==> Agrees(d)))
  {
    match c.callback
    case NoCallback =>
    case Started =>
      var d := Next(c, ReadFlag);
      RunTwo(d, Wire, Finish);
      assert [ReadFlag, Wire, Finish][1..] == [Wire, Finish];
    case FlagRead(_) => RunTwo(c, Wire, Finish);
    case Wired => RunOne(c, Finish);
  }

  lemma RunOne(c: Call, a: Step)
    requires Enabled(c, a)
    ensures IsRun(c, [a]) && Run(c, [a]) == Next(c, a)
  {
    assert [a][1..] == [];
    assert IsRun(Next(c, a), []);
  }

  lemma RunTwo(c: Call, a: Step, b: Step)
    requires Enabled(c, a) && Enabled(Next(c, a), b)
    ensures IsRun(c, [a, b]) && Run(c, [a, b]) == Next(Next(c, a), b)
  {
    assert [a, b][1..] == [b];
    RunOne(Next(c, a), b);
  }

  /** The deferred branch: storing the flag keeps the agreement exactly if it
      changes nothing, no media is active, or a callback is still to read it.
      Otherwise media became active after it was inspected, and the call ends
      up wired the old way. */
  lemma DeferExact(c: Call)
    requires Inv(c) && c.main.FoundInactive?
    ensures var d := Settled(Next(c, Defer));
            (d.active ==> Agrees(d)) <==> c.main.want == c.muted || !c.active || c.callback.Started?
  {
    InvIsNecessary(Next(c, Defer));
  }

  /** A transmit call that throws: rolling the flag back keeps the agreement
      exactly if it changes nothing, no media is active, or no callback has
      acted on the flag in the meantime. */
  lemma RollBackExact(c: Call)
    requires Inv(c) && c.main.Recorded?
    ensures var d := Settled(Next(c, RollBack));
            (d.active ==> Agrees(d))
            <==> c.main.want == c.main.previous || !c.active || c.callback.Started? || !c.main.seen
  {
    InvIsNecessary(Next(c, RollBack));
  }

  /** Both failures happen. First the deferred branch: media becomes active
      between the inspection and the store. */
  lemma DeferCanFail()
    ensures exists steps :: IsRun(FRESH_CALL, steps)
              && Quiet(Run(FRESH_CALL, steps)) && Run(FRESH_CALL, steps).active && !Agrees(Run(FRESH_CALL, steps))
  {
    var c := FRESH_CALL;
    var steps := [Inspect(true), Renegotiate(true, false), ReadFlag, Wire, Finish, Defer];
    Unroll(c, steps);
    var c1 := Next(c, steps[0]); Unroll(c1, steps[1..]);
    var c2 := Next(c1, steps[1]); Unroll(c2, steps[2..]);
    var c3 := Next(c2, steps[2]); Unroll(c3, steps[3..]);
    var c4 := Next(c3, steps[3]); RunTwo(c4, Finish, Defer);
    assert steps[4..] == [Finish, Defer];
    assert steps[1..][1..] == steps[2..] && steps[2..][1..] == steps[3..] && steps[3..][1..] == steps[4..];
  }

  /** And the roll-back: a renegotiation honours the new flag before the transmit
      call throws. */
  lemma RollBackCanFail()
    ensures exists steps :: IsRun(FRESH_CALL, steps)
              && Quiet(Run(FRESH_CALL, steps)) && Run(FRESH_CALL, steps).active && !Agrees(Run(FRESH_CALL, steps))
              && RollBack in steps && Defer !in steps
  {
    var up := [Renegotiate(true, false), ReadFlag, Wire, Finish];
    var down := [Inspect(true), Record, Renegotiate(true, true), ReadFlag, Wire, Finish, RollBack];
    var c := FRESH_CALL.(active := true, link := true);
    CallbackRun(FRESH_CALL, true, false);
    RolledBack(c);
    Chain(FRESH_CALL, up, down);
    assert (up + down)[10] == RollBack;
  }

  lemma CallbackRun(c: Call, active: bool, carried: bool)
    requires c.callback.NoCallback? && active
    ensures var steps := [Renegotiate(active, carried), ReadFlag, Wire, Finish];
            && IsRun(c, steps)
            && Run(c, steps) == c.(active := true, link := !c.muted,
                                   main := if c.main.Recorded? then c.main.(seen := true) else c.main)
  {
    var steps := [Renegotiate(active, carried), ReadFlag, Wire, Finish];
    Unroll(c, steps);
    var c1 := Next(c, steps[0]);
    Unroll(c1, steps[1..]);
    RunTwo(Next(c1, ReadFlag), Wire, Finish);
    assert steps[1..][1..] == [Wire, Finish];
  }

  /** A mute that throws after a callback has seen it leaves the link down. */
  lemma RolledBack(c: Call)
    requires c == FRESH_CALL.(active := true, link := true)
    ensures var steps := [Inspect(true), Record, Renegotiate(true, true), ReadFlag, Wire, Finish, RollBack];
            IsRun(c, steps) && Run(c, steps) == c.(link := false)
  {
    var steps := [Inspect(true), Record, Renegotiate(true, true), ReadFlag, Wire, Finish, RollBack];
    RunTwo(c, Inspect(true), Record);
    var r := Run(c, [Inspect(true), Record]);
    CallbackRun(r, true, true);
    var d := Run(r, [Renegotiate(true, true), ReadFlag, Wire, Finish]);
    RunOne(d, RollBack);
    Chain(r, [Renegotiate(true, true), ReadFlag, Wire, Finish], [RollBack]);
    Chain(c, [Inspect(true), Record], [Renegotiate(true, true), ReadFlag, Wire, Finish] + [RollBack]);
    assert [Inspect(true), Record] + ([Renegotiate(true, true), ReadFlag, Wire, Finish] + [RollBack]) == steps;
  }

  lemma {:induction false} Chain(c: Call, a: seq<Step>, b: seq<Step>)
    requires IsRun(c, a) && IsRun(Run(c, a), b)
    ensures IsRun(c, a + b) && Run(c, a + b) == Run(Run(c, a), b)
    decreases |a|
  {
    if a == [] {
      assert a + b == b;
    } else {
      assert (a + b)[1..] == a[1..] + b;
      Chain(Next(c, a[0]), a[1..], b);
    }
  }

  lemma Unroll(c: Call, steps: seq<Step>)
    requires steps != [] && Enabled(c, steps[0])
    ensures IsRun(c, steps) <==> IsRun(Next(c, steps[0]), steps[1..])
    ensures IsRun(c, steps) ==> Run(c, steps) == Run(Next(c, steps[0]), steps[1..])
  {
  }

  // -------------------------------------------------------------------------
  // Why the flag is recorded first
  // -------------------------------------------------------------------------

  /** The opposite order: setMuted transmits first and records afterwards. A
      callback that fits in between reads the stale flag and undoes it. */
  lemma RecordingLateFails(c: Call, want: bool)
    requires Inv(c) && c.callback.NoCallback? && c.main.FoundActive? && c.active && want != c.muted
    ensures var applied := c.(link := !want);
            var steps := [Renegotiate(true, applied.link), ReadFlag, Wire, Finish];
            && IsRun(applied, steps)
            && var recorded := Run(applied, steps).(muted := want, main := Nothing);
               Quiet(recorded) && recorded.active && !Agrees(recorded)
  {
    var applied := c.(link := !want);
    var steps := [Renegotiate(true, applied.link), ReadFlag, Wire, Finish];
    var c1 := Next(applied, steps[0]);
    Unroll(applied, steps);
    Unroll(c1, steps[1..]);
    var c2 := Next(c1, ReadFlag);
    RunTwo(c2, Wire, Finish);
    assert steps[1..][1..] == [Wire, Finish];
  }
}
