/** Two runs worth knowing: why stop() sweeps a second time, and what a change
    of listener costs. */
module StopWitness {
  import opened DispatchSpec
  import opened StopSpec

  lemma Prepend(s: Adapter, st: Step, rest: seq<Step>)
    requires Enabled(s, st) && IsRun(Next(s, st), rest)
    ensures IsRun(s, [st] + rest) && Run(s, [st] + rest) == Run(Next(s, st), rest)
  {
    assert ([st] + rest)[1..] == rest;
  }

  lemma Extend(steps: seq<Step>, st: Step)
    requires IsRun(INITIAL, steps) && Enabled(Run(INITIAL, steps), st)
    ensures IsRun(INITIAL, steps + [st]) && Run(INITIAL, steps + [st]) == Next(Run(INITIAL, steps), st)
  {
    ExtendFrom(INITIAL, steps, st);
  }

  lemma {:induction false} ExtendFrom(s: Adapter, steps: seq<Step>, st: Step)
    requires IsRun(s, steps) && Enabled(Run(s, steps), st)
    ensures IsRun(s, steps + [st]) && Run(s, steps + [st]) == Next(Run(s, steps), st)
    decreases |steps|
  {
    hide Enabled, Next;
    if steps == [] {
      assert steps + [st] == [st];
      assert IsRun(Next(s, st), []);
    } else {
      ExtendFrom(Next(s, steps[0]), steps[1..], st);
      assert steps + [st] == [steps[0]] + (steps[1..] + [st]);
      Prepend(s, steps[0], steps[1..] + [st]);
    }
  }

  const ACCOUNT: AccountId := 10001

  /** An invitation that is being wrapped when stop() empties the call map puts
      its call into the map afterwards: at the second sweep the map need not be
      empty, so without it a call would outlive stop(). */
  lemma StragglerExists()
    ensures exists steps :: IsRun(INITIAL, steps) && Run(INITIAL, steps).main.Sweep? && Run(INITIAL, steps).calls != {}
  {
    var wrap := [AddAccount(ACCOUNT), Enter(1, OnAccount(ACCOUNT)), Wrap(1)];
    Wrapping(wrap);
    var late := wrap + [StopBegin] + [StopAdvance] + [StopAdvance] + [StopAdvance];
    Stopping(wrap, late);
    var done := late + [Insert(1)] + [Load(1)] + [Queue(1)] + [Leave(1)] + [StopDestroy(OnAccount(ACCOUNT))]
                + [StopAdvance];
    Straggling(late, done);
    assert FIRST_CALL in Run(INITIAL, done).calls;
  }

  lemma Wrapping(steps: seq<Step>)
    requires steps == [AddAccount(ACCOUNT), Enter(1, OnAccount(ACCOUNT)), Wrap(1)]
    ensures IsRun(INITIAL, steps)
    ensures Run(INITIAL, steps) == INITIAL.(accounts := {ACCOUNT}, nextCall := FIRST_CALL + 1,
                                            tasks := map[1 := Task(OnAccount(ACCOUNT), Constructed(FIRST_CALL))])
  {
    var a := [AddAccount(ACCOUNT)];
    assert IsRun(INITIAL, []);
    Extend([], AddAccount(ACCOUNT));
    assert [] + [AddAccount(ACCOUNT)] == a;
    Extend(a, Enter(1, OnAccount(ACCOUNT)));
    Extend(a + [Enter(1, OnAccount(ACCOUNT))], Wrap(1));
    assert steps == a + [Enter(1, OnAccount(ACCOUNT))] + [Wrap(1)];
  }

  lemma Stopping(wrap: seq<Step>, steps: seq<Step>)
    requires IsRun(INITIAL, wrap)
    requires Run(INITIAL, wrap) == INITIAL.(accounts := {ACCOUNT}, nextCall := FIRST_CALL + 1,
                                            tasks := map[1 := Task(OnAccount(ACCOUNT), Constructed(FIRST_CALL))])
    requires steps == wrap + [StopBegin] + [StopAdvance] + [StopAdvance] + [StopAdvance]
    ensures IsRun(INITIAL, steps)
    ensures Run(INITIAL, steps) == Run(INITIAL, wrap).(main := ClearAccounts)
  {
    Extend(wrap, StopBegin);
    Extend(wrap + [StopBegin], StopAdvance);
    Extend(wrap + [StopBegin] + [StopAdvance], StopAdvance);
    Extend(wrap + [StopBegin] + [StopAdvance] + [StopAdvance], StopAdvance);
  }

  lemma Straggling(late: seq<Step>, steps: seq<Step>)
    requires IsRun(INITIAL, late)
    requires Run(INITIAL, late) == INITIAL.(main := ClearAccounts, accounts := {ACCOUNT}, nextCall := FIRST_CALL + 1,
                                            tasks := map[1 := Task(OnAccount(ACCOUNT), Constructed(FIRST_CALL))])
    requires steps == late + [Insert(1)] + [Load(1)] + [Queue(1)] + [Leave(1)] + [StopDestroy(OnAccount(ACCOUNT))]
                      + [StopAdvance]
    ensures IsRun(INITIAL, steps) && Run(INITIAL, steps).main == Sweep && Run(INITIAL, steps).calls == {FIRST_CALL}
  {
    Extend(late, Insert(1));
    Extend(late + [Insert(1)], Load(1));
    Extend(late + [Insert(1)] + [Load(1)], Queue(1));
    var posted := late + [Insert(1)] + [Load(1)] + [Queue(1)];
    Extend(posted, Leave(1));
    var s := Run(INITIAL, posted + [Leave(1)]);
    assert s.tasks == map[] && s.accounts == {ACCOUNT} && s.calls == {FIRST_CALL} && s.main == ClearAccounts;
    Cleared(posted + [Leave(1)]);
  }

  lemma Cleared(steps: seq<Step>)
    requires IsRun(INITIAL, steps)
    requires var s := Run(INITIAL, steps);
             s.tasks == map[] && s.accounts == {ACCOUNT} && s.calls == {FIRST_CALL} && s.main == ClearAccounts
    ensures var more := steps + [StopDestroy(OnAccount(ACCOUNT))] + [StopAdvance];
            IsRun(INITIAL, more) && Run(INITIAL, more).main == Sweep && Run(INITIAL, more).calls == {FIRST_CALL}
  {
    Extend(steps, StopDestroy(OnAccount(ACCOUNT)));
    Extend(steps + [StopDestroy(OnAccount(ACCOUNT))], StopAdvance);
  }

  /** One call, dialled and connected to nothing yet. */
  lemma Dialled() returns (steps: seq<Step>)
    ensures IsRun(INITIAL, steps)
    ensures Run(INITIAL, steps) == INITIAL.(accounts := {ACCOUNT}, calls := {FIRST_CALL}, nextCall := FIRST_CALL + 1)
  {
    assert IsRun(INITIAL, []);
    Extend([], AddAccount(ACCOUNT));
    Extend([] + [AddAccount(ACCOUNT)], DialBegin(ACCOUNT));
    Extend([] + [AddAccount(ACCOUNT)] + [DialBegin(ACCOUNT)], DialEnd(true));
    steps := [] + [AddAccount(ACCOUNT)] + [DialBegin(ACCOUNT)] + [DialEnd(true)];
  }

  /** The call released again, before anything else happened. */
  const PARKED := INITIAL.(accounts := {ACCOUNT}, grace := map[FIRST_CALL := 0], nextCall := FIRST_CALL + 1,
                           events := Dispatch(0, [], [Closure(0, 0, DestroyParked(FIRST_CALL))], 1, [Loaded(0)]))

  lemma Released() returns (steps: seq<Step>)
    ensures IsRun(INITIAL, steps) && Run(INITIAL, steps) == PARKED
  {
    var a := Dialled();
    Extend(a, ReleaseBegin(FIRST_CALL));
    Extend(a + [ReleaseBegin(FIRST_CALL)], ReleaseEnd);
    steps := a + [ReleaseBegin(FIRST_CALL)] + [ReleaseEnd];
    assert Run(INITIAL, steps).calls == {};
  }

  /** Changing the listener drops grace timers like every other closure: a call
      parked before the change stays parked after its timer has fired. */
  lemma ListenerChangeStrandsParkedCall()
    ensures exists steps :: IsRun(INITIAL, steps) && steps != [] && steps[|steps| - 1] == Fire(0)
              && FIRST_CALL in Run(INITIAL, steps).grace && Run(INITIAL, steps).events.delayed == []
  {
    var a := Released();
    Extend(a, SetListener);
    var b := a + [SetListener];
    var s := PARKED.(events := Invalidate(PARKED.events));
    assert Run(INITIAL, b) == s;
    FiresInVain(s);
    Extend(b, Fire(0));
    assert (b + [Fire(0)])[|b|] == Fire(0);
  }

  lemma FiresInVain(s: Adapter)
    requires s == PARKED.(events := Invalidate(PARKED.events))
    ensures Enabled(s, Fire(0))
    ensures FIRST_CALL in Next(s, Fire(0)).grace && Next(s, Fire(0)).events.delayed == []
  {
  }
}
