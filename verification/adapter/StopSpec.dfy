/** Stopping the PJSIP adapter while worker threads are inside callbacks, in
    small steps. The main thread runs one command at a time; worker threads run
    in between. Destroying an object waits until no callback of that object can
    still post. Destroying an account or a buddy also waits for the tail of the
    callback behind its post; destroying a call does not. */
module StopSpec {
  import opened DispatchSpec

  type AccountId = int
  type WatchId = int
  type ThreadId = int

  /** The object a callback belongs to. */
  datatype Subject = OnAccount(account: AccountId) | OnCall(call: CallId) | OnWatch(watch: WatchId)

  /** How far a callback has got. Only an account's callback wraps a call. */
  datatype Stage =
    | Entered
    | Constructed(call: CallId)
    | Inserted(call: CallId)
    | EpochLoaded(closure: Closure)
    | Tail                          // posted, but still running

  datatype Task = Task(subject: Subject, stage: Stage)

  /** Where the main thread is; the last seven are the stages of stop(). */
  datatype Main =
    | Idle
    | Dialing(call: CallId)
    | Releasing(call: CallId)
    | DestroyCalls
    | ClearGrace
    | ClearWatches
    | ClearAccounts
    | Sweep
    | DestroyStragglers
    | InvalidateEvents

  /** `doomed` is the local map of stop(); `grace` remembers, as history, the
      epoch a call was parked under. */
  datatype Adapter = Adapter(
    main: Main,
    calls: set<CallId>,
    doomed: set<CallId>,
    grace: map<CallId, nat>,
    accounts: set<AccountId>,
    watches: map<WatchId, AccountId>,
    nextCall: CallId,
    tasks: map<ThreadId, Task>,
    events: Dispatch)

  const FIRST_CALL: CallId := 50001
  const INITIAL := Adapter(Idle, {}, {}, map[], {}, map[], FIRST_CALL, map[], EMPTY_DISPATCH)

  predicate Handles(s: Adapter, t: ThreadId, c: CallId) {
    t in s.tasks && s.tasks[t].stage == Constructed(c)
  }

  /** Some worker has constructed the call and not inserted it yet. */
  ghost predicate InHand(s: Adapter, c: CallId) {
    exists t :: Handles(s, t, c)
  }

  /** The main thread holds the call in a local variable. */
  predicate InLocal(s: Adapter, c: CallId) {
    s.main == Dialing(c) || s.main == Releasing(c)
  }

  ghost predicate Alive(s: Adapter, subject: Subject) {
    match subject
    case OnAccount(a) => a in s.accounts
    case OnWatch(w) => w in s.watches
    case OnCall(c) => c in s.calls || c in s.doomed || c in s.grace || InLocal(s, c) || InHand(s, c)
  }

  /** The callback holds up the destruction of its object. */
  predicate IsBusy(s: Adapter, t: ThreadId, subject: Subject) {
    t in s.tasks && s.tasks[t].subject == subject && !(subject.OnCall? && s.tasks[t].stage.Tail?)
  }

  ghost predicate Busy(s: Adapter, subject: Subject) {
    exists t :: IsBusy(s, t, subject)
  }

  datatype Step =
    // worker threads
    | Enter(t: ThreadId, subject: Subject)
    | Leave(t: ThreadId)
    | Wrap(t: ThreadId)
    | Insert(t: ThreadId)
    | Load(t: ThreadId)
    | Queue(t: ThreadId)
    // main thread
    | AddAccount(account: AccountId)
    | RemoveAccount(account: AccountId)
    | Watch(watch: WatchId, account: AccountId)
    | Unwatch(watch: WatchId)
    | DialBegin(account: AccountId)
    | DialEnd(ok: bool)
    | ReleaseBegin(call: CallId)
    | ReleaseEnd
    | Deliver
    | Fire(i: nat)
    | SetListener
    | StopBegin
    | StopDestroy(subject: Subject)
    | StopAdvance

  function WithTask(s: Adapter, t: ThreadId, task: Task): Adapter {
    s.(tasks := s.tasks[t := task])
  }

  function WithStage(s: Adapter, t: ThreadId, stage: Stage): Adapter
    requires t in s.tasks
  {
    WithTask(s, t, s.tasks[t].(stage := stage))
  }

  predicate AtStage(s: Adapter, t: ThreadId, stage: Stage) {
    t in s.tasks && s.tasks[t].stage == stage
  }

  /** What a callback at this stage is about to post. */
  function WorkOf(stage: Stage): Work {
    match stage
    case Inserted(c) => Announce(c)
    case _ => Report
  }

  /** Which object the present stage of stop() may destroy. */
  predicate Dying(s: Adapter, subject: Subject) {
    match subject
    case OnCall(c) =>
      (s.main.DestroyCalls? && c in s.doomed) || (s.main.DestroyStragglers? && c in s.doomed)
      || (s.main.ClearGrace? && c in s.grace)
    case OnWatch(w) => s.main.ClearWatches? && w in s.watches
    case OnAccount(a) => s.main.ClearAccounts? && a in s.accounts
  }

  predicate StageDone(s: Adapter) {
    match s.main
    case DestroyCalls => s.doomed == {}
    case ClearGrace => s.grace == map[]
    case ClearWatches => s.watches == map[]
    case ClearAccounts => s.accounts == {}
    case Sweep => true
    case DestroyStragglers => s.doomed == {}
    case InvalidateEvents => true
    case _ => false
  }

  ghost predicate Enabled(s: Adapter, st: Step) {
    match st
    case Enter(t, subject) => t !in s.tasks && Alive(s, subject)
    case Leave(t) => AtStage(s, t, Entered) || AtStage(s, t, Tail)
    case Wrap(t) => AtStage(s, t, Entered) && s.tasks[t].subject.OnAccount?
    case Insert(t) => t in s.tasks && s.tasks[t].stage.Constructed?
    case Load(t) => t in s.tasks && (s.tasks[t].stage.Entered? || s.tasks[t].stage.Inserted?)
    case Queue(t) => t in s.tasks && s.tasks[t].stage.EpochLoaded?
    case AddAccount(a) => s.main.Idle? && a !in s.accounts
    case RemoveAccount(a) =>
      // the watches of an account are destroyed before it
      s.main.Idle? && a in s.accounts && a !in s.watches.Values && !Busy(s, OnAccount(a))
    case Watch(w, a) => s.main.Idle? && a in s.accounts && w !in s.watches
    case Unwatch(w) => s.main.Idle? && w in s.watches && !Busy(s, OnWatch(w))
    case DialBegin(a) => s.main.Idle? && a in s.accounts
    case DialEnd(ok) => s.main.Dialing? && (!ok ==> !Busy(s, OnCall(s.main.call)))
    case ReleaseBegin(c) => s.main.Idle? && c in s.calls
    case ReleaseEnd => s.main.Releasing?
    case Deliver => s.main.Idle? && s.events.queue != []
    case Fire(i) =>
      s.main.Idle? && i < |s.events.delayed|
      && var f := s.events.delayed[i];
         f.work.DestroyParked? && Runs(s.events, f) ==> !Busy(s, OnCall(f.work.call))
    case SetListener => s.main.Idle?
    case StopBegin => s.main.Idle?
    case StopDestroy(subject) => Dying(s, subject) && !Busy(s, subject)
    case StopAdvance => StageDone(s)
  }

  function Destroyed(s: Adapter, subject: Subject): Adapter {
    match subject
    case OnCall(c) => if s.main.ClearGrace? then s.(grace := s.grace - {c}) else s.(doomed := s.doomed - {c})
    case OnWatch(w) => s.(watches := s.watches - {w})
    case OnAccount(a) => s.(accounts := s.accounts - {a})
  }

  function Advanced(s: Adapter): Adapter {
    match s.main
    case DestroyCalls => s.(main := ClearGrace)
    case ClearGrace => s.(main := ClearWatches)
    case ClearWatches => s.(main := ClearAccounts)
    case ClearAccounts => s.(main := Sweep)
    case Sweep => s.(main := DestroyStragglers, doomed := s.calls, calls := {})
    case DestroyStragglers => s.(main := InvalidateEvents)
    case InvalidateEvents => s.(main := Idle, events := Invalidate(s.events))
    case _ => s
  }

  /** A grace timer fires: the call it names dies if the closure still runs. */
  function Fired(s: Adapter, i: nat): Adapter
    requires i < |s.events.delayed|
  {
    var f := s.events.delayed[i];
    s.(events := TakeDelayed(s.events, i),
       grace := if f.work.DestroyParked? && Runs(s.events, f) then s.grace - {f.work.call} else s.grace)
  }

  ghost function Next(s: Adapter, st: Step): Adapter
    requires Enabled(s, st)
  {
    match st
    case Enter(t, subject) => WithTask(s, t, Task(subject, Entered))
    case Leave(t) => s.(tasks := s.tasks - {t})
    case Wrap(t) => WithStage(s, t, Constructed(s.nextCall)).(nextCall := s.nextCall + 1)
    case Insert(t) =>
      var c := s.tasks[t].stage.call;
      WithStage(s, t, Inserted(c)).(calls := s.calls + {c})
    case Load(t) =>
      WithStage(s, t, EpochLoaded(Stamped(s.events, WorkOf(s.tasks[t].stage)))).(events := LoadEpoch(s.events))
    case Queue(t) => WithStage(s, t, Tail).(events := Enqueue(s.events, s.tasks[t].stage.closure))
    case AddAccount(a) => s.(accounts := s.accounts + {a})
    case RemoveAccount(a) => s.(accounts := s.accounts - {a})
    case Watch(w, a) => s.(watches := s.watches[w := a])
    case Unwatch(w) => s.(watches := s.watches - {w})
    case DialBegin(a) => s.(main := Dialing(s.nextCall), nextCall := s.nextCall + 1)
    case DialEnd(ok) => s.(main := Idle, calls := if ok then s.calls + {s.main.call} else s.calls)
    case ReleaseBegin(c) => s.(main := Releasing(c), calls := s.calls - {c})
    case ReleaseEnd =>
      s.(main := Idle,
         grace := s.grace[s.main.call := s.events.epoch],
         events := Arm(LoadEpoch(s.events), Stamped(s.events, DestroyParked(s.main.call))))
    case Deliver => s.(events := TakeQueued(s.events))
    case Fire(i) => Fired(s, i)
    case SetListener => s.(events := Invalidate(s.events))
    case StopBegin => s.(main := DestroyCalls, doomed := s.calls, calls := {})
    case StopDestroy(subject) => Destroyed(s, subject)
    case StopAdvance => Advanced(s)
  }

  ghost predicate IsRun(s: Adapter, steps: seq<Step>)
    decreases |steps|
  {
    steps == [] || (Enabled(s, steps[0]) && IsRun(Next(s, steps[0]), steps[1..]))
  }

  ghost function Run(s: Adapter, steps: seq<Step>): Adapter
    requires IsRun(s, steps)
    decreases |steps|
  {
    if steps == [] then s else Run(Next(s, steps[0]), steps[1..])
  }

  /** stop() is about to return. */
  predicate Returning(s: Adapter) {
    s.main.InvalidateEvents?
  }
}
