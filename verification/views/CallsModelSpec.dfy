/** Bringing a list model up to date with a new snapshot, as an edit script of
    row removals, row insertions and changed roles. */
module CallsModelSpec {
  import opened SipTypes

  datatype Role =
    | IdRole | AccountIdRole | RemoteUriRole | RemoteDisplayNameRole | StateRole
    | HeldRole | MutedRole | RecordingRole | DirectionRole

  datatype RowSignal =
    | RowRemoved(row: int)
    | RowInserted(row: int)
    | DataChanged(row: int, roles: seq<Role>)

  /** A signal and the rows the model holds when its listeners run. */
  datatype Emission = Emission(signal: RowSignal, rows: seq<CallEntry>)

  predicate Has(rows: seq<CallEntry>, id: CallId) {
    exists i | 0 <= i < |rows| :: rows[i].id == id
  }

  function IndexOf(rows: seq<CallEntry>, id: CallId): (i: int)
    ensures -1 <= i < |rows|
    ensures i >= 0 ==> rows[i].id == id && forall k | 0 <= k < i :: rows[k].id != id
    ensures i < 0 <==> !Has(rows, id)
  {
    if rows == [] then -1
    else if rows[0].id == id then 0
    else
      var i := IndexOf(rows[1..], id);
      assert forall k | 0 < k < |rows| :: rows[k] == rows[1..][k - 1];
      if i < 0 then
        assert forall k | 0 <= k < |rows| :: rows[k].id != id;
        -1
      else i + 1
  }

  // -------------------------------------------------------------------------
  // What a row shows
  // -------------------------------------------------------------------------

  datatype Value = Number(n: int) | Text(text: string) | Flag(on: bool)

  function StateName(state: CallState): string {
    match state
    case Idle => "idle"
    case Calling => "calling"
    case EarlyMedia => "early"
    case Confirmed => "active"
    case Disconnected => "disconnected"
  }

  function DirectionName(direction: CallDirection): string {
    if direction == Inbound then "in" else "out"
  }

  function Data(e: CallEntry, role: Role): Value {
    match role
    case IdRole => Number(e.id)
    case AccountIdRole => Number(e.accountId)
    case RemoteUriRole => Text(e.remoteUri)
    case RemoteDisplayNameRole => Text(e.remoteDisplayName)
    case StateRole => Text(StateName(e.state))
    case HeldRole => Flag(e.held)
    case MutedRole => Flag(e.muted)
    case RecordingRole => Flag(e.recording)
    case DirectionRole => Text(DirectionName(e.direction))
  }

  /** The roles among `roles` that show something else in `e` than in `was`. */
  function Differing(was: CallEntry, e: CallEntry, roles: seq<Role>): seq<Role> {
    if roles == [] then []
    else
      var last := roles[|roles| - 1];
      Differing(was, e, roles[..|roles| - 1]) + if Data(was, last) != Data(e, last) then [last] else []
  }

  function Append(changed: seq<Role>, differs: bool, role: Role): seq<Role> {
    if differs then changed + [role] else changed
  }

  /** The order in which roles are announced. */
  const ANNOUNCED := [AccountIdRole, RemoteUriRole, RemoteDisplayNameRole, StateRole,
                      HeldRole, MutedRole, RecordingRole, DirectionRole]

  function ChangedRoles(was: CallEntry, e: CallEntry): seq<Role> {
    Differing(was, e, ANNOUNCED)
  }

  // -------------------------------------------------------------------------
  // The two passes
  // -------------------------------------------------------------------------

  function Without(rows: seq<CallEntry>, i: nat): seq<CallEntry>
    requires i < |rows|
  {
    rows[..i] + rows[i + 1..]
  }

  /** The backward pass over the first `n` rows. */
  function RemovedRows(rows: seq<CallEntry>, next: seq<CallEntry>, n: nat): seq<CallEntry>
    requires n <= |rows|
    decreases n
  {
    if n == 0 then rows
    else RemovedRows(if Has(next, rows[n - 1].id) then rows else Without(rows, n - 1), next, n - 1)
  }

  function RemovalScript(rows: seq<CallEntry>, next: seq<CallEntry>, n: nat): seq<Emission>
    requires n <= |rows|
    decreases n
  {
    if n == 0 then []
    else if Has(next, rows[n - 1].id) then RemovalScript(rows, next, n - 1)
    else
      [Emission(RowRemoved(n - 1), Without(rows, n - 1))] + RemovalScript(Without(rows, n - 1), next, n - 1)
  }

  function Upsert(rows: seq<CallEntry>, e: CallEntry): seq<CallEntry> {
    var i := IndexOf(rows, e.id);
    if i < 0 then rows + [e] else rows[i := e]
  }

  function UpsertSignal(rows: seq<CallEntry>, e: CallEntry): seq<Emission> {
    var i := IndexOf(rows, e.id);
    if i < 0 then [Emission(RowInserted(|rows|), rows + [e])]
    else if ChangedRoles(rows[i], e) == [] then []
    else [Emission(DataChanged(i, ChangedRoles(rows[i], e)), rows[i := e])]
  }

  function UpsertAll(rows: seq<CallEntry>, next: seq<CallEntry>): seq<CallEntry>
    decreases |next|
  {
    if next == [] then rows else UpsertAll(Upsert(rows, next[0]), next[1..])
  }

  function UpsertScript(rows: seq<CallEntry>, next: seq<CallEntry>): seq<Emission>
    decreases |next|
  {
    if next == [] then [] else UpsertSignal(rows, next[0]) + UpsertScript(Upsert(rows, next[0]), next[1..])
  }

  function Refreshed(rows: seq<CallEntry>, next: seq<CallEntry>): seq<CallEntry> {
    UpsertAll(RemovedRows(rows, next, |rows|), next)
  }

  function Script(rows: seq<CallEntry>, next: seq<CallEntry>): seq<Emission> {
    RemovalScript(rows, next, |rows|) + UpsertScript(RemovedRows(rows, next, |rows|), next)
  }

  // -------------------------------------------------------------------------
  // A view that only follows the signals
  // -------------------------------------------------------------------------

  predicate Accepts(view: seq<CallEntry>, e: Emission) {
    match e.signal
    case RowRemoved(i) => 0 <= i < |view|
    case RowInserted(i) => 0 <= i <= |view| && i < |e.rows|
    case DataChanged(i, _) => 0 <= i < |view| && i < |e.rows|
  }

  /** The view re-reads only the roles it was told about. */
  function Reread(was: CallEntry, now: CallEntry, roles: seq<Role>): CallEntry {
    CallEntry(was.id,
              if AccountIdRole in roles then now.accountId else was.accountId,
              if RemoteUriRole in roles then now.remoteUri else was.remoteUri,
              if RemoteDisplayNameRole in roles then now.remoteDisplayName else was.remoteDisplayName,
              if StateRole in roles then now.state else was.state,
              if HeldRole in roles then now.held else was.held,
              if MutedRole in roles then now.muted else was.muted,
              if RecordingRole in roles then now.recording else was.recording,
              if DirectionRole in roles then now.direction else was.direction)
  }

  function Follow(view: seq<CallEntry>, e: Emission): seq<CallEntry>
    requires Accepts(view, e)
  {
    match e.signal
    case RowRemoved(i) => Without(view, i)
    case RowInserted(i) => view[..i] + [e.rows[i]] + view[i..]
    case DataChanged(i, roles) => view[i := Reread(view[i], e.rows[i], roles)]
  }

  /** Following the script, the view takes every signal at a valid row and holds
      after each one what the model holds at that moment. */
  predicate InStep(view: seq<CallEntry>, script: seq<Emission>)
    decreases |script|
  {
    script == [] || (Accepts(view, script[0])
                     && Follow(view, script[0]) == script[0].rows
                     && InStep(script[0].rows, script[1..]))
  }

  function LastRows(view: seq<CallEntry>, script: seq<Emission>): seq<CallEntry> {
    if script == [] then view else script[|script| - 1].rows
  }
}
