/** Accounts: table rows, in-memory entries, keychain, password cache, backend
    bindings and registration states, as functions on one state value. */
module AccountsSpec {
  type AccountId = int
  type BackendAccountId = int

  const INVALID_ACCOUNT: int := -1

  datatype Transport = Udp | Tcp | Tls
  datatype SrtpMode = SrtpDisabled | SrtpOptional | SrtpRequired
  datatype DtmfMethod = Inband | Rfc2833 | Info

  /** The account fields the backend gets to see. */
  datatype Profile = Profile(
    displayName: string, username: string, domain: string, authUser: string, authRealm: string,
    transport: Transport, proxy: string, stunServer: string, publicAddress: string,
    registerIntervalSec: int, keepaliveIntervalSec: int,
    sessionTimersEnabled: bool, publishPresenceEnabled: bool, iceEnabled: bool, hideCallerId: bool,
    zrtpEnabled: bool, srtpMode: SrtpMode, allowUntrustedCert: bool, dtmfMethod: DtmfMethod)

  /** Fields no code below looks at. */
  datatype Extras = Extras(provider: string, codecs: string, voicemailNumber: string)

  datatype Account = Account(
    id: AccountId,
    labelText: string,
    passwordRef: string,
    profile: Profile,
    registerOnStartup: bool,
    isDefault: bool,
    enabled: bool,
    sortOrder: int,
    extras: Extras)

  /** The stack-neutral registration request. */
  datatype Settings = Settings(
    displayName: string, username: string, domain: string, authUser: string, authRealm: string,
    password: string, transport: Transport, proxy: string, publicAddress: string,
    registerIntervalSec: int, keepaliveIntervalSec: int,
    sessionTimersEnabled: bool, publishPresenceEnabled: bool, iceEnabled: bool, hideCallerId: bool,
    zrtpEnabled: bool, srtpMode: SrtpMode, allowUntrustedCert: bool, dtmfMethod: DtmfMethod,
    useStun: bool)

  function Translate(p: Profile, password: string): Settings {
    Settings(p.displayName, p.username, p.domain, p.authUser, p.authRealm, password, p.transport, p.proxy,
             p.publicAddress, p.registerIntervalSec, p.keepaliveIntervalSec, p.sessionTimersEnabled,
             p.publishPresenceEnabled, p.iceEnabled, p.hideCallerId, p.zrtpEnabled, p.srtpMode,
             p.allowUntrustedCert, p.dtmfMethod, p.stunServer != "")
  }

  datatype RegistrationState = Unregistered | Registering | Registered | Failed
  datatype RegError = RegError(code: int, reason: string)
  const NO_ERROR := RegError(0, "")

  datatype RegStatus = RegStatus(state: RegistrationState, error: RegError)
  const FRESH := RegStatus(Unregistered, NO_ERROR)

  /** The result of one REGISTER, as posted by the backend. */
  datatype RegEvent = RegEvent(backendId: BackendAccountId, active: bool, code: int, reason: string)

  predicate Is2xx(code: int) {
    200 <= code <= 299
  }

  function MapRegEvent(active: bool, code: int, reason: string, lastError: RegError): RegStatus {
    if active && Is2xx(code) then RegStatus(Registered, NO_ERROR)
    else if code == 0 then RegStatus(Registering, lastError)
    else if !active && Is2xx(code) then RegStatus(Unregistered, lastError)
    else RegStatus(Failed, RegError(code, reason))
  }

  datatype Entry = Entry(account: Account, registered: bool)

  /** `delivered` is a history variable: for each backend account the events
      handed to the manager while that account was bound. */
  datatype World = World(
    rows: map<AccountId, Account>,
    keychain: map<string, string>,
    entries: seq<Entry>,
    cache: map<string, string>,
    backendIds: map<AccountId, BackendAccountId>,
    states: map<AccountId, RegistrationState>,
    errors: map<AccountId, RegError>,
    running: bool,
    bound: map<BackendAccountId, Settings>,
    nextBackendId: BackendAccountId,
    queue: seq<RegEvent>,
    delivered: map<BackendAccountId, seq<RegEvent>>)

  const EMPTY_WORLD := World(map[], map[], [], map[], map[], map[], map[], false, map[], 1, [], map[])

  /** For which accounts the keychain denies a read, and for which the backend
      refuses to create an account. */
  datatype Fate = Fate(keyDenied: set<AccountId>, backendDenied: set<AccountId>)

  /** What a search looks for: any entry of the account, or a registered one. */
  predicate Matches(e: Entry, id: AccountId, live: bool) {
    e.account.id == id && (live ==> e.registered)
  }

  predicate IsFirst(entries: seq<Entry>, id: AccountId, live: bool, i: int) {
    0 <= i < |entries| && Matches(entries[i], id, live)
    && forall k | 0 <= k < i :: !Matches(entries[k], id, live)
  }

  lemma FirstExists(entries: seq<Entry>, id: AccountId, live: bool, i: nat)
    requires i < |entries| && Matches(entries[i], id, live)
    ensures exists k | 0 <= k < |entries| :: IsFirst(entries, id, live, k)
  {
    if k :| 0 <= k < i && Matches(entries[k], id, live) {
      FirstExists(entries, id, live, k);
    } else {
      assert IsFirst(entries, id, live, i);
    }
  }

  /** The entry a search from the front finds, -1 if there is none. */
  function Search(entries: seq<Entry>, id: AccountId, live: bool): (i: int)
    ensures -1 <= i < |entries|
    ensures i >= 0 ==> Matches(entries[i], id, live)
    ensures i < 0 <==> forall k | 0 <= k < |entries| :: !Matches(entries[k], id, live)
  {
    if exists k | 0 <= k < |entries| :: IsFirst(entries, id, live, k) then
      var k :| 0 <= k < |entries| && IsFirst(entries, id, live, k);
      k
    else
      assert forall k | 0 <= k < |entries| :: !Matches(entries[k], id, live) by {
        forall k | 0 <= k < |entries| ensures !Matches(entries[k], id, live) {
          if Matches(entries[k], id, live) { FirstExists(entries, id, live, k); }
        }
      }
      -1
  }

  function IndexOf(entries: seq<Entry>, id: AccountId): (i: int)
    ensures -1 <= i < |entries|
    ensures i >= 0 ==> entries[i].account.id == id
    ensures i < 0 <==> forall k | 0 <= k < |entries| :: entries[k].account.id != id
  {
    assert forall k | 0 <= k < |entries| :: Matches(entries[k], id, false) <==> entries[k].account.id == id;
    Search(entries, id, false)
  }

  // -------------------------------------------------------------------------
  // Registration
  // -------------------------------------------------------------------------

  function Bind(w: World, i: nat, password: string): World
    requires i < |w.entries|
  {
    var a := w.entries[i].account;
    w.(bound := w.bound[w.nextBackendId := Translate(a.profile, password)],
       backendIds := w.backendIds[a.id := w.nextBackendId],
       nextBackendId := w.nextBackendId + 1,
       entries := w.entries[i := Entry(a, true)])
  }

  predicate PasswordKnown(w: World, i: nat, fate: Fate)
    requires i < |w.entries|
  {
    var a := w.entries[i].account;
    a.passwordRef in w.cache || (a.passwordRef in w.keychain && a.id !in fate.keyDenied)
  }

  function CachePassword(w: World, ref: string): World
    requires ref in w.cache || ref in w.keychain
  {
    if ref in w.cache then w else w.(cache := w.cache[ref := w.keychain[ref]])
  }

  function RegisterAccount(w: World, id: AccountId, fate: Fate): (r: World)
    ensures |r.entries| == |w.entries|
  {
    var i := IndexOf(w.entries, id);
    if i < 0 || !w.running || w.entries[i].registered || !PasswordKnown(w, i, fate) then w
    else
      var ref := w.entries[i].account.passwordRef;
      var w1 := CachePassword(w, ref);
      if id in fate.backendDenied then w1 else Bind(w1, i, w1.cache[ref])
  }

  function Unbind(w: World, i: nat): World
    requires i < |w.entries|
  {
    var id := w.entries[i].account.id;
    w.(bound := if id in w.backendIds then w.bound - {w.backendIds[id]} else w.bound,
       backendIds := w.backendIds - {id},
       entries := w.entries[i := w.entries[i].(registered := false)],
       states := w.states[id := Unregistered],
       errors := w.errors - {id})
  }

  function UnregisterAccount(w: World, id: AccountId): World {
    var i := Search(w.entries, id, true);
    if i >= 0 then Unbind(w, i) else w
  }

  /** Update, removal and password change unregister only what is registered. */
  function DropBinding(w: World, i: nat): World
    requires i < |w.entries|
  {
    if w.entries[i].registered then UnregisterAccount(w, w.entries[i].account.id) else w
  }

  predicate StartsUp(a: Account) {
    a.enabled && a.registerOnStartup
  }

  function RegisterStartupFrom(w: World, from: nat, fate: Fate): World
    requires from <= |w.entries|
    decreases |w.entries| - from
  {
    if from == |w.entries| then w
    else
      var a := w.entries[from].account;
      var w1 := if StartsUp(a) then RegisterAccount(w, a.id, fate) else w;
      RegisterStartupFrom(w1, from + 1, fate)
  }

  function StartupIds(entries: seq<Entry>): seq<AccountId> {
    if entries == [] then []
    else (if StartsUp(entries[0].account) then [entries[0].account.id] else []) + StartupIds(entries[1..])
  }

  function Reregister(w: World, ids: seq<AccountId>, fate: Fate): World
    decreases |ids|
  {
    if ids == [] then w
    else Reregister(RegisterAccount(UnregisterAccount(w, ids[0]), ids[0], fate), ids[1..], fate)
  }

  // -------------------------------------------------------------------------
  // Editing
  // -------------------------------------------------------------------------

  predicate SomeDefault(rows: map<AccountId, Account>) {
    exists k | k in rows :: rows[k].isDefault
  }

  /** The unique index lets a second default row in under no circumstances. */
  predicate InsertAccepted(w: World, a: Account, insertOk: bool) {
    insertOk && !(a.isDefault && SomeDefault(w.rows))
  }

  /** `ref` is the fresh keychain reference, `rowId` the row id of the new row. */
  function Add(w: World, acc: Account, password: string, ref: string, rowId: AccountId,
               setOk: bool, insertOk: bool, eraseOk: bool, fate: Fate): World
  {
    if !setOk then w
    else if !InsertAccepted(w, acc, insertOk) then
      w.(keychain := if eraseOk then w.keychain - {ref} else w.keychain[ref := password])
    else
      var a := acc.(id := rowId, passwordRef := ref);
      var w1 := w.(keychain := w.keychain[ref := password],
                   rows := w.rows[rowId := a],
                   entries := w.entries + [Entry(a, false)],
                   cache := w.cache[ref := password]);
      if StartsUp(a) then RegisterAccount(w1, rowId, fate) else w1
  }

  function Remove(w: World, id: AccountId, eraseOk: bool, deleteOk: bool): World {
    var i := IndexOf(w.entries, id);
    if i < 0 then w
    else
      var w1 := DropBinding(w, i);
      var ref := w1.entries[i].account.passwordRef;
      var w2 := w1.(keychain := if eraseOk then w1.keychain - {ref} else w1.keychain, cache := w1.cache - {ref});
      if !deleteOk then w2
      else w2.(rows := w2.rows - {id}, entries := w2.entries[..i] + w2.entries[i + 1..])
  }

  /** isDefault and passwordRef are not the caller's to change. */
  function Merged(acc: Account, was: Account): Account {
    acc.(isDefault := was.isDefault, passwordRef := was.passwordRef)
  }

  function Update(w: World, acc: Account, updateOk: bool, fate: Fate): World {
    var i := IndexOf(w.entries, acc.id);
    if i < 0 || !updateOk then w
    else
      var live := w.entries[i].registered;
      var w1 := w.(rows := if acc.id in w.rows then w.rows[acc.id := Merged(acc, w.rows[acc.id])] else w.rows);
      var w2 := DropBinding(w1, i);
      var a := Merged(acc, w2.entries[i].account);
      var w3 := w2.(entries := w2.entries[i := w2.entries[i].(account := a)]);
      if a.enabled && (live || a.registerOnStartup) then RegisterAccount(w3, acc.id, fate) else w3
  }

  /** How the transaction of setDefault ends. `LeftOpen` is a COMMIT that fails
      without rolling back: the table, as this connection sees it, keeps the
      change, but the manager gives up. */
  datatype Outcome = Committed | RolledBack | LeftOpen

  function DefaultRows(rows: map<AccountId, Account>, id: AccountId): map<AccountId, Account> {
    map k | k in rows :: rows[k].(isDefault := k == id)
  }

  function DefaultEntries(entries: seq<Entry>, id: AccountId): seq<Entry> {
    seq(|entries|, i requires 0 <= i < |entries| =>
      entries[i].(account := entries[i].account.(isDefault := entries[i].account.id == id)))
  }

  function SetDefault(w: World, id: AccountId, outcome: Outcome): World {
    if IndexOf(w.entries, id) < 0 || outcome == RolledBack then w
    else if outcome == LeftOpen then w.(rows := DefaultRows(w.rows, id))
    else w.(rows := DefaultRows(w.rows, id), entries := DefaultEntries(w.entries, id))
  }

  function SetEnabled(w: World, id: AccountId, enabled: bool, updateOk: bool, fate: Fate): World {
    var i := IndexOf(w.entries, id);
    if i < 0 || w.entries[i].account.enabled == enabled || !updateOk then w
    else
      var a := w.entries[i].account.(enabled := enabled);
      var w1 := w.(rows := if id in w.rows then w.rows[id := w.rows[id].(enabled := enabled)] else w.rows,
                   entries := w.entries[i := w.entries[i].(account := a)]);
      if enabled then RegisterAccount(w1, id, fate) else UnregisterAccount(w1, id)
  }

  function SetPassword(w: World, id: AccountId, password: string, setOk: bool, fate: Fate): World {
    var i := IndexOf(w.entries, id);
    if i < 0 || !setOk then w
    else
      var a := w.entries[i].account;
      var w1 := w.(keychain := w.keychain[a.passwordRef := password], cache := w.cache[a.passwordRef := password]);
      var w2 := DropBinding(w1, i);
      if a.enabled && (w.entries[i].registered || a.registerOnStartup) then RegisterAccount(w2, id, fate) else w2
  }

  // -------------------------------------------------------------------------
  // Registration events and reads
  // -------------------------------------------------------------------------

  ghost predicate BoundTo(w: World, id: AccountId, b: BackendAccountId) {
    id in w.backendIds && w.backendIds[id] == b
  }

  function StateOf(w: World, id: AccountId): RegistrationState {
    if id in w.states then w.states[id] else Unregistered
  }

  function LastRegErrorOf(w: World, id: AccountId): RegError {
    if id in w.errors then w.errors[id] else NO_ERROR
  }

  function StatusOf(w: World, id: AccountId): RegStatus {
    RegStatus(StateOf(w, id), LastRegErrorOf(w, id))
  }

  function History(w: World, b: BackendAccountId): seq<RegEvent> {
    if b in w.delivered then w.delivered[b] else []
  }

  /** The reg-state event `e` reaches the manager; `id` is its owner, if any. */
  function OnRegState(w: World, e: RegEvent, id: AccountId): World {
    if id == INVALID_ACCOUNT then w
    else
      var upd := MapRegEvent(e.active, e.code, e.reason, LastRegErrorOf(w, id));
      w.(states := w.states[id := upd.state],
         errors := w.errors[id := upd.error],
         delivered := w.delivered[e.backendId := History(w, e.backendId) + [e]])
  }

  /** The owner accountIdForBackend finds. */
  ghost predicate IsOwner(w: World, b: BackendAccountId, id: AccountId) {
    if id == INVALID_ACCOUNT then forall k :: !BoundTo(w, k, b) else BoundTo(w, id, b)
  }

  function Deliver(w: World, id: AccountId): World
    requires w.queue != []
  {
    OnRegState(w.(queue := w.queue[1..]), w.queue[0], id)
  }

  /** The empty-label fallback of loading. */
  function Loaded(a: Account): Account {
    if a.labelText == "" then a.(labelText := a.profile.displayName) else a
  }

  /** A fresh process: only the table and the keychain survive. `order` is the
      order in which the query returns the rows. */
  function Restart(w: World, order: seq<AccountId>): World
    requires forall i | 0 <= i < |order| :: order[i] in w.rows
  {
    EMPTY_WORLD.(rows := w.rows, keychain := w.keychain,
                 entries := seq(|order|, i requires 0 <= i < |order| => Entry(Loaded(w.rows[order[i]]), false)))
  }

  ghost predicate QueryOrder(rows: map<AccountId, Account>, order: seq<AccountId>) {
    (forall i | 0 <= i < |order| :: order[i] in rows)
    && (forall k | k in rows :: k in order)
    && forall i, j | 0 <= i < j < |order| ::
         rows[order[i]].sortOrder < rows[order[j]].sortOrder
         || (rows[order[i]].sortOrder == rows[order[j]].sortOrder && order[i] < order[j])
  }

  // -------------------------------------------------------------------------
  // Steps
  // -------------------------------------------------------------------------

  datatype Step =
    | AddStep(acc: Account, password: string, ref: string, rowId: AccountId, setOk: bool, insertOk: bool,
              eraseOk: bool, fate: Fate)
    | RemoveStep(id: AccountId, eraseOk: bool, deleteOk: bool)
    | UpdateStep(acc: Account, updateOk: bool, fate: Fate)
    | SetDefaultStep(id: AccountId, outcome: Outcome)
    | SetEnabledStep(id: AccountId, enabled: bool, updateOk: bool, fate: Fate)
    | SetPasswordStep(id: AccountId, password: string, setOk: bool, fate: Fate)
    | RegisterStep(id: AccountId, fate: Fate)
    | UnregisterStep(id: AccountId)
    | StartupStep(fate: Fate)
    | ReregisterStep(fate: Fate)
    | StartBackendStep
    | RemoteRegStep(event: RegEvent)
    | DeliverStep(owner: AccountId)
    | RestartStep(order: seq<AccountId>)

  ghost predicate FreshRef(w: World, ref: string) {
    ref !in w.keychain && ref !in w.cache
    && forall i | 0 <= i < |w.entries| :: w.entries[i].account.passwordRef != ref
  }

  /** Which steps the environment may take. A COMMIT ends the transaction one
      way or the other; `LeftOpen` is looked at separately. */
  ghost predicate Enabled(w: World, st: Step) {
    match st
    case AddStep(_, _, ref, rowId, _, _, _, _) => FreshRef(w, ref) && rowId >= 1 && rowId !in w.rows
    case SetDefaultStep(_, outcome) => outcome != LeftOpen
    case DeliverStep(owner) => w.queue != [] && IsOwner(w, w.queue[0].backendId, owner)
    case RestartStep(order) => QueryOrder(w.rows, order)
    case _ => true
  }

  ghost function Next(w: World, st: Step): World
    requires Enabled(w, st)
  {
    match st
    case AddStep(acc, password, ref, rowId, setOk, insertOk, eraseOk, fate) =>
      Add(w, acc, password, ref, rowId, setOk, insertOk, eraseOk, fate)
    case RemoveStep(id, eraseOk, deleteOk) => Remove(w, id, eraseOk, deleteOk)
    case UpdateStep(acc, updateOk, fate) => Update(w, acc, updateOk, fate)
    case SetDefaultStep(id, outcome) => SetDefault(w, id, outcome)
    case SetEnabledStep(id, enabled, updateOk, fate) => SetEnabled(w, id, enabled, updateOk, fate)
    case SetPasswordStep(id, password, setOk, fate) => SetPassword(w, id, password, setOk, fate)
    case RegisterStep(id, fate) => RegisterAccount(w, id, fate)
    case UnregisterStep(id) => UnregisterAccount(w, id)
    case StartupStep(fate) => RegisterStartupFrom(w, 0, fate)
    case ReregisterStep(fate) => Reregister(w, StartupIds(w.entries), fate)
    case StartBackendStep => w.(running := true)
    case RemoteRegStep(event) => if w.running then w.(queue := w.queue + [event]) else w
    case DeliverStep(owner) => Deliver(w, owner)
    case RestartStep(order) => Restart(w, order)
  }

  ghost predicate IsRun(w: World, steps: seq<Step>)
    decreases |steps|
  {
    steps == [] || (Enabled(w, steps[0]) && IsRun(Next(w, steps[0]), steps[1..]))
  }

  ghost function Run(w: World, steps: seq<Step>): World
    requires IsRun(w, steps)
    decreases |steps|
  {
    if steps == [] then w else Run(Next(w, steps[0]), steps[1..])
  }
}
