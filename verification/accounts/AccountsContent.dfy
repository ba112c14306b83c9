/** What the backend is told about an account, what it answers means, and what
    every operation leaves in memory and in the keychain. */
module AccountsContent {
  import opened AccountsSpec
  import opened AccountsInvariant
  import opened AccountsTheorems
  import opened AccountsLaws

  // -------------------------------------------------------------------------
  // Towards the backend
  // -------------------------------------------------------------------------

  /** After every run the backend works with each field of a bound account, and
      with the password the keychain has for it. */
  lemma SettingsAreTheAccount(steps: seq<Step>, i: nat)
    requires IsRun(EMPTY_WORLD, steps) && i < |Run(EMPTY_WORLD, steps).entries|
    requires Run(EMPTY_WORLD, steps).entries[i].account.id in Run(EMPTY_WORLD, steps).backendIds
    ensures var w := Run(EMPTY_WORLD, steps);
            var a := w.entries[i].account;
            var p, b := a.profile, w.backendIds[a.id];
            && b in w.bound && a.passwordRef in w.keychain
            && var s := w.bound[b];
            && s.password == w.keychain[a.passwordRef]
            && s.displayName == p.displayName && s.username == p.username && s.domain == p.domain
            && s.authUser == p.authUser && s.authRealm == p.authRealm && s.transport == p.transport
            && s.proxy == p.proxy && s.publicAddress == p.publicAddress
            && s.registerIntervalSec == p.registerIntervalSec && s.keepaliveIntervalSec == p.keepaliveIntervalSec
            && s.sessionTimersEnabled == p.sessionTimersEnabled && s.publishPresenceEnabled == p.publishPresenceEnabled
            && s.iceEnabled == p.iceEnabled && s.hideCallerId == p.hideCallerId && s.zrtpEnabled == p.zrtpEnabled
            && s.srtpMode == p.srtpMode && s.allowUntrustedCert == p.allowUntrustedCert && s.dtmfMethod == p.dtmfMethod
            && (s.useStun <==> p.stunServer != "")
  {
    NoStaleBinding(steps, i);
    hide IsRun, Run;
  }

  // -------------------------------------------------------------------------
  // From the backend
  // -------------------------------------------------------------------------

  predicate Success(e: RegEvent) {
    200 <= e.code <= 299
  }

  /** The state shown is that of the last answer, whatever came before it. */
  lemma LastAnswerDecides(events: seq<RegEvent>)
    requires events != []
    ensures var e, f := events[|events| - 1], Fold(events);
            && (e.active && Success(e) <==> f.state == Registered)
            && (e.code == 0 <==> f.state == Registering)
            && (!e.active && Success(e) <==> f.state == Unregistered)
            && (e.code != 0 && !Success(e) <==> f.state == Failed)
  {
  }

  /** The error shown is that of the last failure, unless a success came after it;
      with no such failure none is shown. */
  lemma {:induction false} ErrorExact(events: seq<RegEvent>, error: RegError)
    requires error != NO_ERROR
    ensures Fold(events).error == error <==> exists i | 0 <= i < |events| :: IsLastFailure(events, i, error)
  {
    FoldMeaning(events);
    if i :| 0 <= i < |events| && IsLastFailure(events, i, error) {
      FailureStays(events, i, error, |events|);
      assert events[..|events|] == events;
    }
  }

  lemma {:induction false} FailureStays(events: seq<RegEvent>, i: nat, error: RegError, n: nat)
    requires i < n <= |events| && IsLastFailure(events, i, error)
    ensures Fold(events[..n]).error == error
    decreases n
  {
    assert events[..n][..n - 1] == events[..n - 1] && events[..n][n - 1] == events[n - 1];
    if n - 1 > i {
      FailureStays(events, i, error, n - 1);
      assert !Fails(events[n - 1]) && !Succeeds(events[n - 1]);
    }
  }

  lemma AnswerIn(w: World, owner: AccountId, k: AccountId)
    requires w.queue != [] && owner != INVALID_ACCOUNT
    ensures var t, e := Deliver(w, owner), w.queue[0];
            && (k != owner ==> StateOf(t, k) == StateOf(w, k) && LastRegErrorOf(t, k) == LastRegErrorOf(w, k))
            && StateOf(t, owner) == (if Success(e) then if e.active then Registered else Unregistered
                                     else if e.code == 0 then Registering
                                     else Failed)
            && LastRegErrorOf(t, owner) == (if Success(e) && e.active then NO_ERROR
                                            else if Success(e) || e.code == 0 then LastRegErrorOf(w, owner)
                                            else RegError(e.code, e.reason))
  {
  }

  /** What an answer makes of the account it is for, and of no other. */
  lemma AnswerShows(steps: seq<Step>, owner: AccountId, k: AccountId)
    requires IsRun(EMPTY_WORLD, steps) && Enabled(Run(EMPTY_WORLD, steps), DeliverStep(owner))
    requires owner != INVALID_ACCOUNT
    ensures var w := Run(EMPTY_WORLD, steps);
            var t, e := Next(w, DeliverStep(owner)), w.queue[0];
            && owner in w.backendIds && w.backendIds[owner] == e.backendId
            && (k != owner ==> StateOf(t, k) == StateOf(w, k) && LastRegErrorOf(t, k) == LastRegErrorOf(w, k))
            && StateOf(t, owner) == (if Success(e) then if e.active then Registered else Unregistered
                                     else if e.code == 0 then Registering
                                     else Failed)
            && LastRegErrorOf(t, owner) == (if Success(e) && e.active then NO_ERROR
                                            else if Success(e) || e.code == 0 then LastRegErrorOf(w, owner)
                                            else RegError(e.code, e.reason))
  {
    AnswerIn(Run(EMPTY_WORLD, steps), owner, k);
    hide IsRun, Run, Deliver, StateOf, LastRegErrorOf;
  }

  // -------------------------------------------------------------------------
  // In memory
  // -------------------------------------------------------------------------

  lemma FindAt(w: World, i: int, k: AccountId)
    requires Distinct(w.entries) && EntryOf(w, i, k)
    ensures Find(w, k) == [w.entries[i].account]
  {
    IndexIs(w, i, k);
  }

  /** The entries hold the same accounts. */
  predicate SameAccountsIn(w: World, t: World) {
    |t.entries| == |w.entries| && forall i | 0 <= i < |w.entries| :: t.entries[i].account == w.entries[i].account
  }

  lemma FindSame(w: World, t: World, k: AccountId)
    requires Distinct(w.entries) && SameAccountsIn(w, t)
    ensures Find(t, k) == Find(w, k)
  {
    var i := IndexOf(w.entries, k);
    assert Distinct(t.entries);
    if i >= 0 { FindAt(t, i, k); }
  }

  lemma RegisterFinds(w: World, id: AccountId, fate: Fate, k: AccountId)
    requires Inv(w)
    ensures Find(RegisterAccount(w, id, fate), k) == Find(w, k)
  {
    SameAccounts(w, id, fate);
    FindSame(w, RegisterAccount(w, id, fate), k);
    hide Inv, RegisterAccount, IndexOf;
  }

  lemma UnregisterFinds(w: World, id: AccountId, k: AccountId)
    requires Inv(w)
    ensures Find(UnregisterAccount(w, id), k) == Find(w, k)
  {
    UnregisterOwn(w, id);
    FindSame(w, UnregisterAccount(w, id), k);
    hide Inv, UnregisterAccount, IndexOf;
  }

  lemma {:induction false} StartupFinds(w: World, from: nat, fate: Fate, k: AccountId)
    requires Inv(w) && from <= |w.entries|
    ensures Find(RegisterStartupFrom(w, from, fate), k) == Find(w, k)
    decreases |w.entries| - from
  {
    hide Inv, RegisterAccount, Find;
    if from < |w.entries| {
      var a := w.entries[from].account;
      RegisterFinds(w, a.id, fate, k);
      RegisterKeeps(w, a.id, fate);
      StartupFinds(if StartsUp(a) then RegisterAccount(w, a.id, fate) else w, from + 1, fate, k);
    }
  }

  lemma {:induction false} ReregisterFinds(w: World, ids: seq<AccountId>, fate: Fate, k: AccountId)
    requires Inv(w)
    ensures Find(Reregister(w, ids, fate), k) == Find(w, k)
    decreases |ids|
  {
    hide Inv, RegisterAccount, UnregisterAccount, Find;
    if ids != [] {
      var u := UnregisterAccount(w, ids[0]);
      UnregisterFinds(w, ids[0], k);
      UnregisterKeeps(w, ids[0]);
      RegisterFinds(u, ids[0], fate, k);
      RegisterKeeps(u, ids[0], fate);
      ReregisterFinds(RegisterAccount(u, ids[0], fate), ids[1..], fate, k);
    }
  }

  lemma FindEdited(w: World, i: int, a: Account, row: Account, k: AccountId)
    requires Distinct(w.entries) && 0 <= i < |w.entries|
    requires a.id == w.entries[i].account.id && a.passwordRef == w.entries[i].account.passwordRef
    ensures Find(Edited(w, i, a, row), k) == if k == a.id then [a] else Find(w, k)
  {
    var t := Edited(w, i, a, row);
    assert Distinct(t.entries);
    if k == a.id {
      FindAt(t, i, k);
    } else {
      var j := IndexOf(w.entries, k);
      if j >= 0 { FindAt(t, j, k); }
    }
  }

  /** What find answers for the account after the step. */
  function AccountNext(w: World, st: Step, k: AccountId): seq<Account> {
    var was := Find(w, k);
    match st
    case AddStep(acc, _, ref, rowId, setOk, insertOk, _, _) =>
      if k == rowId && setOk && insertOk && !(acc.isDefault && DefaultTaken(w))
      then [acc.(id := rowId, passwordRef := ref)] else was
    case RemoveStep(id, _, deleteOk) => if k == id && deleteOk then [] else was
    case UpdateStep(acc, updateOk, _) =>
      if k == acc.id && updateOk && was != []
      then [acc.(isDefault := was[0].isDefault, passwordRef := was[0].passwordRef)] else was
    case SetDefaultStep(id, outcome) =>
      if outcome == Committed && Find(w, id) != [] && was != [] then [was[0].(isDefault := k == id)] else was
    case SetEnabledStep(id, enabled, updateOk, _) =>
      if k == id && updateOk && was != [] then [was[0].(enabled := enabled)] else was
    case RestartStep(_) => if was == [] then [] else [Loaded(was[0])]
    case _ => was
  }

  lemma AddFinds(w: World, st: Step, k: AccountId)
    requires Inv(w) && Enabled(w, st) && st.AddStep?
    ensures Find(Next(w, st), k) == AccountNext(w, st, k)
  {
    var AddStep(acc, password, ref, rowId, setOk, insertOk, eraseOk, fate) := st;
    var a := acc.(id := rowId, passwordRef := ref);
    var mid := Added(w, a, password);
    assert SomeDefault(w.rows) <==> DefaultTaken(w);
    if setOk && insertOk && !(acc.isDefault && DefaultTaken(w)) {
      AddedFit(w, a, password, fate);
      RegisterFinds(mid, rowId, fate, k);
      AppendFinds(w, a, password, k);
    } else {
      AddRefused(w, acc, password, ref, rowId, setOk, insertOk, eraseOk, fate);
      FindSame(w, Next(w, st), k);
    }
    AddShape(w, acc, password, ref, rowId, setOk, insertOk, eraseOk, fate);
    hide Inv, Add, Find, RegisterAccount, DefaultTaken, SomeDefault, FreshRef;
  }

  lemma AddRefused(w: World, acc: Account, password: string, ref: string, rowId: AccountId,
                   setOk: bool, insertOk: bool, eraseOk: bool, fate: Fate)
    requires !(setOk && insertOk && !(acc.isDefault && DefaultTaken(w)))
    ensures Add(w, acc, password, ref, rowId, setOk, insertOk, eraseOk, fate).entries == w.entries
  {
    assert SomeDefault(w.rows) <==> DefaultTaken(w);
    hide RegisterAccount;
  }

  lemma AppendFinds(w: World, a: Account, password: string, k: AccountId)
    requires Inv(w) && Inv(Added(w, a, password)) && a.id !in w.rows
    ensures Find(Added(w, a, password), k) == if k == a.id then [a] else Find(w, k)
  {
    var t := Added(w, a, password);
    assert !Known(w, a.id);
    var n := |w.entries|;
    assert t.entries[n].account == a && EntryOf(t, n, a.id);
    if k == a.id {
      FindAt(t, n, k);
    } else {
      var i := IndexOf(w.entries, k);
      if i >= 0 {
        assert EntryOf(t, i, k) && t.entries[i] == w.entries[i];
        FindAt(t, i, k);
      }
    }
  }

  lemma RemoveFinds(w: World, st: Step, k: AccountId)
    requires Inv(w) && st.RemoveStep?
    ensures Find(Next(w, st), k) == AccountNext(w, st, k)
  {
    var RemoveStep(id, eraseOk, deleteOk) := st;
    var i := IndexOf(w.entries, id);
    if i >= 0 {
      DropBindingKeeps(w, i);
      var u := DropBinding(w, i);
      if deleteOk {
        DropFinds(w, u, Next(w, st), i, k);
      } else {
        FindSame(w, Next(w, st), k);
      }
    }
    hide Inv, DropBinding, UnregisterAccount, IndexOf;
  }

  lemma DropIndex(entries: seq<Entry>, i: int, k: AccountId)
    requires Distinct(entries) && 0 <= i < |entries| && k != entries[i].account.id && IndexOf(entries, k) >= 0
    ensures var rest := entries[..i] + entries[i + 1..];
            IndexOf(rest, k) >= 0 && rest[IndexOf(rest, k)] == entries[IndexOf(entries, k)]
  {
    KnownAfterDrop(entries, i, k);
    var rest := entries[..i] + entries[i + 1..];
    var l := IndexOf(rest, k);
    var j := if l < i then l else l + 1;
    assert rest[l] == entries[j];
    assert entries[j].account.id == k;
  }

  lemma DropFinds(w: World, u: World, t: World, i: int, k: AccountId)
    requires Inv(w) && 0 <= i < |w.entries| && SameAccountsIn(w, u) && t.entries == u.entries[..i] + u.entries[i + 1..]
    ensures Find(t, k) == if k == w.entries[i].account.id then [] else Find(w, k)
  {
    assert Distinct(u.entries);
    FindSame(w, u, k);
    KnownAfterDrop(u.entries, i, k);
    if k != u.entries[i].account.id && IndexOf(u.entries, k) >= 0 { DropIndex(u.entries, i, k); }
    hide Inv, IndexOf, Distinct;
  }

  lemma UpdatedFinds(w: World, i: int, acc: Account, k: AccountId)
    requires Inv(w) && EntryOf(w, i, acc.id) && acc.id in w.rows
    ensures Find(Updated(w, i, acc), k) == if k == acc.id then [Merged(acc, w.entries[i].account)] else Find(w, k)
  {
    DropBindingKeeps(w, i);
    var u := DropBinding(w, i);
    hide DropBinding, UnregisterAccount, IndexOf;
    FindEdited(u, i, Merged(acc, w.entries[i].account), Merged(acc, w.rows[acc.id]), k);
    FindSame(w, u, k);
    hide Inv, Find;
  }

  lemma UpdateAccepted(w: World, i: int, acc: Account, fate: Fate, k: AccountId)
    requires Inv(w) && i == IndexOf(w.entries, acc.id) && i >= 0
    ensures Find(Update(w, acc, true, fate), k) == if k == acc.id then [Merged(acc, w.entries[i].account)] else Find(w, k)
  {
    assert RowAgrees(w, i);
    UpdateShape(w, i, acc, fate);
    UpdatedFit(w, i, acc, fate);
    RegisterFinds(Updated(w, i, acc), acc.id, fate, k);
    UpdatedFinds(w, i, acc, k);
    hide Inv, Find, Update, Updated, RegisterAccount, UnregisterAccount, IndexOf, CanBind, RowAgrees, Merged;
  }

  lemma UpdateFinds(w: World, st: Step, k: AccountId)
    requires Inv(w) && st.UpdateStep?
    ensures Find(Next(w, st), k) == AccountNext(w, st, k)
  {
    var i := IndexOf(w.entries, st.acc.id);
    if i >= 0 && st.updateOk {
      UpdateAccepted(w, i, st.acc, st.fate, k);
      FindAt(w, i, st.acc.id);
      hide Update;
    }
    hide Inv, IndexOf, RegisterAccount, DropBinding;
  }

  lemma SetEnabledFinds(w: World, st: Step, k: AccountId)
    requires Inv(w) && st.SetEnabledStep?
    ensures Find(Next(w, st), k) == AccountNext(w, st, k)
  {
    var SetEnabledStep(id, enabled, updateOk, fate) := st;
    var i := IndexOf(w.entries, id);
    if i >= 0 {
      SetEnabledShape(w, i, id, enabled, updateOk, fate);
      ToggledFit(w, i, id, enabled, fate);
      var mid := Toggled(w, i, enabled);
      RegisterFinds(mid, id, fate, k);
      UnregisterFinds(mid, id, k);
      ToggledFinds(w, i, enabled, k);
      FindAt(w, i, id);
    }
    hide Inv, SetEnabled, Toggled, RegisterAccount, UnregisterAccount, IndexOf, Find, CanBind;
  }

  lemma ToggledFinds(w: World, i: int, enabled: bool, k: AccountId)
    requires Inv(w) && 0 <= i < |w.entries|
    ensures var a := w.entries[i].account.(enabled := enabled);
            Find(Toggled(w, i, enabled), k) == if k == a.id then [a] else Find(w, k)
  {
    var a := w.entries[i].account.(enabled := enabled);
    FindEdited(w, i, a, a, k);
    var t := Edited(w, i, a, a);
    assert t.entries == Toggled(w, i, enabled).entries;
  }

  /** The world in which an account with a new password waits to be registered. */
  function Rekeyed(w: World, i: int, password: string): World
    requires 0 <= i < |w.entries|
  {
    var ref := w.entries[i].account.passwordRef;
    DropBinding(w, i).(keychain := w.keychain[ref := password], cache := w.cache[ref := password])
  }

  lemma RekeyedFit(w: World, i: int, id: AccountId, password: string, fate: Fate)
    requires Inv(w) && i == IndexOf(w.entries, id) && i >= 0
    ensures var mid := Rekeyed(w, i, password);
            && Inv(mid) && SameAccountsIn(w, mid)
            && SetPassword(w, id, password, true, fate)
               == if w.entries[i].account.enabled && (w.entries[i].registered || w.entries[i].account.registerOnStartup)
                  then RegisterAccount(mid, id, fate) else mid
  {
    var ref := w.entries[i].account.passwordRef;
    DropBindingKeeps(w, i);
    DropCommutes(w, i, w.rows, w.keychain[ref := password], w.cache[ref := password]);
    KeychainKeeps(DropBinding(w, i), i, password);
    hide Inv, RegisterAccount, DropBinding, UnregisterAccount;
  }

  lemma SetPasswordFinds(w: World, id: AccountId, password: string, setOk: bool, fate: Fate, k: AccountId)
    requires Inv(w)
    ensures Find(SetPassword(w, id, password, setOk, fate), k) == Find(w, k)
  {
    var i := IndexOf(w.entries, id);
    if i >= 0 && setOk {
      RekeyedFit(w, i, id, password, fate);
      RegisterFinds(Rekeyed(w, i, password), id, fate, k);
      FindSame(w, Rekeyed(w, i, password), k);
      hide SetPassword;
    }
    hide Inv, RegisterAccount, Rekeyed, IndexOf, Find;
  }

  lemma DefaultFinds(w: World, t: World, id: AccountId, k: AccountId)
    requires Distinct(w.entries) && t.entries == DefaultEntries(w.entries, id)
    ensures Find(t, k) == if Find(w, k) == [] then [] else [Find(w, k)[0].(isDefault := k == id)]
  {
    DefaultDistinct(w.entries, id);
    DefaultKnown(w.entries, id, k);
    var j := IndexOf(w.entries, k);
    if j >= 0 { FindAt(t, j, k); }
  }

  lemma SetDefaultFinds(w: World, id: AccountId, outcome: Outcome, k: AccountId)
    requires Inv(w)
    ensures Find(SetDefault(w, id, outcome), k)
            == if outcome == Committed && Find(w, id) != [] && Find(w, k) != [] then [Find(w, k)[0].(isDefault := k == id)] else Find(w, k)
  {
    var t := SetDefault(w, id, outcome);
    if IndexOf(w.entries, id) >= 0 && outcome == Committed { DefaultFinds(w, t, id, k); } else { FindSame(w, t, k); }
    hide Inv;
  }

  lemma RestartFound(w: World, order: seq<AccountId>, i: int, k: AccountId)
    requires Inv(w) && QueryOrder(w.rows, order) && EntryOf(Restart(w, order), i, k)
    ensures k in w.rows && Restart(w, order).entries[i].account == Loaded(w.rows[k])
  {
    RowRef(w, order[i]);
    hide Inv;
  }

  lemma RestartFinds(w: World, order: seq<AccountId>, k: AccountId)
    requires Inv(w) && QueryOrder(w.rows, order)
    ensures Find(Restart(w, order), k) == if Find(w, k) == [] then [] else [Loaded(Find(w, k)[0])]
  {
    var t := Restart(w, order);
    RestartKeeps(w, order);
    assert k in w.rows <==> Known(w, k);
    assert k in t.rows <==> Known(t, k);
    hide IndexOf;
    if Known(w, k) {
      assert RowAgrees(w, IndexOf(w.entries, k));
      RestartFound(w, order, IndexOf(t.entries, k), k);
    }
  }

  /** After every operation find answers exactly this for every account: what was
      asked for reaches the account it was asked for, and no other. */
  lemma AccountExact(w: World, st: Step, k: AccountId)
    requires Inv(w) && Enabled(w, st)
    ensures Find(Next(w, st), k) == AccountNext(w, st, k)
  {
    match st
    case AddStep(_, _, _, _, _, _, _, _) => AddFinds(w, st, k);
    case RemoveStep(_, _, _) => RemoveFinds(w, st, k);
    case UpdateStep(_, _, _) => UpdateFinds(w, st, k);
    case SetEnabledStep(_, _, _, _) => SetEnabledFinds(w, st, k);
    case SetPasswordStep(id, password, setOk, fate) => SetPasswordFinds(w, id, password, setOk, fate, k);
    case SetDefaultStep(id, outcome) => SetDefaultFinds(w, id, outcome, k);
    case RegisterStep(id, fate) => RegisterFinds(w, id, fate, k);
    case UnregisterStep(id) => UnregisterFinds(w, id, k);
    case StartupStep(fate) => StartupFinds(w, 0, fate, k);
    case ReregisterStep(fate) => ReregisterFinds(w, StartupIds(w.entries), fate, k);
    case StartBackendStep => FindSame(w, Next(w, st), k);
    case RemoteRegStep(_) => FindSame(w, Next(w, st), k);
    case DeliverStep(_) => FindSame(w, Next(w, st), k);
    case RestartStep(order) => RestartFinds(w, order, k);
    hide Inv, Find, Restart, Deliver, Add, Remove, Update, SetEnabled, SetPassword, SetDefault, RegisterAccount, UnregisterAccount,
         RegisterStartupFrom, Reregister;
  }

  // -------------------------------------------------------------------------
  // In the keychain
  // -------------------------------------------------------------------------

  function Stored(w: World, ref: string): seq<string> {
    if ref in w.keychain then [w.keychain[ref]] else []
  }

  /** What the keychain has under the reference after the step. */
  function StoredNext(w: World, st: Step, ref: string): seq<string> {
    match st
    case AddStep(acc, password, r, _, setOk, insertOk, eraseOk, _) =>
      if r == ref && setOk
      then if insertOk && !(acc.isDefault && DefaultTaken(w)) then [password] else if eraseOk then [] else [password]
      else Stored(w, ref)
    case RemoveStep(id, eraseOk, _) =>
      if eraseOk && Find(w, id) != [] && Find(w, id)[0].passwordRef == ref then [] else Stored(w, ref)
    case SetPasswordStep(id, password, setOk, _) =>
      if setOk && Find(w, id) != [] && Find(w, id)[0].passwordRef == ref then [password] else Stored(w, ref)
    case _ => Stored(w, ref)
  }

  lemma RegisterStores(w: World, id: AccountId, fate: Fate)
    ensures RegisterAccount(w, id, fate).keychain == w.keychain
  {
    var i := IndexOf(w.entries, id);
    hide IndexOf;
    if i >= 0 && PasswordKnown(w, i, fate) {
      var c := CachePassword(w, w.entries[i].account.passwordRef);
      assert Bind(c, i, c.cache[w.entries[i].account.passwordRef]).keychain == w.keychain;
    }
    hide Bind, CachePassword;
  }

  lemma UnregisterStores(w: World, id: AccountId)
    ensures UnregisterAccount(w, id).keychain == w.keychain
  {
    hide Search;
  }

  lemma {:induction false} StartupStores(w: World, from: nat, fate: Fate)
    requires from <= |w.entries|
    ensures RegisterStartupFrom(w, from, fate).keychain == w.keychain
    decreases |w.entries| - from
  {
    hide RegisterAccount;
    if from < |w.entries| {
      var a := w.entries[from].account;
      RegisterStores(w, a.id, fate);
      StartupStores(if StartsUp(a) then RegisterAccount(w, a.id, fate) else w, from + 1, fate);
    }
  }

  lemma {:induction false} ReregisterStores(w: World, ids: seq<AccountId>, fate: Fate)
    ensures Reregister(w, ids, fate).keychain == w.keychain
    decreases |ids|
  {
    hide RegisterAccount, UnregisterAccount;
    if ids != [] {
      var u := UnregisterAccount(w, ids[0]);
      UnregisterStores(w, ids[0]);
      RegisterStores(u, ids[0], fate);
      ReregisterStores(RegisterAccount(u, ids[0], fate), ids[1..], fate);
    }
  }

  lemma AddStores(w: World, acc: Account, password: string, ref: string, rowId: AccountId,
                  setOk: bool, insertOk: bool, eraseOk: bool, fate: Fate)
    ensures Add(w, acc, password, ref, rowId, setOk, insertOk, eraseOk, fate).keychain
            == if !setOk then w.keychain
               else if insertOk && !(acc.isDefault && DefaultTaken(w)) then w.keychain[ref := password]
               else if eraseOk then w.keychain - {ref}
               else w.keychain[ref := password]
  {
    var a := acc.(id := rowId, passwordRef := ref);
    RegisterStores(Added(w, a, password), rowId, fate);
    assert SomeDefault(w.rows) <==> DefaultTaken(w);
    hide RegisterAccount, SomeDefault, DefaultTaken;
  }

  lemma AddStored(w: World, st: Step, ref: string)
    requires st.AddStep? && Enabled(w, st)
    ensures Stored(Next(w, st), ref) == StoredNext(w, st, ref)
  {
    hide Add, DefaultTaken, FreshRef, Find;
    AddStores(w, st.acc, st.password, st.ref, st.rowId, st.setOk, st.insertOk, st.eraseOk, st.fate);
  }

  lemma UpdateStores(w: World, acc: Account, updateOk: bool, fate: Fate)
    requires Inv(w)
    ensures Update(w, acc, updateOk, fate).keychain == w.keychain
  {
    var i := IndexOf(w.entries, acc.id);
    if i >= 0 && updateOk {
      assert RowAgrees(w, i);
      UpdateShape(w, i, acc, fate);
      DropBindingKeeps(w, i);
      RegisterStores(Updated(w, i, acc), acc.id, fate);
    }
    hide Inv, RegisterAccount, DropBinding, UnregisterAccount, IndexOf;
  }

  lemma SetEnabledStores(w: World, id: AccountId, enabled: bool, updateOk: bool, fate: Fate)
    ensures SetEnabled(w, id, enabled, updateOk, fate).keychain == w.keychain
  {
    var i := IndexOf(w.entries, id);
    SetEnabledShape(w, i, id, enabled, updateOk, fate);
    if i >= 0 {
      RegisterStores(Toggled(w, i, enabled), id, fate);
      UnregisterStores(Toggled(w, i, enabled), id);
    }
    hide SetEnabled, RegisterAccount, UnregisterAccount, IndexOf;
  }

  lemma SetPasswordStores(w: World, id: AccountId, password: string, setOk: bool, fate: Fate)
    requires Inv(w)
    ensures SetPassword(w, id, password, setOk, fate).keychain
            == if setOk && Find(w, id) != [] then w.keychain[Find(w, id)[0].passwordRef := password] else w.keychain
  {
    var i := IndexOf(w.entries, id);
    if i >= 0 && setOk {
      RekeyedFit(w, i, id, password, fate);
      RegisterStores(Rekeyed(w, i, password), id, fate);
      hide SetPassword;
    }
    hide Inv, RegisterAccount, DropBinding, IndexOf;
  }

  lemma SetPasswordStored(w: World, st: Step, ref: string)
    requires Inv(w) && st.SetPasswordStep?
    ensures Stored(Next(w, st), ref) == StoredNext(w, st, ref)
  {
    SetPasswordStores(w, st.id, st.password, st.setOk, st.fate);
    hide Inv, SetPassword, Find;
  }

  lemma RemoveShape(w: World, i: int, id: AccountId, eraseOk: bool, deleteOk: bool)
    requires i == IndexOf(w.entries, id) && i >= 0 && |DropBinding(w, i).entries| == |w.entries|
    ensures var u := DropBinding(w, i);
            Remove(w, id, eraseOk, deleteOk).keychain
            == if eraseOk then u.keychain - {u.entries[i].account.passwordRef} else u.keychain
  {
    hide DropBinding, IndexOf;
  }

  lemma RemoveStores(w: World, id: AccountId, eraseOk: bool, deleteOk: bool)
    requires Inv(w)
    ensures Remove(w, id, eraseOk, deleteOk).keychain
            == if eraseOk && Find(w, id) != [] then w.keychain - {Find(w, id)[0].passwordRef} else w.keychain
  {
    hide Inv, DropBinding, UnregisterAccount, IndexOf;
    var i := IndexOf(w.entries, id);
    if i >= 0 {
      DropBindingKeeps(w, i);
      RemoveShape(w, i, id, eraseOk, deleteOk);
      hide Remove;
    }
  }

  lemma RemoveStored(w: World, st: Step, ref: string)
    requires Inv(w) && st.RemoveStep?
    ensures Stored(Next(w, st), ref) == StoredNext(w, st, ref)
  {
    RemoveStores(w, st.id, st.eraseOk, st.deleteOk);
    hide Inv, Remove, Find;
  }

  lemma BindingStores(w: World, st: Step)
    requires Inv(w) && Enabled(w, st)
    requires st.UpdateStep? || st.SetEnabledStep? || st.RegisterStep? || st.UnregisterStep? || st.StartupStep? || st.ReregisterStep?
    ensures Next(w, st).keychain == w.keychain
  {
    hide Inv, Update, SetEnabled, RegisterAccount, UnregisterAccount, RegisterStartupFrom, Reregister;
    match st
    case UpdateStep(acc, updateOk, fate) => UpdateStores(w, acc, updateOk, fate);
    case SetEnabledStep(id, enabled, updateOk, fate) => SetEnabledStores(w, id, enabled, updateOk, fate);
    case RegisterStep(id, fate) => RegisterStores(w, id, fate);
    case UnregisterStep(id) => UnregisterStores(w, id);
    case StartupStep(fate) => StartupStores(w, 0, fate);
    case ReregisterStep(fate) => ReregisterStores(w, StartupIds(w.entries), fate);
  }

  lemma OtherStores(w: World, st: Step)
    requires Inv(w) && Enabled(w, st) && !st.AddStep? && !st.RemoveStep? && !st.SetPasswordStep?
    ensures Next(w, st).keychain == w.keychain
  {
    hide Inv;
    if st.UpdateStep? || st.SetEnabledStep? || st.RegisterStep? || st.UnregisterStep? || st.StartupStep? || st.ReregisterStep? {
      BindingStores(w, st);
    }
  }

  /** After every operation the keychain has exactly this: a new or changed
      password under the account's own reference, nothing of a removed account if
      erasing works, and everything else as it was. */
  lemma KeychainExact(w: World, st: Step, ref: string)
    requires Inv(w) && Enabled(w, st)
    ensures Stored(Next(w, st), ref) == StoredNext(w, st, ref)
  {
    match st
    case AddStep(_, _, _, _, _, _, _, _) => AddStored(w, st, ref);
    case RemoveStep(_, _, _) => RemoveStored(w, st, ref);
    case SetPasswordStep(_, _, _, _) => SetPasswordStored(w, st, ref);
    case _ => OtherStores(w, st);
    hide Inv, Next, Find;
  }
}
