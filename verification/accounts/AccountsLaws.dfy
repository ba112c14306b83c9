/** Which accounts an operation binds, what it tells the backend about them and
    what it leaves in memory, read off the fields alone. */
module AccountsLaws {
  import opened AccountsSpec
  import opened AccountsInvariant
  import opened AccountsTheorems

  // -------------------------------------------------------------------------
  // Who can be bound
  // -------------------------------------------------------------------------

  predicate EntryOf(w: World, i: int, id: AccountId) {
    0 <= i < |w.entries| && w.entries[i].account.id == id
  }

  predicate PasswordAt(w: World, a: Account, fate: Fate) {
    a.passwordRef in w.cache || (a.passwordRef in w.keychain && a.id !in fate.keyDenied)
  }

  /** The account is known, its password can be had, the backend runs and does not
      refuse it. */
  predicate CanBind(w: World, id: AccountId, fate: Fate) {
    w.running && id !in fate.backendDenied
    && exists i | 0 <= i < |w.entries| :: EntryOf(w, i, id) && PasswordAt(w, w.entries[i].account, fate)
  }

  lemma CanBindAt(w: World, i: int, id: AccountId, fate: Fate)
    requires Distinct(w.entries) && EntryOf(w, i, id)
    ensures CanBind(w, id, fate) <==> w.running && id !in fate.backendDenied && PasswordAt(w, w.entries[i].account, fate)
  {
    if j :| 0 <= j < |w.entries| && EntryOf(w, j, id) && PasswordAt(w, w.entries[j].account, fate) {
      assert j == i;
    }
    if PasswordAt(w, w.entries[i].account, fate) {
      assert EntryOf(w, i, id);
    }
  }

  lemma IndexIs(w: World, i: int, id: AccountId)
    requires Distinct(w.entries) && EntryOf(w, i, id)
    ensures IndexOf(w.entries, id) == i
  {
  }

  /** Nothing but the registered marks and the cached passwords of others has
      changed since `w`. */
  ghost predicate SameFor(w: World, t: World, k: AccountId) {
    && |t.entries| == |w.entries| && (forall i | 0 <= i < |w.entries| :: t.entries[i].account == w.entries[i].account)
    && t.running == w.running && t.keychain == w.keychain && t.rows == w.rows
    && forall i | EntryOf(w, i, k) ::
         (w.entries[i].account.passwordRef in t.cache <==> w.entries[i].account.passwordRef in w.cache)
  }

  lemma SameCanBind(w: World, t: World, k: AccountId, fate: Fate)
    requires SameFor(w, t, k)
    ensures CanBind(t, k, fate) <==> CanBind(w, k, fate)
  {
    if i :| 0 <= i < |w.entries| && EntryOf(w, i, k) && PasswordAt(w, w.entries[i].account, fate) {
      assert EntryOf(t, i, k) && (w.running ==> PasswordAt(t, t.entries[i].account, fate));
    }
    if i :| 0 <= i < |t.entries| && EntryOf(t, i, k) && PasswordAt(t, t.entries[i].account, fate) {
      assert EntryOf(w, i, k) && PasswordAt(w, w.entries[i].account, fate);
    }
  }

  lemma SameForTrans(w: World, t: World, u: World, k: AccountId)
    requires SameFor(w, t, k) && SameFor(t, u, k)
    ensures SameFor(w, u, k)
  {
    forall i | EntryOf(w, i, k)
      ensures w.entries[i].account.passwordRef in u.cache <==> w.entries[i].account.passwordRef in w.cache
    {
      assert EntryOf(t, i, k);
    }
  }

  // -------------------------------------------------------------------------
  // Registering and unregistering
  // -------------------------------------------------------------------------

  lemma Marked(w: World, id: AccountId)
    requires Inv(w)
    ensures var i := IndexOf(w.entries, id);
            if i < 0 then id !in w.backendIds else EntryOf(w, i, id) && (w.entries[i].registered <==> id in w.backendIds)
  {
    var i := IndexOf(w.entries, id);
    if i >= 0 { assert BindingCurrent(w, i); }
    assert id in w.backendIds ==> Known(w, id);
  }

  lemma NoEntry(w: World, id: AccountId, fate: Fate)
    requires IndexOf(w.entries, id) < 0
    ensures !CanBind(w, id, fate)
  {
    forall i ensures !EntryOf(w, i, id) {}
  }

  lemma BindsOwn(w: World, i: int, id: AccountId, fate: Fate)
    requires i == IndexOf(w.entries, id) && i >= 0 && (w.entries[i].registered <==> id in w.backendIds)
    ensures var t := RegisterAccount(w, id, fate);
            && (id in t.backendIds <==>
                  id in w.backendIds
                  || (w.running && id !in fate.backendDenied && PasswordAt(w, w.entries[i].account, fate)))
            && (id in w.backendIds ==> t.backendIds == w.backendIds)
  {
    hide IndexOf, Translate;
    if PasswordKnown(w, i, fate) {
      BindFrame(w, w.entries[i].account.passwordRef, i, id);
      hide Bind, CachePassword;
    }
  }

  lemma BindSame(w: World, i: int, password: string, k: AccountId)
    requires 0 <= i < |w.entries|
    ensures SameFor(w, Bind(w, i, password), k)
  {
    hide Translate;
  }

  lemma CacheSame(w: World, i: int, k: AccountId)
    requires 0 <= i < |w.entries| && (w.entries[i].account.passwordRef in w.cache || w.entries[i].account.passwordRef in w.keychain)
    requires forall j | EntryOf(w, j, k) :: w.entries[j].account.passwordRef != w.entries[i].account.passwordRef
    ensures SameFor(w, CachePassword(w, w.entries[i].account.passwordRef), k)
  {
  }

  lemma SameForSelf(w: World, k: AccountId)
    ensures SameFor(w, w, k)
  {
  }

  lemma RegisterSame(w: World, id: AccountId, fate: Fate, k: AccountId)
    requires Inv(w) && k != id
    ensures SameFor(w, RegisterAccount(w, id, fate), k)
  {
    SameForSelf(w, k);
    var i := IndexOf(w.entries, id);
    if i >= 0 && PasswordKnown(w, i, fate) {
      OtherRefs(w, i, k);
      CacheSame(w, i, k);
      var ref := w.entries[i].account.passwordRef;
      var c := CachePassword(w, ref);
      BindSame(c, i, c.cache[ref], k);
      hide Inv, SameFor, Bind, IndexOf;
      SameForTrans(w, c, Bind(c, i, c.cache[ref]), k);
    }
  }

  /** Registering binds the account exactly if it can be bound, unless it is
      bound already, and touches no other binding. */
  lemma RegisterExact(w: World, id: AccountId, fate: Fate, k: AccountId)
    requires Inv(w)
    ensures var t := RegisterAccount(w, id, fate);
            && (k in t.backendIds <==> k in w.backendIds || (k == id && CanBind(w, id, fate)))
            && (k in w.backendIds ==> k in t.backendIds && t.backendIds[k] == w.backendIds[k])
            && (k !in w.backendIds && k in t.backendIds ==> t.backendIds[k] == w.nextBackendId)
            && t.nextBackendId >= w.nextBackendId
            && (k != id ==> SameFor(w, t, k))
  {
    Marked(w, id);
    var i := IndexOf(w.entries, id);
    RegisterFrame(w, id, fate, k);
    if k != id { RegisterSame(w, id, fate, k); }
    if i < 0 {
      NoEntry(w, id, fate);
      assert RegisterAccount(w, id, fate) == w;
    } else {
      CanBindAt(w, i, id, fate);
      BindsOwn(w, i, id, fate);
    }
    hide Inv, RegisterAccount, CanBind, SameFor, IndexOf, PasswordAt;
  }

  lemma OtherRefs(w: World, i: int, k: AccountId)
    requires Inv(w) && 0 <= i < |w.entries| && w.entries[i].account.id != k
    ensures forall j | EntryOf(w, j, k) :: w.entries[j].account.passwordRef != w.entries[i].account.passwordRef
  {
  }

  lemma UnregisterExact(w: World, id: AccountId, k: AccountId)
    requires Inv(w)
    ensures var t := UnregisterAccount(w, id);
            && (k in t.backendIds <==> k in w.backendIds && k != id)
            && (k in t.backendIds ==> t.backendIds[k] == w.backendIds[k])
            && t.nextBackendId == w.nextBackendId && t.cache == w.cache
            && SameFor(w, t, k)
  {
    Marked(w, id);
    UnregisterFrame(w, id, k);
    UnregisterOwn(w, id);
    hide Inv, UnregisterAccount, IndexOf;
  }

  lemma UnregisterOwn(w: World, id: AccountId)
    requires Inv(w)
    ensures var t := UnregisterAccount(w, id);
            && id !in t.backendIds && t.cache == w.cache && t.keychain == w.keychain && t.running == w.running && t.rows == w.rows
            && |t.entries| == |w.entries| && forall j | 0 <= j < |w.entries| :: t.entries[j].account == w.entries[j].account
  {
    Marked(w, id);
    hide Inv, Translate;
    if Search(w.entries, id, true) < 0 {
      var i := IndexOf(w.entries, id);
      if i >= 0 { assert !Matches(w.entries[i], id, true); }
    }
  }

  // -------------------------------------------------------------------------
  // Every operation
  // -------------------------------------------------------------------------

  predicate Wanted(w: World, k: AccountId) {
    exists i | 0 <= i < |w.entries| ::
      EntryOf(w, i, k) && w.entries[i].account.enabled && w.entries[i].account.registerOnStartup
  }

  lemma WantedAt(w: World, i: int, k: AccountId)
    requires Distinct(w.entries) && EntryOf(w, i, k)
    ensures Wanted(w, k) <==> w.entries[i].account.enabled && w.entries[i].account.registerOnStartup
  {
    if j :| 0 <= j < |w.entries| && EntryOf(w, j, k) && w.entries[j].account.enabled && w.entries[j].account.registerOnStartup {
      assert j == i;
    }
  }

  /** The account `k` is among the first `n` entries and wanted. */
  predicate WantedFrom(w: World, k: AccountId, from: nat) {
    exists i | from <= i < |w.entries| ::
      EntryOf(w, i, k) && w.entries[i].account.enabled && w.entries[i].account.registerOnStartup
  }

  lemma {:induction false} StartupExact(w: World, from: nat, fate: Fate, k: AccountId)
    requires Inv(w) && from <= |w.entries|
    ensures var t := RegisterStartupFrom(w, from, fate);
            && (k in t.backendIds <==> k in w.backendIds || (WantedFrom(w, k, from) && CanBind(w, k, fate)))
            && (k in w.backendIds ==> k in t.backendIds && t.backendIds[k] == w.backendIds[k])
            && (k !in w.backendIds && k in t.backendIds ==> t.backendIds[k] >= w.nextBackendId)
    decreases |w.entries| - from
  {
    hide Inv, RegisterAccount, CanBind, SameFor;
    if from < |w.entries| {
      var a := w.entries[from].account;
      WantedSplit(w, k, from);
      if StartsUp(a) {
        var u := RegisterAccount(w, a.id, fate);
        RegisterExact(w, a.id, fate, k);
        RegisterKeeps(w, a.id, fate);
        StartupExact(u, from + 1, fate, k);
        SameWanted(w, u, k, from + 1, a.id, fate);
        if k != a.id { SameCanBind(w, u, k, fate); }
        else { DistinctWanted(w, k, from); }
      } else {
        StartupExact(w, from + 1, fate, k);
      }
    }
  }

  lemma WantedSplit(w: World, k: AccountId, from: nat)
    requires from < |w.entries|
    ensures WantedFrom(w, k, from) <==> (w.entries[from].account.id == k && StartsUp(w.entries[from].account)) || WantedFrom(w, k, from + 1)
  {
    if i :| from <= i < |w.entries| && EntryOf(w, i, k) && w.entries[i].account.enabled && w.entries[i].account.registerOnStartup {
      assert i == from || i >= from + 1;
    }
    if w.entries[from].account.id == k && StartsUp(w.entries[from].account) { assert EntryOf(w, from, k); }
    if i :| from + 1 <= i < |w.entries| && EntryOf(w, i, k) && w.entries[i].account.enabled && w.entries[i].account.registerOnStartup {
      assert EntryOf(w, i, k);
    }
  }

  lemma DistinctWanted(w: World, k: AccountId, from: nat)
    requires Inv(w) && from < |w.entries| && w.entries[from].account.id == k
    ensures !WantedFrom(w, k, from + 1)
  {
  }

  lemma BindAccounts(w: World, i: int, password: string)
    requires 0 <= i < |w.entries|
    ensures var t := Bind(w, i, password);
            |t.entries| == |w.entries| && forall j | 0 <= j < |w.entries| :: t.entries[j].account == w.entries[j].account
  {
    hide Translate;
  }

  lemma SameAccounts(w: World, id: AccountId, fate: Fate)
    ensures var t := RegisterAccount(w, id, fate);
            |t.entries| == |w.entries| && forall i | 0 <= i < |w.entries| :: t.entries[i].account == w.entries[i].account
  {
    var i := IndexOf(w.entries, id);
    hide IndexOf;
    if i >= 0 && PasswordKnown(w, i, fate) {
      var ref := w.entries[i].account.passwordRef;
      var c := CachePassword(w, ref);
      assert c.entries == w.entries;
      BindAccounts(c, i, c.cache[ref]);
    }
    hide Bind;
  }

  lemma SameWanted(w: World, t: World, k: AccountId, from: nat, id: AccountId, fate: Fate)
    requires t == RegisterAccount(w, id, fate)
    ensures WantedFrom(t, k, from) <==> WantedFrom(w, k, from)
  {
    SameAccounts(w, id, fate);
    hide RegisterAccount;
    if i :| from <= i < |w.entries| && EntryOf(w, i, k) && w.entries[i].account.enabled && w.entries[i].account.registerOnStartup {
      assert EntryOf(t, i, k);
    }
    if i :| from <= i < |t.entries| && EntryOf(t, i, k) && t.entries[i].account.enabled && t.entries[i].account.registerOnStartup {
      assert EntryOf(w, i, k);
    }
  }

  lemma {:induction false} RenewExact(w: World, ids: seq<AccountId>, fate: Fate, k: AccountId)
    requires Inv(w)
    ensures var t := Reregister(w, ids, fate);
            && (k in t.backendIds <==> if k in ids then CanBind(w, k, fate) else k in w.backendIds)
    decreases |ids|
  {
    hide Inv, RegisterAccount, UnregisterAccount, CanBind, SameFor;
    if ids != [] {
      var u := UnregisterAccount(w, ids[0]);
      var v := RegisterAccount(u, ids[0], fate);
      UnregisterExact(w, ids[0], k);
      UnregisterKeeps(w, ids[0]);
      RegisterExact(u, ids[0], fate, k);
      RegisterKeeps(u, ids[0], fate);
      SameCanBind(w, u, k, fate);
      RenewExact(v, ids[1..], fate, k);
      if k != ids[0] { SameCanBind(u, v, k, fate); }
      else if k in ids[1..] { StillCanBind(u, ids[0], fate); }
      assert k in ids <==> k == ids[0] || k in ids[1..];
    }
  }

  /** Registering an account does not make it less or more fit to be bound. */
  lemma StillCanBind(w: World, id: AccountId, fate: Fate)
    requires Inv(w)
    ensures CanBind(RegisterAccount(w, id, fate), id, fate) <==> CanBind(w, id, fate)
  {
    var t := RegisterAccount(w, id, fate);
    RegisterKeeps(w, id, fate);
    SameAccounts(w, id, fate);
    var i := IndexOf(w.entries, id);
    if i < 0 {
      assert t == w;
    } else {
      assert EntryOf(w, i, id) && EntryOf(t, i, id);
      CanBindAt(w, i, id, fate);
      CanBindAt(t, i, id, fate);
      PasswordStays(w, id, fate, i);
    }
    hide Inv, RegisterAccount, CanBind;
  }

  lemma PasswordStays(w: World, id: AccountId, fate: Fate, i: int)
    requires i == IndexOf(w.entries, id) && i >= 0
    ensures var t := RegisterAccount(w, id, fate);
            |t.entries| == |w.entries| && t.running == w.running
            && (PasswordAt(t, w.entries[i].account, fate) <==> PasswordAt(w, w.entries[i].account, fate))
  {
    hide IndexOf, Translate;
    if PasswordKnown(w, i, fate) {
      var ref := w.entries[i].account.passwordRef;
      var c := CachePassword(w, ref);
      BindAccounts(c, i, c.cache[ref]);
      assert Bind(c, i, c.cache[ref]).cache == c.cache && Bind(c, i, c.cache[ref]).running == w.running;
    }
    hide Bind;
  }

  lemma {:induction false} TargetsAreWanted(w: World, entries: seq<Entry>, k: AccountId)
    ensures k in StartupIds(entries)
            <==> exists i | 0 <= i < |entries| :: entries[i].account.id == k && StartsUp(entries[i].account)
  {
    if entries != [] {
      var rest := entries[1..];
      TargetsAreWanted(w, rest, k);
      assert forall i | 0 < i < |entries| :: entries[i] == rest[i - 1];
      if i :| 0 <= i < |rest| && rest[i].account.id == k && StartsUp(rest[i].account) {
        assert entries[i + 1].account.id == k && StartsUp(entries[i + 1].account);
      }
      if i :| 0 <= i < |entries| && entries[i].account.id == k && StartsUp(entries[i].account) {
        assert i == 0 || (rest[i - 1].account.id == k && StartsUp(rest[i - 1].account));
      }
    }
  }

  lemma WantedIsTarget(w: World, k: AccountId)
    ensures k in StartupIds(w.entries) <==> Wanted(w, k)
    ensures WantedFrom(w, k, 0) <==> Wanted(w, k)
  {
    TargetsAreWanted(w, w.entries, k);
    if i :| 0 <= i < |w.entries| && w.entries[i].account.id == k && StartsUp(w.entries[i].account) {
      assert EntryOf(w, i, k);
    }
    if i :| 0 <= i < |w.entries| && EntryOf(w, i, k) && w.entries[i].account.enabled && w.entries[i].account.registerOnStartup {
      assert w.entries[i].account.id == k && StartsUp(w.entries[i].account);
    }
  }

  predicate DefaultTaken(w: World) {
    exists k | k in w.rows :: w.rows[k].isDefault
  }

  predicate Listed(w: World, k: AccountId) {
    exists i | 0 <= i < |w.entries| :: EntryOf(w, i, k)
  }

  predicate EnabledAccount(w: World, k: AccountId) {
    exists i | 0 <= i < |w.entries| :: EntryOf(w, i, k) && w.entries[i].account.enabled
  }

  /** The account is bound after the step. */
  predicate BoundNext(w: World, st: Step, k: AccountId) {
    match st
    case AddStep(acc, _, _, rowId, setOk, insertOk, _, fate) =>
      if k == rowId then
        setOk && insertOk && !(acc.isDefault && DefaultTaken(w)) && acc.enabled && acc.registerOnStartup
        && w.running && k !in fate.backendDenied
      else k in w.backendIds
    case RemoveStep(id, _, _) => k in w.backendIds && k != id
    case UpdateStep(acc, updateOk, fate) =>
      if k == acc.id && updateOk && Listed(w, k)
      then acc.enabled && (k in w.backendIds || acc.registerOnStartup) && CanBind(w, k, fate)
      else k in w.backendIds
    case SetEnabledStep(id, enabled, updateOk, fate) =>
      if k == id && updateOk && Listed(w, k) && EnabledAccount(w, k) != enabled
      then enabled && (k in w.backendIds || CanBind(w, k, fate))
      else k in w.backendIds
    case SetPasswordStep(id, _, setOk, fate) =>
      if k == id && setOk && Listed(w, k)
      then EnabledAccount(w, k) && (k in w.backendIds || Wanted(w, k)) && w.running && k !in fate.backendDenied
      else k in w.backendIds
    case RegisterStep(id, fate) => k in w.backendIds || (k == id && CanBind(w, k, fate))
    case UnregisterStep(id) => k in w.backendIds && k != id
    case StartupStep(fate) => k in w.backendIds || (Wanted(w, k) && CanBind(w, k, fate))
    case ReregisterStep(fate) => if Wanted(w, k) then CanBind(w, k, fate) else k in w.backendIds
    case RestartStep(_) => false
    case _ => k in w.backendIds
  }

  lemma ListedAt(w: World, k: AccountId)
    ensures Listed(w, k) <==> IndexOf(w.entries, k) >= 0
  {
    var i := IndexOf(w.entries, k);
    if i >= 0 { assert EntryOf(w, i, k); }
    if j :| 0 <= j < |w.entries| && EntryOf(w, j, k) { assert w.entries[j].account.id == k; }
  }

  lemma EnabledAt(w: World, i: int, k: AccountId)
    requires Distinct(w.entries) && EntryOf(w, i, k)
    ensures EnabledAccount(w, k) <==> w.entries[i].account.enabled
  {
    if j :| 0 <= j < |w.entries| && EntryOf(w, j, k) && w.entries[j].account.enabled { assert j == i; }
  }

  /** The world in which an accepted new account waits to be registered. */
  function Added(w: World, a: Account, password: string): World {
    w.(keychain := w.keychain[a.passwordRef := password], rows := w.rows[a.id := a],
       entries := w.entries + [Entry(a, false)], cache := w.cache[a.passwordRef := password])
  }

  lemma AddedFit(w: World, a: Account, password: string, fate: Fate)
    requires Inv(w) && a.id >= 1 && a.id !in w.rows && FreshRef(w, a.passwordRef) && (a.isDefault ==> !SomeDefault(w.rows))
    ensures var t := Added(w, a, password);
            Inv(t) && (CanBind(t, a.id, fate) <==> w.running && a.id !in fate.backendDenied)
  {
    var t := Added(w, a, password);
    AppendKeeps(w, a, password);
    assert EntryOf(t, |w.entries|, a.id);
    CanBindAt(t, |w.entries|, a.id, fate);
    hide Inv, CanBind, FreshRef;
  }

  lemma AddShape(w: World, acc: Account, password: string, ref: string, rowId: AccountId,
                 setOk: bool, insertOk: bool, eraseOk: bool, fate: Fate)
    ensures var a := acc.(id := rowId, passwordRef := ref);
            var t := Add(w, acc, password, ref, rowId, setOk, insertOk, eraseOk, fate);
            if setOk && insertOk && !(acc.isDefault && DefaultTaken(w)) then
              t == if acc.enabled && acc.registerOnStartup then RegisterAccount(Added(w, a, password), rowId, fate)
                   else Added(w, a, password)
            else t.backendIds == w.backendIds && t.nextBackendId == w.nextBackendId
  {
    assert SomeDefault(w.rows) <==> DefaultTaken(w);
    hide RegisterAccount, SomeDefault, DefaultTaken;
  }

  /** A binding that stays has its backend account, a new one the next. */
  predicate IdFor(w: World, t: World, k: AccountId) {
    k in t.backendIds ==> t.backendIds[k] == if k in w.backendIds then w.backendIds[k] else w.nextBackendId
  }

  /** A binding that is renewed gets the next backend account. */
  predicate NewIdFor(w: World, t: World, k: AccountId) {
    k in t.backendIds ==> t.backendIds[k] == w.nextBackendId
  }

  /** A waiting world is as good as its registration. */
  lemma Waiting(w: World, mid: World, id: AccountId, fate: Fate, k: AccountId)
    requires Inv(mid) && mid.backendIds == w.backendIds && mid.nextBackendId == w.nextBackendId
    ensures k in RegisterAccount(mid, id, fate).backendIds <==> k in w.backendIds || (k == id && CanBind(mid, id, fate))
    ensures k in UnregisterAccount(mid, id).backendIds <==> k in w.backendIds && k != id
    ensures IdFor(w, RegisterAccount(mid, id, fate), k) && IdFor(w, UnregisterAccount(mid, id), k)
  {
    RegisterExact(mid, id, fate, k);
    UnregisterExact(mid, id, k);
    hide Inv, RegisterAccount, UnregisterAccount, CanBind, SameFor;
  }

  lemma AddBound(w: World, acc: Account, password: string, ref: string, rowId: AccountId,
                 setOk: bool, insertOk: bool, eraseOk: bool, fate: Fate, k: AccountId)
    requires Inv(w) && FreshRef(w, ref) && rowId >= 1 && rowId !in w.rows
    ensures k in Add(w, acc, password, ref, rowId, setOk, insertOk, eraseOk, fate).backendIds
            <==> if k == rowId then
                   setOk && insertOk && !(acc.isDefault && DefaultTaken(w)) && acc.enabled && acc.registerOnStartup
                   && w.running && k !in fate.backendDenied
                 else k in w.backendIds
    ensures IdFor(w, Add(w, acc, password, ref, rowId, setOk, insertOk, eraseOk, fate), k)
  {
    var a := acc.(id := rowId, passwordRef := ref);
    UnknownRow(w, rowId);
    AddShape(w, acc, password, ref, rowId, setOk, insertOk, eraseOk, fate);
    assert SomeDefault(w.rows) <==> DefaultTaken(w);
    var mid := Added(w, a, password);
    assert mid.backendIds == w.backendIds && mid.nextBackendId == w.nextBackendId;
    hide Inv, Add, Added, RegisterAccount, UnregisterAccount, CanBind, FreshRef, SomeDefault, DefaultTaken;
    if setOk && insertOk && !(acc.isDefault && DefaultTaken(w)) {
      AddedFit(w, a, password, fate);
      Waiting(w, mid, rowId, fate, k);
    }
  }

  lemma UnknownRow(w: World, id: AccountId)
    requires Inv(w) && id !in w.rows
    ensures id !in w.backendIds
  {
    assert id in w.backendIds ==> Known(w, id);
  }

  /** The world in which an updated account, unregistered, waits to be registered
      again. */
  function Updated(w: World, i: int, acc: Account): World
    requires 0 <= i < |w.entries| && acc.id in w.rows
  {
    var t := DropBinding(w, i);
    if i < |t.entries|
    then Edited(t, i, Merged(acc, w.entries[i].account), Merged(acc, w.rows[acc.id]))
    else t
  }

  lemma UpdateShape(w: World, i: int, acc: Account, fate: Fate)
    requires Inv(w) && i == IndexOf(w.entries, acc.id) && i >= 0 && acc.id in w.rows
    ensures var mid := Updated(w, i, acc);
            Update(w, acc, true, fate)
            == if acc.enabled && (w.entries[i].registered || acc.registerOnStartup) then RegisterAccount(mid, acc.id, fate) else mid
  {
    DropBindingKeeps(w, i);
    DropCommutes(w, i, w.rows[acc.id := Merged(acc, w.rows[acc.id])], w.keychain, w.cache);
    hide Inv, RegisterAccount, UnregisterAccount, DropBinding;
  }

  lemma UpdatedFit(w: World, i: int, acc: Account, fate: Fate)
    requires Inv(w) && EntryOf(w, i, acc.id) && acc.id in w.rows
    ensures var mid := Updated(w, i, acc);
            && Inv(mid) && mid.backendIds == UnregisterAccount(w, acc.id).backendIds && mid.nextBackendId == w.nextBackendId
            && (CanBind(mid, acc.id, fate) <==> CanBind(w, acc.id, fate))
  {
    assert RowAgrees(w, i);
    DropBindingKeeps(w, i);
    EditKeeps(DropBinding(w, i), i, Merged(acc, w.entries[i].account), Merged(acc, w.rows[acc.id]));
    UnregisterExact(w, acc.id, acc.id);
    MidCanBind(w, Updated(w, i, acc), i, acc.id, fate);
    hide Inv, CanBind, UnregisterAccount, DropBinding;
  }

  lemma UpdateBound(w: World, acc: Account, updateOk: bool, fate: Fate, k: AccountId)
    requires Inv(w)
    ensures k in Update(w, acc, updateOk, fate).backendIds
            <==> if k == acc.id && updateOk && Listed(w, k)
                 then acc.enabled && (k in w.backendIds || acc.registerOnStartup) && CanBind(w, k, fate)
                 else k in w.backendIds
    ensures var t := Update(w, acc, updateOk, fate);
            if k == acc.id && updateOk && Listed(w, k) then NewIdFor(w, t, k) else IdFor(w, t, k)
  {
    var i := IndexOf(w.entries, acc.id);
    ListedAt(w, acc.id);
    Marked(w, acc.id);
    if i >= 0 && updateOk {
      assert RowAgrees(w, i);
      UpdateShape(w, i, acc, fate);
      UpdatedFit(w, i, acc, fate);
      UnregisterExact(w, acc.id, k);
      var t := UnregisterAccount(w, acc.id);
      Waiting(t, Updated(w, i, acc), acc.id, fate, k);
    }
    hide Inv, Update, Updated, RegisterAccount, UnregisterAccount, CanBind, SameFor, IndexOf, Listed, PasswordAt;
  }

  /** An edit of the account that leaves its id and its reference alone. */
  lemma MidCanBind(w: World, mid: World, i: int, id: AccountId, fate: Fate)
    requires Inv(w) && Inv(mid) && EntryOf(w, i, id) && EntryOf(mid, i, id)
    requires mid.entries[i].account.passwordRef == w.entries[i].account.passwordRef
    requires mid.running == w.running && mid.keychain == w.keychain && mid.cache == w.cache
    ensures CanBind(mid, id, fate) <==> CanBind(w, id, fate)
  {
    CanBindAt(w, i, id, fate);
    CanBindAt(mid, i, id, fate);
  }

  lemma SetEnabledShape(w: World, i: int, id: AccountId, enabled: bool, updateOk: bool, fate: Fate)
    requires i == IndexOf(w.entries, id)
    ensures var t := SetEnabled(w, id, enabled, updateOk, fate);
            if i >= 0 && w.entries[i].account.enabled != enabled && updateOk then
              t == if enabled then RegisterAccount(Toggled(w, i, enabled), id, fate) else UnregisterAccount(Toggled(w, i, enabled), id)
            else t == w
  {
    hide RegisterAccount, UnregisterAccount, IndexOf;
  }

  lemma SetEnabledBound(w: World, id: AccountId, enabled: bool, updateOk: bool, fate: Fate, k: AccountId)
    requires Inv(w)
    ensures k in SetEnabled(w, id, enabled, updateOk, fate).backendIds
            <==> if k == id && updateOk && Listed(w, k) && EnabledAccount(w, k) != enabled
                 then enabled && (k in w.backendIds || CanBind(w, k, fate))
                 else k in w.backendIds
    ensures IdFor(w, SetEnabled(w, id, enabled, updateOk, fate), k)
  {
    var i := IndexOf(w.entries, id);
    ListedAt(w, id);
    SetEnabledShape(w, i, id, enabled, updateOk, fate);
    if i >= 0 {
      EnabledAt(w, i, id);
      ToggledFit(w, i, id, enabled, fate);
      Waiting(w, Toggled(w, i, enabled), id, fate, k);
    }
    hide Inv, SetEnabled, Toggled, RegisterAccount, UnregisterAccount, CanBind, IndexOf, Listed, EnabledAccount;
  }

  /** Row and entry of an account, switched on or off. */
  function Toggled(w: World, i: int, enabled: bool): World
    requires 0 <= i < |w.entries|
  {
    var a := w.entries[i].account;
    w.(rows := if a.id in w.rows then w.rows[a.id := w.rows[a.id].(enabled := enabled)] else w.rows,
       entries := w.entries[i := w.entries[i].(account := a.(enabled := enabled))])
  }

  lemma ToggledFit(w: World, i: int, id: AccountId, enabled: bool, fate: Fate)
    requires Inv(w) && EntryOf(w, i, id)
    ensures var t := Toggled(w, i, enabled);
            Inv(t) && t.backendIds == w.backendIds && t.nextBackendId == w.nextBackendId
            && (CanBind(t, id, fate) <==> CanBind(w, id, fate))
  {
    assert RowAgrees(w, i);
    var a, row := w.entries[i].account.(enabled := enabled), w.rows[id].(enabled := enabled);
    EditKeeps(w, i, a, row);
    MidCanBind(w, Toggled(w, i, enabled), i, id, fate);
    hide Inv, CanBind;
  }

  lemma SetPasswordBound(w: World, st: Step, k: AccountId)
    requires Inv(w) && st.SetPasswordStep?
    ensures k in Next(w, st).backendIds <==> BoundNext(w, st, k)
    ensures if Renews(w, st, k) then NewIdFor(w, Next(w, st), k) else IdFor(w, Next(w, st), k)
  {
    var SetPasswordStep(id, password, setOk, fate) := st;
    var i := IndexOf(w.entries, id);
    ListedAt(w, id);
    if i >= 0 && setOk {
      var ref := w.entries[i].account.passwordRef;
      EnabledAt(w, i, id);
      WantedAt(w, i, id);
      DropBindingKeeps(w, i);
      var u := DropBinding(w, i);
      DropCommutes(w, i, w.rows, w.keychain[ref := password], w.cache[ref := password]);
      var mid := u.(keychain := w.keychain[ref := password], cache := w.cache[ref := password]);
      KeychainKeeps(u, i, password);
      UnregisterExact(w, id, k);
      RegisterExact(mid, id, fate, k);
      Marked(w, id);
      CanBindAt(mid, i, id, fate);
    }
    hide Inv, RegisterAccount, UnregisterAccount, DropBinding, CanBind, SameFor, IndexOf;
  }

  lemma RemoveBound(w: World, st: Step, k: AccountId)
    requires Inv(w) && st.RemoveStep?
    ensures k in Next(w, st).backendIds <==> BoundNext(w, st, k)
    ensures IdFor(w, Next(w, st), k)
  {
    var i := IndexOf(w.entries, st.id);
    Marked(w, st.id);
    if i >= 0 {
      DropBindingKeeps(w, i);
      UnregisterExact(w, st.id, k);
    }
    hide Inv, UnregisterAccount, DropBinding, SameFor, IndexOf;
  }

  /** The step gives the account a new backend account, if it can. */
  predicate Renews(w: World, st: Step, k: AccountId) {
    match st
    case UpdateStep(acc, updateOk, _) => k == acc.id && updateOk && Listed(w, k)
    case SetPasswordStep(id, _, setOk, _) => k == id && setOk && Listed(w, k)
    case ReregisterStep(_) => Wanted(w, k)
    case _ => false
  }

  /** What a step makes of the binding of one account. */
  predicate BindingNext(w: World, st: Step, k: AccountId, t: World) {
    && (k in t.backendIds <==> BoundNext(w, st, k))
    && (k in t.backendIds ==>
          if k in w.backendIds && !Renews(w, st, k) then t.backendIds[k] == w.backendIds[k]
          else if st.StartupStep? || st.ReregisterStep? then t.backendIds[k] >= w.nextBackendId
          else t.backendIds[k] == w.nextBackendId)
  }

  lemma AddBinding(w: World, st: Step, k: AccountId)
    requires Inv(w) && Enabled(w, st) && st.AddStep?
    ensures BindingNext(w, st, k, Next(w, st))
  {
    AddBound(w, st.acc, st.password, st.ref, st.rowId, st.setOk, st.insertOk, st.eraseOk, st.fate, k);
    hide Inv, Add, DefaultTaken;
  }

  lemma UpdateBinding(w: World, st: Step, k: AccountId)
    requires Inv(w) && st.UpdateStep?
    ensures BindingNext(w, st, k, Next(w, st))
  {
    UpdateBound(w, st.acc, st.updateOk, st.fate, k);
    hide Inv, Update, CanBind, Listed;
  }

  lemma SetEnabledBinding(w: World, st: Step, k: AccountId)
    requires Inv(w) && st.SetEnabledStep?
    ensures BindingNext(w, st, k, Next(w, st))
  {
    SetEnabledBound(w, st.id, st.enabled, st.updateOk, st.fate, k);
    hide Inv, SetEnabled, CanBind, Listed, EnabledAccount;
  }

  /** After every operation, under any combination of failures: exactly these
      accounts are bound; a binding keeps its backend account unless it is renewed,
      and a new one was never used before. */
  lemma BoundExact(w: World, st: Step, k: AccountId)
    requires Inv(w) && Enabled(w, st)
    ensures BindingNext(w, st, k, Next(w, st))
  {
    match st
    case AddStep(_, _, _, _, _, _, _, _) => AddBinding(w, st, k);
    case RemoveStep(_, _, _) => RemoveBound(w, st, k);
    case UpdateStep(_, _, _) => UpdateBinding(w, st, k);
    case SetEnabledStep(_, _, _, _) => SetEnabledBinding(w, st, k);
    case SetPasswordStep(_, _, _, _) => SetPasswordBound(w, st, k);
    case _ => OtherBound(w, st, k);
    hide Inv, Enabled, Next, BoundNext;
  }

  lemma OtherBound(w: World, st: Step, k: AccountId)
    requires Inv(w) && Enabled(w, st)
    requires !st.AddStep? && !st.RemoveStep? && !st.UpdateStep? && !st.SetEnabledStep? && !st.SetPasswordStep?
    ensures k in Next(w, st).backendIds <==> BoundNext(w, st, k)
    ensures var t := Next(w, st);
            k in t.backendIds ==>
              if k in w.backendIds && !Renews(w, st, k) then t.backendIds[k] == w.backendIds[k]
              else if st.StartupStep? || st.ReregisterStep? then t.backendIds[k] >= w.nextBackendId
              else t.backendIds[k] == w.nextBackendId
  {
    hide RegisterAccount, UnregisterAccount, CanBind, SameFor, IndexOf;
    WantedIsTarget(w, k);
    match st
    case RegisterStep(id, fate) => RegisterExact(w, id, fate, k);
    case UnregisterStep(id) => UnregisterExact(w, id, k);
    case StartupStep(fate) => StartupExact(w, 0, fate, k);
    case ReregisterStep(fate) =>
      RenewExact(w, StartupIds(w.entries), fate, k);
      ReregisterRenews(w, StartupIds(w.entries), fate, k);
    case _ =>
    hide Inv;
  }
}
