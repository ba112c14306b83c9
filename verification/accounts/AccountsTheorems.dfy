/** What holds after every run of account operations, whatever fails in it. */
module AccountsTheorems {
  import opened AccountsSpec
  import opened AccountsInvariant

  /** An entry is marked registered exactly if it is bound, and every binding
      works with the present account fields and the present keychain password. */
  lemma NoStaleBinding(steps: seq<Step>, i: nat)
    requires IsRun(EMPTY_WORLD, steps) && i < |Run(EMPTY_WORLD, steps).entries|
    ensures var w := Run(EMPTY_WORLD, steps);
            var a := w.entries[i].account;
            && (w.entries[i].registered <==> a.id in w.backendIds)
            && (a.id in w.backendIds ==>
                  && w.backendIds[a.id] in w.bound
                  && a.passwordRef in w.keychain
                  && w.bound[w.backendIds[a.id]] == Translate(a.profile, w.keychain[a.passwordRef]))
  {
    Reachable(steps);
    assert BindingCurrent(Run(EMPTY_WORLD, steps), i);
  }

  /** Only known accounts are bound, no two share a backend account, the backend
      has no account nobody is bound to, and the cached passwords are those of
      the keychain. */
  lemma BindingsAreExact(steps: seq<Step>)
    requires IsRun(EMPTY_WORLD, steps)
    ensures var w := Run(EMPTY_WORLD, steps);
            && (forall k | k in w.backendIds :: IndexOf(w.entries, k) >= 0)
            && (forall j, k | j in w.backendIds && k in w.backendIds && w.backendIds[j] == w.backendIds[k] :: j == k)
            && (forall b :: b in w.bound <==> exists k :: BoundTo(w, k, b))
            && (forall r | r in w.cache :: r in w.keychain && w.cache[r] == w.keychain[r])
  {
    Reachable(steps);
    var w := Run(EMPTY_WORLD, steps);
    forall k | k in w.backendIds ensures IndexOf(w.entries, k) >= 0 { assert Known(w, k); }
  }

  /** Registration state and last error are the event map folded over exactly
      the events delivered to the present binding; without a binding they are
      "unregistered" and "no error". */
  lemma RegistrationIsFold(steps: seq<Step>, id: AccountId)
    requires IsRun(EMPTY_WORLD, steps)
    ensures var w := Run(EMPTY_WORLD, steps);
            RegStatus(StateOf(w, id), LastRegErrorOf(w, id))
            == if id in w.backendIds then Fold(History(w, w.backendIds[id])) else RegStatus(Unregistered, NO_ERROR)
  {
    Reachable(steps);
    assert StatusIsFold(Run(EMPTY_WORLD, steps), id);
  }

  predicate Succeeds(e: RegEvent) {
    e.active && Is2xx(e.code)
  }

  predicate Fails(e: RegEvent) {
    e.code != 0 && !Is2xx(e.code)
  }

  /** Event `i` failed with `error`; nothing after it failed or succeeded. */
  ghost predicate IsLastFailure(events: seq<RegEvent>, i: nat, error: RegError)
    requires i < |events|
  {
    error == RegError(events[i].code, events[i].reason) && Fails(events[i])
    && forall j | i < j < |events| :: !Fails(events[j]) && !Succeeds(events[j])
  }

  /** Registered means no error is shown; failed means the last response was
      neither a success nor mere progress. */
  lemma {:induction false} FoldMeaning(events: seq<RegEvent>)
    ensures var f := Fold(events);
            && (f.state == Registered ==> f.error == NO_ERROR)
            && (f.state == Failed ==> f.error.code != 0 && !Is2xx(f.error.code))
            && (events == [] ==> f == FRESH)
            && (f.error != NO_ERROR ==> exists i | 0 <= i < |events| :: IsLastFailure(events, i, f.error))
  {
    if events != [] {
      var n := |events| - 1;
      FoldMeaning(events[..n]);
      var before, f := Fold(events[..n]), Fold(events);
      if f.state == Failed {
        assert IsLastFailure(events, n, f.error);
      } else if f.error != NO_ERROR {
        var i :| 0 <= i < n && IsLastFailure(events[..n], i, before.error);
        forall j | i < j < |events| ensures !Fails(events[j]) && !Succeeds(events[j]) {
          if j < n { assert events[j] == events[..n][j]; }
        }
        assert IsLastFailure(events, i, f.error);
      }
    }
  }

  lemma StatusMeaning(steps: seq<Step>, id: AccountId)
    requires IsRun(EMPTY_WORLD, steps)
    ensures var w := Run(EMPTY_WORLD, steps);
            && (StateOf(w, id) == Registered ==> id in w.backendIds && LastRegErrorOf(w, id) == NO_ERROR)
            && (StateOf(w, id) == Failed ==>
                  id in w.backendIds && LastRegErrorOf(w, id).code != 0 && !Is2xx(LastRegErrorOf(w, id).code))
  {
    var w := Run(EMPTY_WORLD, steps);
    RegistrationIsFold(steps, id);
    if id in w.backendIds { FoldMeaning(History(w, w.backendIds[id])); }
  }

  /** A queued event of a binding that is gone only leaves the queue: it
      changes neither what is shown nor the history of any binding. And once
      gone, a binding stays gone, because backend ids are never reused. */
  lemma StaleEventsChangeNothing(steps: seq<Step>, owner: AccountId)
    requires IsRun(EMPTY_WORLD, steps) && Enabled(Run(EMPTY_WORLD, steps), DeliverStep(owner))
    requires Run(EMPTY_WORLD, steps).queue[0].backendId !in Run(EMPTY_WORLD, steps).bound
    ensures var w := Run(EMPTY_WORLD, steps);
            Next(w, DeliverStep(owner)) == w.(queue := w.queue[1..])
  {
    Reachable(steps);
    var w := Run(EMPTY_WORLD, steps);
    OwnedIsBound(w, w.queue[0].backendId, owner);
  }

  lemma OwnedIsBound(w: World, b: BackendAccountId, owner: AccountId)
    requires BindingsExact(w)
    ensures IsOwner(w, b, owner) && owner != INVALID_ACCOUNT ==> b in w.bound
  {
  }

  lemma UnregisterFrame(w: World, first: AccountId, id: AccountId)
    ensures var t := UnregisterAccount(w, first);
            && t.nextBackendId == w.nextBackendId
            && (id != first ==> (id in t.backendIds <==> id in w.backendIds)
                                && (id in t.backendIds ==> t.backendIds[id] == w.backendIds[id]))
  {
  }

  lemma RegisterFrame(w: World, first: AccountId, fate: Fate, id: AccountId)
    ensures var t := RegisterAccount(w, first, fate);
            && t.nextBackendId >= w.nextBackendId
            && (id != first ==> (id in t.backendIds <==> id in w.backendIds)
                                && (id in t.backendIds ==> t.backendIds[id] == w.backendIds[id]))
            && (id == first && id !in w.backendIds && id in t.backendIds ==> t.backendIds[id] == w.nextBackendId)
  {
    hide Translate, CachePassword, Bind, IndexOf;
    var i := IndexOf(w.entries, first);
    if i >= 0 && PasswordKnown(w, i, fate) {
      BindFrame(w, w.entries[i].account.passwordRef, i, first);
    }
  }

  lemma BindFrame(w: World, ref: string, i: nat, first: AccountId)
    requires i < |w.entries| && w.entries[i].account.id == first && (ref in w.cache || ref in w.keychain)
    ensures var c := CachePassword(w, ref);
            && c.backendIds == w.backendIds && c.nextBackendId == w.nextBackendId && c.entries == w.entries
            && ref in c.cache
            && var t := Bind(c, i, c.cache[ref]);
               t.nextBackendId == w.nextBackendId + 1 && t.backendIds == w.backendIds[first := w.nextBackendId]
  {
    hide Translate;
  }

  lemma RenewOne(w: World, first: AccountId, fate: Fate, id: AccountId)
    requires Inv(w)
    ensures var t := RegisterAccount(UnregisterAccount(w, first), first, fate);
            && t.nextBackendId >= w.nextBackendId
            && (id != first ==> (id in t.backendIds <==> id in w.backendIds)
                                && (id in t.backendIds ==> t.backendIds[id] == w.backendIds[id]))
            && (id == first && id in t.backendIds ==> t.backendIds[id] == w.nextBackendId)
  {
    UnregisterKeeps(w, first);
    hide Inv, RegisterAccount, UnregisterAccount;
    UnregisterFrame(w, first, id);
    RegisterFrame(UnregisterAccount(w, first), first, fate, id);
  }

  /** Re-registering gives the listed accounts new backend accounts, if any, and
      leaves the bindings of all others alone. */
  lemma {:induction false} ReregisterRenews(w: World, ids: seq<AccountId>, fate: Fate, id: AccountId)
    requires Inv(w)
    ensures var t := Reregister(w, ids, fate);
            && (id !in ids ==> (id in t.backendIds <==> id in w.backendIds)
                               && (id in t.backendIds ==> t.backendIds[id] == w.backendIds[id]))
            && (id in ids && id in t.backendIds ==> t.backendIds[id] >= w.nextBackendId)
    decreases |ids|
  {
    hide Inv, RegisterAccount, UnregisterAccount;
    if ids != [] {
      var next := RegisterAccount(UnregisterAccount(w, ids[0]), ids[0], fate);
      RenewOne(w, ids[0], fate, id);
      UnregisterKeeps(w, ids[0]);
      RegisterKeeps(UnregisterAccount(w, ids[0]), ids[0], fate);
      ReregisterRenews(next, ids[1..], fate, id);
    }
  }

  /** So whatever is still queued for a replaced binding has become stale. */
  lemma ReregisterMakesStale(w: World, ids: seq<AccountId>, fate: Fate, id: AccountId)
    requires Inv(w) && id in ids && id in w.backendIds
    ensures w.backendIds[id] !in Reregister(w, ids, fate).bound
  {
    var t, b := Reregister(w, ids, fate), w.backendIds[id];
    ReregisterKeeps(w, ids, fate);
    forall k ensures !BoundTo(t, k, b) { ReregisterRenews(w, ids, fate, k); }
  }

  // -------------------------------------------------------------------------
  // Storage
  // -------------------------------------------------------------------------

  /** What find(id) answers. */
  function Find(w: World, id: AccountId): seq<Account> {
    var i := IndexOf(w.entries, id);
    if i < 0 then [] else [w.entries[i].account]
  }

  /** Table and memory hold the same accounts, up to the label a load fills in,
      with at most one default. */
  lemma StorageAgrees(steps: seq<Step>, id: AccountId)
    requires IsRun(EMPTY_WORLD, steps)
    ensures var w := Run(EMPTY_WORLD, steps);
            && (id in w.rows <==> Find(w, id) != [])
            && (id in w.rows ==> w.rows[id].id == id && Loaded(w.rows[id]) == Loaded(Find(w, id)[0]))
            && (forall i, j | 0 <= i < j < |w.entries| ::
                  && w.entries[i].account.id != w.entries[j].account.id
                  && !(w.entries[i].account.isDefault && w.entries[j].account.isDefault))
  {
    Reachable(steps);
    var w := Run(EMPTY_WORLD, steps);
    assert id in w.rows <==> Known(w, id);
    if id in w.rows { assert RowAgrees(w, IndexOf(w.entries, id)); }
    forall i, j | 0 <= i < j < |w.entries|
      ensures w.entries[i].account.id != w.entries[j].account.id
              && !(w.entries[i].account.isDefault && w.entries[j].account.isDefault)
    {
      OtherIds(w.entries, i, j);
      assert RowAgrees(w, i) && RowAgrees(w, j);
    }
  }

  /** A restart brings back every account the previous process had in memory. */
  lemma ReloadReturnsAccounts(steps: seq<Step>, order: seq<AccountId>, id: AccountId)
    requires IsRun(EMPTY_WORLD, steps) && QueryOrder(Run(EMPTY_WORLD, steps).rows, order)
    ensures var w := Run(EMPTY_WORLD, steps);
            var t := Restart(w, order);
            |Find(t, id)| == |Find(w, id)| && (Find(w, id) != [] ==> Find(t, id)[0] == Loaded(Find(w, id)[0]))
  {
    Reachable(steps);
    var w := Run(EMPTY_WORLD, steps);
    var t := Restart(w, order);
    RestartKeeps(w, order);
    assert id in w.rows <==> Known(w, id);
    assert id in t.rows <==> Known(t, id);
    if Known(w, id) {
      assert RowAgrees(w, IndexOf(w.entries, id));
      var i := IndexOf(t.entries, id);
      RowRef(w, order[i]);
      assert t.entries[i].account == Loaded(w.rows[order[i]]);
    }
  }

  /** A COMMIT that fails and leaves the transaction open breaks the agreement
      of table and memory, unless the choice changed nothing: `setDefault`
      returns without touching its entries, but the table this connection reads
      has already changed. */
  lemma OpenTransactionExact(w: World, id: AccountId)
    requires RowsAgree(w) && Known(w, id)
    ensures RowsAgree(SetDefault(w, id, LeftOpen))
            <==> forall i | 0 <= i < |w.entries| :: OnlyDefault(w.entries[i], id)
  {
    OpenShape(w, id);
    OpenRows(w, w.(rows := DefaultRows(w.rows, id)), id);
  }

  /** The entry is the default exactly if it is account `id`. */
  predicate OnlyDefault(e: Entry, id: AccountId) {
    e.account.isDefault <==> e.account.id == id
  }

  lemma OpenShape(w: World, id: AccountId)
    requires Known(w, id)
    ensures SetDefault(w, id, LeftOpen) == w.(rows := DefaultRows(w.rows, id))
  {
  }

  lemma OpenRows(w: World, t: World, id: AccountId)
    requires RowsAgree(w) && t == w.(rows := DefaultRows(w.rows, id))
    ensures RowsAgree(t) <==> forall i | 0 <= i < |w.entries| :: OnlyDefault(w.entries[i], id)
  {
    OpenKeys(w, t);
    OpenEachRow(w, t, id);
    OpenIff(w, t, id);
  }

  lemma OpenEachRow(w: World, t: World, id: AccountId)
    requires RowsAgree(w) && t == w.(rows := DefaultRows(w.rows, id))
    ensures forall i | 0 <= i < |w.entries| :: RowAgrees(t, i) <==> OnlyDefault(w.entries[i], id)
  {
    forall i | 0 <= i < |w.entries| ensures RowAgrees(t, i) <==> OnlyDefault(w.entries[i], id) {
      OpenRow(w, id, i);
    }
  }

  lemma OpenIff(w: World, t: World, id: AccountId)
    requires (forall k :: k in t.rows <==> Known(t, k)) && (forall k | k in t.rows :: k >= 1)
    requires t.entries == w.entries
    requires forall i | 0 <= i < |w.entries| :: RowAgrees(t, i) <==> OnlyDefault(w.entries[i], id)
    ensures RowsAgree(t) <==> forall i | 0 <= i < |w.entries| :: OnlyDefault(w.entries[i], id)
  {
  }

  lemma OpenKeys(w: World, t: World)
    requires RowsAgree(w) && t.entries == w.entries && t.rows.Keys == w.rows.Keys
    ensures (forall k :: k in t.rows <==> Known(t, k)) && (forall k | k in t.rows :: k >= 1)
  {
    forall k ensures k in t.rows <==> Known(t, k) { assert k in w.rows <==> Known(w, k); }
  }

  lemma OpenRow(w: World, id: AccountId, i: nat)
    requires RowsAgree(w) && i < |w.entries|
    ensures RowAgrees(w.(rows := DefaultRows(w.rows, id)), i) <==> OnlyDefault(w.entries[i], id)
  {
    assert RowAgrees(w, i);
    var a := w.entries[i].account;
    LoadedDefault(w.rows[a.id], a.id == id);
    LoadedDefault(a, a.isDefault);
    assert Loaded(a).isDefault == a.isDefault;
  }

  /** A run into it: one account is added without being the default, and the
      COMMIT fails that should make it the default. */
  lemma OpenTransactionWitness(acc: Account, password: string, ref: string)
    requires !acc.isDefault && !StartsUp(acc)
    ensures var run := [AddStep(acc, password, ref, 1, true, true, true, Fate({}, {}))];
            && IsRun(EMPTY_WORLD, run)
            && var w := Run(EMPTY_WORLD, run);
               RowsAgree(w) && Known(w, 1) && !RowsAgree(SetDefault(w, 1, LeftOpen))
  {
    var step := AddStep(acc, password, ref, 1, true, true, true, Fate({}, {}));
    var w := Next(EMPTY_WORLD, step);
    AddedAlone(acc, password, ref);
    OneStep(EMPTY_WORLD, step);
    Reachable([step]);
    hide Next, Inv, RowsAgree, SetDefault, Enabled, IsRun, Run;
    InvRows(w);
    assert w.entries[0].account.id == 1 && !OnlyDefault(w.entries[0], 1);
    OpenTransactionExact(w, 1);
  }

  lemma OneStep(w: World, step: Step)
    requires Enabled(w, step)
    ensures IsRun(w, [step]) && Run(w, [step]) == Next(w, step)
  {
    hide Next, Enabled;
    assert [step][1..] == [];
    var t := Next(w, step);
    assert IsRun(t, []) && Run(t, []) == t;
  }

  lemma InvRows(w: World)
    requires Inv(w)
    ensures RowsAgree(w)
  {
    hide RowsAgree;
  }

  lemma AddedAlone(acc: Account, password: string, ref: string)
    requires !acc.isDefault && !StartsUp(acc)
    ensures var step := AddStep(acc, password, ref, 1, true, true, true, Fate({}, {}));
            && Enabled(EMPTY_WORLD, step)
            && Next(EMPTY_WORLD, step).entries == [Entry(acc.(id := 1, passwordRef := ref), false)]
  {
    assert !SomeDefault(EMPTY_WORLD.rows);
    hide RegisterAccount;
  }
}
