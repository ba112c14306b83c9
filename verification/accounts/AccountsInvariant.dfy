/** Every account operation, whatever storage and backend refuse, keeps the
    copies of the truth consistent. */
module AccountsInvariant {
  import opened AccountsSpec

  predicate Known(w: World, id: AccountId) {
    IndexOf(w.entries, id) >= 0
  }

  /** No two entries share an id or a keychain reference. */
  ghost predicate Distinct(entries: seq<Entry>) {
    forall i, j | 0 <= i < j < |entries| ::
      entries[i].account.id != entries[j].account.id
      && entries[i].account.passwordRef != entries[j].account.passwordRef
  }

  /** Table and memory hold the same accounts, up to the empty-label fallback. */
  ghost predicate RowsAgree(w: World) {
    (forall k :: k in w.rows <==> Known(w, k))
    && (forall k | k in w.rows :: k >= 1)
    && forall i | 0 <= i < |w.entries| :: RowAgrees(w, i)
  }

  predicate RowAgrees(w: World, i: nat)
    requires i < |w.entries|
  {
    var a := w.entries[i].account;
    a.id in w.rows && w.rows[a.id].id == a.id && Loaded(w.rows[a.id]) == Loaded(a)
  }

  ghost predicate AtMostOneDefault(rows: map<AccountId, Account>) {
    forall j, k | j in rows && k in rows && rows[j].isDefault && rows[k].isDefault :: j == k
  }

  /** An entry is marked registered exactly if it is bound, and then the backend
      works with its present fields and its present keychain password. */
  predicate BindingCurrent(w: World, i: nat)
    requires i < |w.entries|
  {
    var a := w.entries[i].account;
    (w.entries[i].registered <==> a.id in w.backendIds)
    && (a.id in w.backendIds ==>
          && w.backendIds[a.id] in w.bound
          && a.passwordRef in w.keychain
          && w.bound[w.backendIds[a.id]] == Translate(a.profile, w.keychain[a.passwordRef]))
  }

  ghost predicate BindingsExact(w: World) {
    (forall k | k in w.backendIds :: Known(w, k) && w.backendIds[k] in w.bound)
    && (forall j, k | j in w.backendIds && k in w.backendIds && w.backendIds[j] == w.backendIds[k] :: j == k)
    && (forall b | b in w.bound :: 1 <= b < w.nextBackendId && exists k :: BoundTo(w, k, b))
  }

  ghost predicate CacheOk(w: World) {
    forall r | r in w.cache :: r in w.keychain && w.cache[r] == w.keychain[r]
  }

  /** Registration state is the fold of the event map over the events delivered
      to a binding. */
  function Fold(events: seq<RegEvent>): RegStatus {
    if events == [] then FRESH
    else
      var last := events[|events| - 1];
      MapRegEvent(last.active, last.code, last.reason, Fold(events[..|events| - 1]).error)
  }

  predicate StatusIsFold(w: World, id: AccountId) {
    StatusOf(w, id) == if id in w.backendIds then Fold(History(w, w.backendIds[id])) else FRESH
  }

  ghost predicate StatusOk(w: World) {
    (forall id :: StatusIsFold(w, id))
    && forall b | b in w.delivered :: b < w.nextBackendId
  }

  ghost predicate Inv(w: World) {
    1 <= w.nextBackendId
    && Distinct(w.entries)
    && RowsAgree(w)
    && AtMostOneDefault(w.rows)
    && (forall i | 0 <= i < |w.entries| :: BindingCurrent(w, i))
    && BindingsExact(w)
    && CacheOk(w)
    && StatusOk(w)
  }

  lemma KnownAfterUpdate(entries: seq<Entry>, i: nat, e: Entry)
    requires i < |entries| && e.account.id == entries[i].account.id
    ensures forall k :: IndexOf(entries[i := e], k) >= 0 <==> IndexOf(entries, k) >= 0
  {
    forall k ensures IndexOf(entries[i := e], k) >= 0 <==> IndexOf(entries, k) >= 0 {
      var j, l := IndexOf(entries[i := e], k), IndexOf(entries, k);
      if j >= 0 { assert entries[j].account.id == k; }
      if l >= 0 { assert entries[i := e][l].account.id == k; }
    }
  }

  // -------------------------------------------------------------------------
  // Binding and unbinding
  // -------------------------------------------------------------------------

  lemma CacheKeeps(w: World, ref: string)
    requires Inv(w) && (ref in w.cache || ref in w.keychain)
    ensures Inv(CachePassword(w, ref))
  {
    var t := CachePassword(w, ref);
    forall i | 0 <= i < |t.entries| ensures RowAgrees(t, i) && BindingCurrent(t, i) {
      assert RowAgrees(w, i) && BindingCurrent(w, i);
    }
    forall id ensures StatusIsFold(t, id) { assert StatusIsFold(w, id); }
    forall b | b in t.bound ensures exists k :: BoundTo(t, k, b) {
      var k :| BoundTo(w, k, b);
      assert BoundTo(t, k, b);
    }
  }

  /** Changing no account keeps table and memory in agreement. */
  lemma SameAccountsKeep(w: World, t: World, i: nat)
    requires RowsAgree(w) && Distinct(w.entries) && i < |w.entries|
    requires |t.entries| == |w.entries|
    requires t.rows == w.rows && t.entries == w.entries[i := Entry(w.entries[i].account, t.entries[i].registered)]
    ensures RowsAgree(t) && Distinct(t.entries)
    ensures forall k :: Known(t, k) <==> Known(w, k)
  {
    KnownAfterUpdate(w.entries, i, t.entries[i]);
    forall j | 0 <= j < |t.entries| ensures RowAgrees(t, j) { assert RowAgrees(w, j); }
  }

  /** The binding of an entry is current as long as nothing that concerns it
      changes. */
  lemma OtherBinding(w: World, t: World, j: nat)
    requires j < |w.entries| == |t.entries| && t.entries[j] == w.entries[j] && t.keychain == w.keychain
    requires var k := w.entries[j].account.id;
             (k in t.backendIds <==> k in w.backendIds)
             && (k in w.backendIds && w.backendIds[k] in w.bound ==>
                   && t.backendIds[k] == w.backendIds[k]
                   && w.backendIds[k] in t.bound && t.bound[w.backendIds[k]] == w.bound[w.backendIds[k]])
    requires BindingCurrent(w, j)
    ensures BindingCurrent(t, j)
  {
  }

  lemma OtherIds(entries: seq<Entry>, i: nat, j: nat)
    requires Distinct(entries) && i < |entries| && j < |entries| && i != j
    ensures entries[i].account.id != entries[j].account.id
    ensures entries[i].account.passwordRef != entries[j].account.passwordRef
  {
    if i < j {
      assert entries[i].account.id != entries[j].account.id;
    } else {
      assert entries[j].account.id != entries[i].account.id;
    }
  }

  lemma BindExact(w: World, i: nat, password: string)
    requires Inv(w) && i < |w.entries| && !w.entries[i].registered
    ensures BindingsExact(Bind(w, i, password))
  {
    var t := Bind(w, i, password);
    var a := w.entries[i].account;
    assert BindingCurrent(w, i);
    KnownAfterUpdate(w.entries, i, Entry(a, true));
    assert RowAgrees(w, i);
    forall k | k in t.backendIds ensures Known(t, k) && t.backendIds[k] in t.bound {
      assert Known(w, k);
    }
    forall b | b in t.bound ensures 1 <= b < t.nextBackendId && exists k :: BoundTo(t, k, b) {
      if b == w.nextBackendId {
        assert BoundTo(t, a.id, b);
      } else {
        var k :| BoundTo(w, k, b);
        assert BoundTo(t, k, b);
      }
    }
  }

  lemma BindCurrent(w: World, i: nat, password: string, j: nat)
    requires Inv(w) && i < |w.entries| && !w.entries[i].registered && j < |w.entries|
    requires w.entries[i].account.passwordRef in w.keychain
    requires password == w.keychain[w.entries[i].account.passwordRef]
    ensures BindingCurrent(Bind(w, i, password), j)
  {
    var t := Bind(w, i, password);
    var a := w.entries[i].account;
    assert BindingCurrent(w, j);
    if j != i {
      OtherIds(w.entries, i, j);
      OtherBinding(w, t, j);
    } else {
      assert t.backendIds[a.id] == w.nextBackendId && t.bound[w.nextBackendId] == Translate(a.profile, password);
    }
  }

  lemma BindStatus(w: World, i: nat, password: string)
    requires Inv(w) && i < |w.entries| && !w.entries[i].registered
    ensures StatusOk(Bind(w, i, password))
  {
    var t := Bind(w, i, password);
    assert BindingCurrent(w, i);
    forall id ensures StatusIsFold(t, id) { assert StatusIsFold(w, id); }
  }

  lemma BindKeeps(w: World, i: nat, password: string)
    requires Inv(w) && i < |w.entries| && !w.entries[i].registered
    requires w.entries[i].account.passwordRef in w.keychain
    requires password == w.keychain[w.entries[i].account.passwordRef]
    ensures Inv(Bind(w, i, password))
  {
    var t := Bind(w, i, password);
    SameAccountsKeep(w, t, i);
    BindExact(w, i, password);
    BindStatus(w, i, password);
    forall j | 0 <= j < |t.entries| ensures BindingCurrent(t, j) {
      BindCurrent(w, i, password, j);
    }
  }

  lemma CachedPassword(w: World, i: nat)
    requires Inv(w) && i < |w.entries|
    requires w.entries[i].account.passwordRef in w.cache || w.entries[i].account.passwordRef in w.keychain
    ensures var ref := w.entries[i].account.passwordRef;
            var w1 := CachePassword(w, ref);
            Inv(w1) && w1.entries == w.entries && ref in w1.cache && ref in w1.keychain && w1.cache[ref] == w1.keychain[ref]
  {
    CacheKeeps(w, w.entries[i].account.passwordRef);
  }

  lemma RegisterKeeps(w: World, id: AccountId, fate: Fate)
    requires Inv(w)
    ensures Inv(RegisterAccount(w, id, fate))
  {
    var i := IndexOf(w.entries, id);
    if !(i < 0 || !w.running || w.entries[i].registered || !PasswordKnown(w, i, fate)) {
      var ref := w.entries[i].account.passwordRef;
      CachedPassword(w, i);
      var w1 := CachePassword(w, ref);
      if id !in fate.backendDenied {
        BindKeeps(w1, i, w1.cache[ref]);
      }
    }
  }

  /** `t` is `w` after the binding of entry `i` is taken away. */
  ghost predicate Released(w: World, t: World, i: nat) {
    i < |w.entries| && w.entries[i].account.id in w.backendIds
    && t.backendIds == w.backendIds - {w.entries[i].account.id}
    && t.bound == w.bound - {w.backendIds[w.entries[i].account.id]}
    && t.nextBackendId == w.nextBackendId
    && t.entries == w.entries[i := w.entries[i].(registered := false)]
  }

  lemma UnbindExact(w: World, i: nat)
    requires Inv(w) && i < |w.entries| && w.entries[i].registered
    ensures BindingsExact(Unbind(w, i))
  {
    UnbindMap(w, i);
    hide Inv, Unbind, IndexOf, BindingsExact, Released;
    ReleasedExact(w, Unbind(w, i), i);
  }

  lemma ReleasedExact(w: World, t: World, i: nat)
    requires BindingsExact(w) && Released(w, t, i)
    ensures BindingsExact(t)
  {
    hide IndexOf, Known;
    forall k | k in t.backendIds ensures Known(t, k) && t.backendIds[k] in t.bound {
      ReleasedKnown(w, t, i, k);
    }
    forall b | b in t.bound ensures 1 <= b < t.nextBackendId && exists k :: BoundTo(t, k, b) {
      ReleasedOwner(w, t, i, b);
    }
  }

  lemma ReleasedKnown(w: World, t: World, i: nat, k: AccountId)
    requires BindingsExact(w) && Released(w, t, i) && k in t.backendIds
    ensures Known(t, k) && t.backendIds[k] in t.bound
  {
    hide IndexOf;
    assert Known(w, k) && w.backendIds[k] in w.bound;
    KnownAfterUpdate(w.entries, i, t.entries[i]);
  }

  lemma ReleasedOwner(w: World, t: World, i: nat, b: BackendAccountId)
    requires BindingsExact(w) && Released(w, t, i) && b in t.bound
    ensures 1 <= b < t.nextBackendId && exists k :: BoundTo(t, k, b)
  {
    var k :| BoundTo(w, k, b);
    assert BoundTo(t, k, b);
  }

  /** What unbinding leaves of the two binding maps. */
  lemma UnbindMap(w: World, i: nat)
    requires Inv(w) && i < |w.entries| && w.entries[i].registered
    ensures BindingsExact(w) && Released(w, Unbind(w, i), i)
  {
    assert BindingCurrent(w, i);
    hide RowsAgree, BindingsExact, StatusOk, CacheOk, Distinct, AtMostOneDefault;
  }

  lemma UnbindKeeps(w: World, i: nat)
    requires Inv(w) && i < |w.entries| && w.entries[i].registered
    ensures Inv(Unbind(w, i))
  {
    var t := Unbind(w, i);
    assert BindingCurrent(w, i);
    SameAccountsKeep(w, t, i);
    UnbindExact(w, i);
    UnbindCurrent(w, i);
    forall id ensures StatusIsFold(t, id) { assert StatusIsFold(w, id); }
  }

  lemma UnbindCurrent(w: World, i: nat)
    requires Inv(w) && i < |w.entries| && w.entries[i].registered
    ensures var t := Unbind(w, i);
            forall j | 0 <= j < |t.entries| :: BindingCurrent(t, j)
  {
    var t := Unbind(w, i);
    assert BindingCurrent(w, i);
    forall j | 0 <= j < |t.entries| ensures BindingCurrent(t, j) {
      assert BindingCurrent(w, j);
      if j != i {
        OtherIds(w.entries, i, j);
        OtherBinding(w, t, j);
      }
    }
  }

  /** What unregistering leaves alone, and that it leaves the account unbound. */
  lemma UnregisterKeeps(w: World, id: AccountId)
    requires Inv(w)
    ensures var t := UnregisterAccount(w, id);
            && Inv(t) && |t.entries| == |w.entries|
            && t.rows == w.rows && t.keychain == w.keychain && t.cache == w.cache
            && id !in t.backendIds
            && (forall j | 0 <= j < |w.entries| ::
                  t.entries[j] == (if w.entries[j].account.id == id then w.entries[j].(registered := false) else w.entries[j]))
  {
    var t := UnregisterAccount(w, id);
    var i := Search(w.entries, id, true);
    if i >= 0 {
      UnbindKeeps(w, i);
      forall j | 0 <= j < |w.entries| && j != i ensures w.entries[j].account.id != id {
        OtherIds(w.entries, i, j);
      }
    } else {
      var k := IndexOf(w.entries, id);
      if k >= 0 {
        assert BindingCurrent(w, k);
        assert !Matches(w.entries[k], id, true);
        forall j | 0 <= j < |w.entries| && w.entries[j].account.id == id ensures !w.entries[j].registered {
          assert !Matches(w.entries[j], id, true);
        }
      }
      assert id in w.backendIds ==> Known(w, id);
    }
  }

  lemma DropBindingKeeps(w: World, i: nat)
    requires Inv(w) && i < |w.entries|
    ensures DropBinding(w, i) == UnregisterAccount(w, w.entries[i].account.id)
    ensures var t := DropBinding(w, i);
            && Inv(t) && |t.entries| == |w.entries|
            && t.rows == w.rows && t.keychain == w.keychain && t.cache == w.cache
            && (forall j | 0 <= j < |w.entries| ::
                  t.entries[j] == if j == i then w.entries[j].(registered := false) else w.entries[j])
  {
    var id := w.entries[i].account.id;
    UnregisterKeeps(w, id);
    forall j | 0 <= j < |w.entries| && j != i ensures w.entries[j].account.id != id { OtherIds(w.entries, i, j); }
    if !w.entries[i].registered {
      assert Search(w.entries, id, true) < 0;
    }
  }

  // -------------------------------------------------------------------------
  // Edits
  // -------------------------------------------------------------------------

  /** Rewrites row and entry of account number `i`. */
  function Edited(w: World, i: nat, a: Account, row: Account): World
    requires i < |w.entries|
  {
    w.(rows := w.rows[w.entries[i].account.id := row], entries := w.entries[i := w.entries[i].(account := a)])
  }

  ghost predicate EditAllowed(w: World, i: nat, a: Account, row: Account)
    requires i < |w.entries|
  {
    var was := w.entries[i].account;
    a.id == was.id == row.id && a.passwordRef == was.passwordRef
    && Loaded(row) == Loaded(a)
    && (was.id in w.rows ==> row.isDefault == w.rows[was.id].isDefault)
    && (w.entries[i].registered ==> a.profile == was.profile)
  }

  lemma EditRows(w: World, i: nat, a: Account, row: Account)
    requires Inv(w) && i < |w.entries| && EditAllowed(w, i, a, row)
    ensures var t := Edited(w, i, a, row);
            RowsAgree(t) && Distinct(t.entries) && AtMostOneDefault(t.rows)
            && forall k :: Known(t, k) <==> Known(w, k)
  {
    hide IndexOf;
    var t := Edited(w, i, a, row);
    assert RowAgrees(w, i);
    KnownAfterUpdate(w.entries, i, t.entries[i]);
    forall j | 0 <= j < |t.entries| ensures RowAgrees(t, j) { EditRow(w, i, a, row, j); }
    EditDefault(w, i, a, row);
  }

  lemma EditRow(w: World, i: nat, a: Account, row: Account, j: nat)
    requires Inv(w) && i < |w.entries| && EditAllowed(w, i, a, row) && j < |w.entries|
    ensures RowAgrees(Edited(w, i, a, row), j)
  {
    assert RowAgrees(w, i) && RowAgrees(w, j);
    if j != i { OtherIds(w.entries, i, j); }
  }

  lemma EditDefault(w: World, i: nat, a: Account, row: Account)
    requires Inv(w) && i < |w.entries| && EditAllowed(w, i, a, row)
    ensures var t := Edited(w, i, a, row); Distinct(t.entries) && AtMostOneDefault(t.rows)
  {
    assert RowAgrees(w, i);
    hide RowsAgree, BindingsExact, StatusOk, CacheOk, BindingCurrent;
  }

  lemma EditKeeps(w: World, i: nat, a: Account, row: Account)
    requires Inv(w) && i < |w.entries| && EditAllowed(w, i, a, row)
    ensures Inv(Edited(w, i, a, row))
  {
    var t := Edited(w, i, a, row);
    EditRows(w, i, a, row);
    forall j | 0 <= j < |t.entries| ensures BindingCurrent(t, j) { assert BindingCurrent(w, j); }
    SameBindings(w, t);
  }

  /** Bindings and status do not depend on rows, keychain or account fields. */
  lemma SameBindings(w: World, t: World)
    requires BindingsExact(w) && StatusOk(w)
    requires t.backendIds == w.backendIds && t.bound == w.bound && t.nextBackendId == w.nextBackendId
    requires t.states == w.states && t.errors == w.errors && t.delivered == w.delivered
    requires forall k | k in w.backendIds :: Known(t, k)
    ensures BindingsExact(t) && StatusOk(t)
  {
    forall b | b in t.bound ensures exists k :: BoundTo(t, k, b) {
      var k :| BoundTo(w, k, b);
      assert BoundTo(t, k, b);
    }
    forall id ensures StatusIsFold(t, id) { assert StatusIsFold(w, id); }
  }

  lemma UnbindCommutes(w: World, i: nat, rows: map<AccountId, Account>, keychain: map<string, string>, cache: map<string, string>)
    requires i < |w.entries|
    ensures Unbind(w.(rows := rows, keychain := keychain, cache := cache), i)
            == Unbind(w, i).(rows := rows, keychain := keychain, cache := cache)
  {
  }

  /** Writing table, keychain and cache before or after unregistering is the
      same. */
  lemma DropCommutes(w: World, i: nat, rows: map<AccountId, Account>, keychain: map<string, string>, cache: map<string, string>)
    requires i < |w.entries|
    ensures DropBinding(w.(rows := rows, keychain := keychain, cache := cache), i)
            == DropBinding(w, i).(rows := rows, keychain := keychain, cache := cache)
  {
    var k := Search(w.entries, w.entries[i].account.id, true);
    if k >= 0 { UnbindCommutes(w, k, rows, keychain, cache); }
  }

  lemma UpdateKeeps(w: World, acc: Account, updateOk: bool, fate: Fate)
    requires Inv(w)
    ensures Inv(Update(w, acc, updateOk, fate))
  {
    var i := IndexOf(w.entries, acc.id);
    if i >= 0 && updateOk {
      assert RowAgrees(w, i);
      var was, row := w.entries[i].account, Merged(acc, w.rows[acc.id]);
      DropBindingKeeps(w, i);
      var u := DropBinding(w, i);
      DropCommutes(w, i, w.rows[acc.id := row], w.keychain, w.cache);
      EditKeeps(u, i, Merged(acc, was), row);
      RegisterKeeps(Edited(u, i, Merged(acc, was), row), acc.id, fate);
    }
  }

  lemma SetEnabledKeeps(w: World, id: AccountId, enabled: bool, updateOk: bool, fate: Fate)
    requires Inv(w)
    ensures Inv(SetEnabled(w, id, enabled, updateOk, fate))
  {
    var i := IndexOf(w.entries, id);
    if !(i < 0 || w.entries[i].account.enabled == enabled || !updateOk) {
      assert RowAgrees(w, i);
      var a, row := w.entries[i].account.(enabled := enabled), w.rows[id].(enabled := enabled);
      EditKeeps(w, i, a, row);
      RegisterKeeps(Edited(w, i, a, row), id, fate);
      UnregisterKeeps(Edited(w, i, a, row), id);
    }
  }

  /** A new password for an unbound account. */
  lemma KeychainKeeps(w: World, i: nat, password: string)
    requires Inv(w) && i < |w.entries| && !w.entries[i].registered
    ensures var ref := w.entries[i].account.passwordRef;
            Inv(w.(keychain := w.keychain[ref := password], cache := w.cache[ref := password]))
  {
    var ref := w.entries[i].account.passwordRef;
    var t := w.(keychain := w.keychain[ref := password], cache := w.cache[ref := password]);
    forall j | 0 <= j < |t.entries| ensures RowAgrees(t, j) && BindingCurrent(t, j) {
      assert RowAgrees(w, j) && BindingCurrent(w, j);
      if j != i { OtherIds(w.entries, i, j); }
    }
    SameBindings(w, t);
  }

  lemma SetPasswordKeeps(w: World, id: AccountId, password: string, setOk: bool, fate: Fate)
    requires Inv(w)
    ensures Inv(SetPassword(w, id, password, setOk, fate))
  {
    var i := IndexOf(w.entries, id);
    if i >= 0 && setOk {
      var ref := w.entries[i].account.passwordRef;
      DropBindingKeeps(w, i);
      var u := DropBinding(w, i);
      DropCommutes(w, i, w.rows, w.keychain[ref := password], w.cache[ref := password]);
      KeychainKeeps(u, i, password);
      RegisterKeeps(u.(keychain := w.keychain[ref := password], cache := w.cache[ref := password]), id, fate);
    }
  }

  lemma ForgetKeeps(w: World, i: nat, eraseOk: bool)
    requires Inv(w) && i < |w.entries| && !w.entries[i].registered
    ensures var ref := w.entries[i].account.passwordRef;
            Inv(w.(keychain := if eraseOk then w.keychain - {ref} else w.keychain, cache := w.cache - {ref}))
  {
    var ref := w.entries[i].account.passwordRef;
    var t := w.(keychain := if eraseOk then w.keychain - {ref} else w.keychain, cache := w.cache - {ref});
    forall j | 0 <= j < |t.entries| ensures RowAgrees(t, j) && BindingCurrent(t, j) {
      assert RowAgrees(w, j) && BindingCurrent(w, j);
      if j != i { OtherIds(w.entries, i, j); }
    }
    SameBindings(w, t);
  }

  lemma KnownAfterDrop(entries: seq<Entry>, i: nat, k: AccountId)
    requires Distinct(entries) && i < |entries|
    ensures IndexOf(entries[..i] + entries[i + 1..], k) >= 0 <==> IndexOf(entries, k) >= 0 && k != entries[i].account.id
  {
    var rest := entries[..i] + entries[i + 1..];
    var l, j := IndexOf(rest, k), IndexOf(entries, k);
    if l >= 0 {
      assert rest[l] == entries[if l < i then l else l + 1];
    }
    if j >= 0 && j != i {
      assert rest[if j < i then j else j - 1] == entries[j];
    }
    if j == i {
      forall m | 0 <= m < |rest| ensures rest[m].account.id != k {
        assert rest[m] == entries[if m < i then m else m + 1];
      }
    }
  }

  function Dropped(w: World, i: nat): World
    requires i < |w.entries|
  {
    w.(rows := w.rows - {w.entries[i].account.id}, entries := w.entries[..i] + w.entries[i + 1..])
  }

  lemma DropEntry(w: World, i: nat, m: nat)
    requires Inv(w) && i < |w.entries| && m < |Dropped(w, i).entries|
    ensures RowAgrees(Dropped(w, i), m) && BindingCurrent(Dropped(w, i), m)
    ensures var j := if m < i then m else m + 1;
            Dropped(w, i).entries[m] == w.entries[j] && j != i
  {
    var j := if m < i then m else m + 1;
    assert Dropped(w, i).entries[m] == w.entries[j];
    assert RowAgrees(w, j) && BindingCurrent(w, j);
    OtherIds(w.entries, i, j);
  }

  lemma DropKeeps(w: World, i: nat)
    requires Inv(w) && i < |w.entries| && !w.entries[i].registered
    ensures Inv(Dropped(w, i))
  {
    var id := w.entries[i].account.id;
    var t := Dropped(w, i);
    forall k ensures Known(t, k) <==> Known(w, k) && k != id { KnownAfterDrop(w.entries, i, k); }
    forall m | 0 <= m < |t.entries| ensures RowAgrees(t, m) && BindingCurrent(t, m) { DropEntry(w, i, m); }
    forall m, n | 0 <= m < n < |t.entries|
      ensures t.entries[m].account.id != t.entries[n].account.id
              && t.entries[m].account.passwordRef != t.entries[n].account.passwordRef
    {
      DropEntry(w, i, m);
      DropEntry(w, i, n);
      OtherIds(w.entries, if m < i then m else m + 1, if n < i then n else n + 1);
    }
    assert BindingCurrent(w, i);
    SameBindings(w, t);
  }

  lemma RemoveKeeps(w: World, id: AccountId, eraseOk: bool, deleteOk: bool)
    requires Inv(w)
    ensures Inv(Remove(w, id, eraseOk, deleteOk))
  {
    var i := IndexOf(w.entries, id);
    if i >= 0 {
      DropBindingKeeps(w, i);
      var w1 := DropBinding(w, i);
      ForgetKeeps(w1, i, eraseOk);
      var ref := w1.entries[i].account.passwordRef;
      DropKeeps(w1.(keychain := if eraseOk then w1.keychain - {ref} else w1.keychain, cache := w1.cache - {ref}), i);
    }
  }

  /** A stored password nobody refers to, or none: no account notices. */
  lemma StrayKeychain(w: World, keychain: map<string, string>)
    requires Inv(w)
    requires forall r | r in w.keychain :: r in keychain && keychain[r] == w.keychain[r]
    ensures Inv(w.(keychain := keychain))
  {
    var t := w.(keychain := keychain);
    forall j | 0 <= j < |t.entries| ensures RowAgrees(t, j) && BindingCurrent(t, j) {
      assert RowAgrees(w, j) && BindingCurrent(w, j);
    }
    SameBindings(w, t);
  }

  lemma KnownAfterAppend(entries: seq<Entry>, e: Entry, k: AccountId)
    ensures IndexOf(entries + [e], k) >= 0 <==> IndexOf(entries, k) >= 0 || k == e.account.id
  {
    var all := entries + [e];
    var l, j := IndexOf(all, k), IndexOf(entries, k);
    if j >= 0 { assert all[j] == entries[j]; }
    assert all[|entries|] == e;
    if l >= 0 && l < |entries| { assert all[l] == entries[l]; }
  }

  lemma AppendRows(w: World, a: Account)
    requires Inv(w) && a.id >= 1 && a.id !in w.rows
    requires forall i | 0 <= i < |w.entries| :: w.entries[i].account.passwordRef != a.passwordRef
    requires a.isDefault ==> !SomeDefault(w.rows)
    ensures var t := w.(rows := w.rows[a.id := a], entries := w.entries + [Entry(a, false)]);
            RowsAgree(t) && Distinct(t.entries) && AtMostOneDefault(t.rows)
            && forall k :: Known(t, k) <==> Known(w, k) || k == a.id
  {
    var t := w.(rows := w.rows[a.id := a], entries := w.entries + [Entry(a, false)]);
    assert !Known(w, a.id);
    AppendDistinct(w, a);
    hide Inv, IndexOf, Distinct, AtMostOneDefault;
    forall k ensures Known(t, k) <==> Known(w, k) || k == a.id { KnownAfterAppend(w.entries, Entry(a, false), k); }
    forall j | 0 <= j < |t.entries| ensures RowAgrees(t, j) { AppendRow(w, a, j); }
  }

  lemma AppendRow(w: World, a: Account, j: nat)
    requires RowsAgree(w) && j <= |w.entries|
    requires a.id !in w.rows
    ensures RowAgrees(w.(rows := w.rows[a.id := a], entries := w.entries + [Entry(a, false)]), j)
  {
    if j < |w.entries| { assert RowAgrees(w, j); }
  }

  lemma AppendDistinct(w: World, a: Account)
    requires Inv(w) && !Known(w, a.id)
    requires forall i | 0 <= i < |w.entries| :: w.entries[i].account.passwordRef != a.passwordRef
    requires a.isDefault ==> !SomeDefault(w.rows)
    ensures RowsAgree(w) && Distinct(w.entries + [Entry(a, false)]) && AtMostOneDefault(w.rows[a.id := a])
  {
    hide RowsAgree, BindingsExact, CacheOk, StatusOk, BindingCurrent;
  }

  lemma AppendKeeps(w: World, a: Account, password: string)
    requires Inv(w) && a.id >= 1 && a.id !in w.rows && FreshRef(w, a.passwordRef)
    requires a.isDefault ==> !SomeDefault(w.rows)
    ensures Inv(w.(keychain := w.keychain[a.passwordRef := password],
                   rows := w.rows[a.id := a],
                   entries := w.entries + [Entry(a, false)],
                   cache := w.cache[a.passwordRef := password]))
  {
    AppendRows(w, a);
    var u := w.(rows := w.rows[a.id := a], entries := w.entries + [Entry(a, false)]);
    forall j | 0 <= j < |u.entries| ensures BindingCurrent(u, j) {
      if j < |w.entries| {
        assert BindingCurrent(w, j) && u.entries[j] == w.entries[j];
      } else {
        assert a.id in w.backendIds ==> Known(w, a.id);
      }
    }
    SameBindings(w, u);
    KeychainKeeps(u, |w.entries|, password);
  }

  lemma AddKeeps(w: World, acc: Account, password: string, ref: string, rowId: AccountId,
                 setOk: bool, insertOk: bool, eraseOk: bool, fate: Fate)
    requires Inv(w) && FreshRef(w, ref) && rowId >= 1 && rowId !in w.rows
    ensures Inv(Add(w, acc, password, ref, rowId, setOk, insertOk, eraseOk, fate))
  {
    if setOk {
      if InsertAccepted(w, acc, insertOk) {
        var a := acc.(id := rowId, passwordRef := ref);
        AppendKeeps(w, a, password);
        RegisterKeeps(w.(keychain := w.keychain[ref := password], rows := w.rows[rowId := a],
                         entries := w.entries + [Entry(a, false)], cache := w.cache[ref := password]), rowId, fate);
      } else {
        StrayKeychain(w, if eraseOk then w.keychain - {ref} else w.keychain[ref := password]);
      }
    }
  }

  lemma DefaultKnown(entries: seq<Entry>, id: AccountId, k: AccountId)
    ensures IndexOf(DefaultEntries(entries, id), k) >= 0 <==> IndexOf(entries, k) >= 0
  {
    var t := DefaultEntries(entries, id);
    var l, j := IndexOf(t, k), IndexOf(entries, k);
    if l >= 0 { assert entries[l].account.id == k; }
    if j >= 0 { assert t[j].account.id == k; }
  }

  lemma DefaultDistinct(entries: seq<Entry>, id: AccountId)
    requires Distinct(entries)
    ensures Distinct(DefaultEntries(entries, id))
  {
    var t := DefaultEntries(entries, id);
    forall i, j | 0 <= i < j < |t|
      ensures t[i].account.id != t[j].account.id && t[i].account.passwordRef != t[j].account.passwordRef
    {
      OtherIds(entries, i, j);
    }
  }

  lemma LoadedDefault(a: Account, on: bool)
    ensures Loaded(a.(isDefault := on)) == Loaded(a).(isDefault := on)
  {
  }

  lemma DefaultRowAgrees(w: World, t: World, id: AccountId, j: nat)
    requires j < |w.entries| && RowAgrees(w, j)
    requires t.rows == DefaultRows(w.rows, id) && t.entries == DefaultEntries(w.entries, id)
    ensures RowAgrees(t, j)
  {
    var a := w.entries[j].account;
    LoadedDefault(a, a.id == id);
    LoadedDefault(w.rows[a.id], a.id == id);
  }

  lemma DefaultRowsAgree(w: World, id: AccountId)
    requires Inv(w)
    ensures var t := SetDefault(w, id, Committed);
            RowsAgree(t) && forall k :: Known(t, k) <==> Known(w, k)
  {
    if IndexOf(w.entries, id) >= 0 {
      var t := SetDefault(w, id, Committed);
      assert RowsAgree(w);
      hide Inv, IndexOf, SetDefault, RowAgrees;
      forall k ensures Known(t, k) <==> Known(w, k) { DefaultKnown(w.entries, id, k); }
      forall j | 0 <= j < |t.entries| ensures RowAgrees(t, j) { DefaultRowAgrees(w, t, id, j); }
    }
  }

  lemma SetDefaultKeeps(w: World, id: AccountId, outcome: Outcome)
    requires Inv(w) && outcome != LeftOpen
    ensures Inv(SetDefault(w, id, outcome))
  {
    if IndexOf(w.entries, id) >= 0 && outcome == Committed {
      var t := SetDefault(w, id, outcome);
      DefaultRowsAgree(w, id);
      DefaultDistinct(w.entries, id);
      forall j | 0 <= j < |t.entries| ensures BindingCurrent(t, j) { assert BindingCurrent(w, j); }
      SameBindings(w, t);
    }
  }

  // -------------------------------------------------------------------------
  // Loops, events, restart
  // -------------------------------------------------------------------------

  lemma {:induction false} StartupKeeps(w: World, from: nat, fate: Fate)
    requires Inv(w) && from <= |w.entries|
    ensures Inv(RegisterStartupFrom(w, from, fate))
    decreases |w.entries| - from
  {
    hide Inv, Search;
    if from < |w.entries| {
      var a := w.entries[from].account;
      RegisterKeeps(w, a.id, fate);
      StartupKeeps(if StartsUp(a) then RegisterAccount(w, a.id, fate) else w, from + 1, fate);
    }
  }

  lemma {:induction false} ReregisterKeeps(w: World, ids: seq<AccountId>, fate: Fate)
    requires Inv(w)
    ensures Inv(Reregister(w, ids, fate))
    decreases |ids|
  {
    if ids != [] {
      UnregisterKeeps(w, ids[0]);
      RegisterKeeps(UnregisterAccount(w, ids[0]), ids[0], fate);
      ReregisterKeeps(RegisterAccount(UnregisterAccount(w, ids[0]), ids[0], fate), ids[1..], fate);
    }
  }

  lemma FoldAppend(h: seq<RegEvent>, e: RegEvent)
    ensures Fold(h + [e]) == MapRegEvent(e.active, e.code, e.reason, Fold(h).error)
  {
    assert (h + [e])[..|h|] == h;
  }

  lemma OnRegStateStatus(w: World, e: RegEvent, id: AccountId)
    requires Inv(w) && IsOwner(w, e.backendId, id)
    ensures StatusOk(OnRegState(w, e, id))
  {
    hide RowsAgree, BindingCurrent, CacheOk, Distinct, AtMostOneDefault, Fold;
    var t := OnRegState(w, e, id);
    forall k ensures StatusIsFold(t, k) {
      assert StatusIsFold(w, k);
      if id != INVALID_ACCOUNT {
        assert BoundTo(w, id, e.backendId);
        if k == id { FoldAppend(History(w, e.backendId), e); }
      }
    }
  }

  lemma DeliverKeeps(w: World, id: AccountId)
    requires Inv(w) && w.queue != [] && IsOwner(w, w.queue[0].backendId, id)
    ensures Inv(Deliver(w, id))
  {
    var w1 := w.(queue := w.queue[1..]);
    QueueKeeps(w, w1.queue, w.running);
    var t := Deliver(w, id);
    assert forall k :: BoundTo(w1, k, w.queue[0].backendId) <==> BoundTo(w, k, w.queue[0].backendId);
    OnRegStateStatus(w1, w.queue[0], id);
    forall j | 0 <= j < |t.entries| ensures RowAgrees(t, j) && BindingCurrent(t, j) {
      assert RowAgrees(w, j) && BindingCurrent(w, j);
    }
    forall b | b in t.bound ensures exists k :: BoundTo(t, k, b) {
      var k :| BoundTo(w, k, b);
      assert BoundTo(t, k, b);
    }
  }

  lemma QueueKeeps(w: World, queue: seq<RegEvent>, running: bool)
    requires Inv(w)
    ensures Inv(w.(queue := queue, running := running))
  {
    var t := w.(queue := queue, running := running);
    forall j | 0 <= j < |t.entries| ensures RowAgrees(t, j) && BindingCurrent(t, j) {
      assert RowAgrees(w, j) && BindingCurrent(w, j);
    }
    SameBindings(w, t);
  }

  lemma RowRef(w: World, k: AccountId)
    requires Inv(w) && k in w.rows
    ensures var i := IndexOf(w.entries, k);
            i >= 0 && w.rows[k].id == k && w.rows[k].passwordRef == w.entries[i].account.passwordRef
  {
    assert Known(w, k);
    assert RowAgrees(w, IndexOf(w.entries, k));
  }

  lemma RestartDistinct(w: World, order: seq<AccountId>)
    requires Inv(w) && QueryOrder(w.rows, order)
    ensures Distinct(Restart(w, order).entries)
  {
    var t := Restart(w, order).entries;
    forall i, j | 0 <= i < j < |t|
      ensures t[i].account.id != t[j].account.id && t[i].account.passwordRef != t[j].account.passwordRef
    {
      RestartPair(w, order, i, j);
    }
  }

  lemma RestartPair(w: World, order: seq<AccountId>, i: nat, j: nat)
    requires Inv(w) && QueryOrder(w.rows, order) && i < j < |order|
    ensures w.rows[order[i]].id != w.rows[order[j]].id
    ensures w.rows[order[i]].passwordRef != w.rows[order[j]].passwordRef
  {
    RowRef(w, order[i]);
    RowRef(w, order[j]);
    assert order[i] != order[j];
    OtherIds(w.entries, IndexOf(w.entries, order[i]), IndexOf(w.entries, order[j]));
  }

  lemma RestartRows(w: World, order: seq<AccountId>)
    requires Inv(w) && QueryOrder(w.rows, order)
    ensures RowsAgree(Restart(w, order))
  {
    var t := Restart(w, order);
    forall i | 0 <= i < |t.entries| ensures RowAgrees(t, i) && t.entries[i].account.id == order[i] {
      RowRef(w, order[i]);
      assert t.entries[i] == Entry(Loaded(w.rows[order[i]]), false);
    }
    forall k ensures k in t.rows <==> Known(t, k) {
      if k in t.rows {
        var i :| 0 <= i < |order| && order[i] == k;
        assert t.entries[i].account.id == k;
      }
    }
  }

  lemma RestartKeeps(w: World, order: seq<AccountId>)
    requires Inv(w) && QueryOrder(w.rows, order)
    ensures Inv(Restart(w, order))
  {
    var t := Restart(w, order);
    RestartRows(w, order);
    RestartDistinct(w, order);
    forall id ensures StatusIsFold(t, id) {}
  }

  /** One step of any kind. */
  lemma NextKeeps(w: World, st: Step)
    requires Inv(w) && Enabled(w, st)
    ensures Inv(Next(w, st))
  {
    match st
    case AddStep(acc, password, ref, rowId, setOk, insertOk, eraseOk, fate) =>
      AddKeeps(w, acc, password, ref, rowId, setOk, insertOk, eraseOk, fate);
    case RemoveStep(id, eraseOk, deleteOk) => RemoveKeeps(w, id, eraseOk, deleteOk);
    case UpdateStep(acc, updateOk, fate) => UpdateKeeps(w, acc, updateOk, fate);
    case SetDefaultStep(id, outcome) => SetDefaultKeeps(w, id, outcome);
    case SetEnabledStep(id, enabled, updateOk, fate) => SetEnabledKeeps(w, id, enabled, updateOk, fate);
    case SetPasswordStep(id, password, setOk, fate) => SetPasswordKeeps(w, id, password, setOk, fate);
    case RegisterStep(id, fate) => RegisterKeeps(w, id, fate);
    case UnregisterStep(id) => UnregisterKeeps(w, id);
    case StartupStep(fate) => StartupKeeps(w, 0, fate);
    case ReregisterStep(fate) => ReregisterKeeps(w, StartupIds(w.entries), fate);
    case StartBackendStep => QueueKeeps(w, w.queue, true);
    case RemoteRegStep(event) => QueueKeeps(w, w.queue + [event], w.running);
    case DeliverStep(owner) => DeliverKeeps(w, owner);
    case RestartStep(order) => RestartKeeps(w, order);
  }

  lemma {:induction false} RunKeeps(w: World, steps: seq<Step>)
    requires Inv(w) && IsRun(w, steps)
    ensures Inv(Run(w, steps))
    decreases |steps|
  {
    if steps != [] {
      NextKeeps(w, steps[0]);
      RunKeeps(Next(w, steps[0]), steps[1..]);
    }
  }

  lemma Reachable(steps: seq<Step>)
    requires IsRun(EMPTY_WORLD, steps)
    ensures Inv(Run(EMPTY_WORLD, steps))
  {
    RunKeeps(EMPTY_WORLD, steps);
  }
}
