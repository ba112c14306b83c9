/** The account manager and the objects it drives, in the imperative form of the
    program. Storage and backend failures are arguments; every method is tied to
    the function of the same name in AccountsSpec. */
module AccountsManagement {
  import Spec = AccountsSpec
  import opened AccountsInvariant

  datatype Option<+T> = None | Some(value: T)

  /** A keychain is a map whose operations may be refused. */
  class Keychain {
    var secrets: map<string, string>

    constructor ()
      ensures secrets == map[]
    {
      secrets := map[];
    }

    method Set(ref: string, password: string, setOk: bool) returns (ok: bool)
      modifies this
      ensures ok == setOk && secrets == if setOk then old(secrets)[ref := password] else old(secrets)
    {
      if setOk { secrets := secrets[ref := password]; }
      ok := setOk;
    }

    method Erase(ref: string, eraseOk: bool)
      modifies this
      ensures secrets == if eraseOk then old(secrets) - {ref} else old(secrets)
    {
      if eraseOk { secrets := secrets - {ref}; }
    }

    method Get(ref: string, denied: bool) returns (r: Option<string>)
      ensures r == if ref in secrets && !denied then Some(secrets[ref]) else None
    {
      if ref in secrets && !denied { r := Some(secrets[ref]); } else { r := None; }
    }
  }

  /** The accounts table with its unique index on the default flag. */
  class AccountsTable {
    var rows: map<Spec.AccountId, Spec.Account>

    constructor ()
      ensures rows == map[]
    {
      rows := map[];
    }

    /** The insert statement: the index refuses a second default. */
    method Insert(a: Spec.Account, rowId: Spec.AccountId, insertOk: bool) returns (ok: bool)
      modifies this
      ensures ok == (insertOk && !(a.isDefault && Spec.SomeDefault(old(rows))))
      ensures rows == if ok then old(rows)[rowId := a.(id := rowId)] else old(rows)
    {
      ok := insertOk && !(a.isDefault && Spec.SomeDefault(rows));
      if ok { rows := rows[rowId := a.(id := rowId)]; }
    }

    method Delete(id: Spec.AccountId, deleteOk: bool)
      modifies this
      ensures rows == if deleteOk then old(rows) - {id} else old(rows)
    {
      if deleteOk { rows := rows - {id}; }
    }

    /** The update statement names neither is_default nor password_ref. */
    method Update(a: Spec.Account, updateOk: bool)
      modifies this
      ensures rows == if updateOk && a.id in old(rows) then old(rows)[a.id := Spec.Merged(a, old(rows)[a.id])] else old(rows)
    {
      if updateOk && a.id in rows { rows := rows[a.id := Spec.Merged(a, rows[a.id])]; }
    }

    method UpdateEnabled(id: Spec.AccountId, enabled: bool, updateOk: bool)
      modifies this
      ensures rows == if updateOk && id in old(rows) then old(rows)[id := old(rows)[id].(enabled := enabled)] else old(rows)
    {
      if updateOk && id in rows { rows := rows[id := rows[id].(enabled := enabled)]; }
    }

    /** BEGIN, clear the old default, set the new one, COMMIT or ROLLBACK. */
    method MoveDefault(id: Spec.AccountId, outcome: Spec.Outcome) returns (ok: bool)
      modifies this
      ensures ok == (outcome == Spec.Committed)
      ensures rows == if outcome == Spec.RolledBack then old(rows) else Spec.DefaultRows(old(rows), id)
    {
      var before := rows;
      rows := map k | k in rows :: rows[k].(isDefault := false);
      if id in rows { rows := rows[id := rows[id].(isDefault := true)]; }
      assert rows == Spec.DefaultRows(before, id);
      if outcome == Spec.RolledBack { rows := before; }
      ok := outcome == Spec.Committed;
    }
  }

  /** The account half of the in-memory backend. */
  class AccountBackend {
    var running: bool
    var bound: map<Spec.BackendAccountId, Spec.Settings>
    var nextId: Spec.BackendAccountId
    var queue: seq<Spec.RegEvent>

    constructor ()
      ensures !running && bound == map[] && nextId == 1 && queue == []
    {
      running, bound, nextId, queue := false, map[], 1, [];
    }

    method AddAccount(settings: Spec.Settings, refused: bool) returns (id: Option<Spec.BackendAccountId>)
      modifies this
      ensures running == old(running) && queue == old(queue)
      ensures if old(running) && !refused
              then id == Some(old(nextId)) && bound == old(bound)[old(nextId) := settings] && nextId == old(nextId) + 1
              else id == None && bound == old(bound) && nextId == old(nextId)
    {
      if !running || refused { return None; }
      id := Some(nextId);
      bound := bound[nextId := settings];
      nextId := nextId + 1;
    }

    method RemoveAccount(id: Spec.BackendAccountId)
      modifies this`bound
      ensures bound == old(bound) - {id}
    {
      bound := bound - {id};
    }
  }

  class AccountsManager {
    const backend: AccountBackend
    const table: AccountsTable
    const keychain: Keychain

    var entries: seq<Spec.Entry>
    var cache: map<string, string>
    var backendIds: map<Spec.AccountId, Spec.BackendAccountId>
    var states: map<Spec.AccountId, Spec.RegistrationState>
    var errors: map<Spec.AccountId, Spec.RegError>
    ghost var delivered: map<Spec.BackendAccountId, seq<Spec.RegEvent>>

    ghost function World(): Spec.World
      reads this, backend, table, keychain
    {
      Spec.World(table.rows, keychain.secrets, entries, cache, backendIds, states, errors,
                 backend.running, backend.bound, backend.nextId, backend.queue, delivered)
    }

    constructor (backend: AccountBackend, table: AccountsTable, keychain: Keychain)
      requires !backend.running && backend.bound == map[] && backend.nextId == 1 && backend.queue == []
      requires table.rows == map[] && keychain.secrets == map[]
      ensures this.backend == backend && this.table == table && this.keychain == keychain
      ensures World() == Spec.EMPTY_WORLD
    {
      this.backend, this.table, this.keychain := backend, table, keychain;
      entries, cache, backendIds, states, errors, delivered := [], map[], map[], map[], map[], map[];
    }

    /** The search every operation starts with. */
    method FindIndex(id: Spec.AccountId) returns (i: int)
      ensures i == Spec.IndexOf(entries, id)
    {
      i := 0;
      while i < |entries|
        invariant 0 <= i <= |entries|
        invariant forall k | 0 <= k < i :: !Spec.Matches(entries[k], id, false)
      {
        if entries[i].account.id == id {
          assert Spec.IsFirst(entries, id, false, i);
          return;
        }
        i := i + 1;
      }
      i := -1;
    }

    method RegisterAccount(id: Spec.AccountId, fate: Spec.Fate) returns (ok: bool)
      modifies this, backend
      ensures World() == Spec.RegisterAccount(old(World()), id, fate)
      ensures |entries| == |old(entries)|
      ensures var i := Spec.IndexOf(old(entries), id); ok == (backend.running && i >= 0 && entries[i].registered)
    {
      var i := FindIndex(id);
      if i < 0 { return false; }
      if !backend.running { return false; }
      if entries[i].registered { return true; }
      var a := entries[i].account;
      var password: string;
      if a.passwordRef in cache {
        password := cache[a.passwordRef];
      } else {
        var fetched := keychain.Get(a.passwordRef, id in fate.keyDenied);
        if fetched == None { return false; }
        password := fetched.value;
        cache := cache[a.passwordRef := password];
      }
      var backendId := backend.AddAccount(Spec.Translate(a.profile, password), id in fate.backendDenied);
      if backendId == None { return false; }
      backendIds := backendIds[id := backendId.value];
      entries := entries[i := entries[i].(registered := true)];
      return true;
    }

    method UnregisterAccount(id: Spec.AccountId)
      modifies this, backend`bound
      ensures World() == Spec.UnregisterAccount(old(World()), id)
    {
      var i := 0;
      while i < |entries|
        invariant 0 <= i <= |entries|
        invariant World() == old(World())
        invariant forall k | 0 <= k < i :: !Spec.Matches(entries[k], id, true)
      {
        if entries[i].account.id == id && entries[i].registered {
          assert Spec.IsFirst(entries, id, true, i);
          if id in backendIds {
            backend.RemoveAccount(backendIds[id]);
            backendIds := backendIds - {id};
          }
          entries := entries[i := entries[i].(registered := false)];
          states := states[id := Spec.Unregistered];
          errors := errors - {id};
          return;
        }
        i := i + 1;
      }
    }

    method RegisterStartupAccounts(fate: Spec.Fate)
      modifies this, backend
      ensures World() == Spec.RegisterStartupFrom(old(World()), 0, fate)
    {
      var i := 0;
      while i < |entries|
        invariant 0 <= i <= |entries|
        invariant Spec.RegisterStartupFrom(World(), i, fate) == Spec.RegisterStartupFrom(old(World()), 0, fate)
      {
        if entries[i].account.enabled && entries[i].account.registerOnStartup {
          var _ := RegisterAccount(entries[i].account.id, fate);
        }
        i := i + 1;
      }
    }

    /** The accounts to re-register, collected before the first change. */
    method StartupTargets() returns (targets: seq<Spec.AccountId>)
      ensures targets == Spec.StartupIds(entries)
    {
      targets := [];
      var i := 0;
      while i < |entries|
        invariant 0 <= i <= |entries|
        invariant targets + Spec.StartupIds(entries[i..]) == Spec.StartupIds(entries)
      {
        assert entries[i..][1..] == entries[i + 1..];
        if entries[i].account.enabled && entries[i].account.registerOnStartup {
          targets := targets + [entries[i].account.id];
        }
        i := i + 1;
      }
      assert entries[i..] == [];
    }

    method ReregisterAllEnabled(fate: Spec.Fate)
      modifies this, backend
      ensures World() == Spec.Reregister(old(World()), Spec.StartupIds(old(entries)), fate)
    {
      var targets := StartupTargets();
      var i := 0;
      assert targets[i..] == targets;
      while i < |targets|
        invariant 0 <= i <= |targets|
        invariant Spec.Reregister(World(), targets[i..], fate) == Spec.Reregister(old(World()), targets, fate)
      {
        assert targets[i..][1..] == targets[i + 1..];
        UnregisterAccount(targets[i]);
        var _ := RegisterAccount(targets[i], fate);
        i := i + 1;
      }
    }

    /** `ref` and `rowId` are the fresh values the id generators return. */
    method Add(acc: Spec.Account, password: string, ref: string, rowId: Spec.AccountId,
               setOk: bool, insertOk: bool, eraseOk: bool, fate: Spec.Fate)
      returns (id: Spec.AccountId)
      requires Spec.FreshRef(World(), ref) && rowId >= 1 && rowId !in table.rows
      modifies this, backend, table, keychain
      ensures World() == Spec.Add(old(World()), acc, password, ref, rowId, setOk, insertOk, eraseOk, fate)
      ensures id == if setOk && Spec.InsertAccepted(old(World()), acc, insertOk) then rowId else Spec.INVALID_ACCOUNT
    {
      var a := acc.(passwordRef := ref);
      var ok := keychain.Set(ref, password, setOk);
      if !ok { return Spec.INVALID_ACCOUNT; }
      ok := table.Insert(a, rowId, insertOk);
      if !ok {
        assert old(keychain.secrets)[ref := password] - {ref} == old(keychain.secrets) - {ref};
        keychain.Erase(ref, eraseOk);
        return Spec.INVALID_ACCOUNT;
      }
      a := a.(id := rowId);
      entries := entries + [Spec.Entry(a, false)];
      cache := cache[ref := password];
      if a.enabled && a.registerOnStartup {
        var _ := RegisterAccount(rowId, fate);
      }
      return rowId;
    }

    method Remove(id: Spec.AccountId, eraseOk: bool, deleteOk: bool) returns (ok: bool)
      modifies this, backend, table, keychain
      ensures World() == Spec.Remove(old(World()), id, eraseOk, deleteOk)
      ensures ok == (Spec.IndexOf(old(entries), id) >= 0 && deleteOk)
    {
      var i := FindIndex(id);
      if i < 0 { return false; }
      if entries[i].registered {
        UnregisterAccount(id);
      }
      keychain.Erase(entries[i].account.passwordRef, eraseOk);
      cache := cache - {entries[i].account.passwordRef};
      table.Delete(id, deleteOk);
      if !deleteOk { return false; }
      entries := entries[..i] + entries[i + 1..];
      return true;
    }

    method Update(acc: Spec.Account, updateOk: bool, fate: Spec.Fate) returns (ok: bool)
      modifies this, backend, table
      ensures World() == Spec.Update(old(World()), acc, updateOk, fate)
      ensures ok == (Spec.IndexOf(old(entries), acc.id) >= 0 && updateOk)
    {
      var i := FindIndex(acc.id);
      if i < 0 { return false; }
      var hadLiveAccount := entries[i].registered;
      if !updateOk { return false; }
      table.Update(acc, updateOk);
      if hadLiveAccount {
        UnregisterAccount(acc.id);
      }
      entries := entries[i := entries[i].(account := Spec.Merged(acc, entries[i].account))];
      if entries[i].account.enabled && (hadLiveAccount || entries[i].account.registerOnStartup) {
        var _ := RegisterAccount(acc.id, fate);
      }
      return true;
    }

    method SetDefault(id: Spec.AccountId, outcome: Spec.Outcome) returns (ok: bool)
      modifies this, table
      ensures World() == Spec.SetDefault(old(World()), id, outcome)
      ensures ok == (Spec.IndexOf(old(entries), id) >= 0 && outcome == Spec.Committed)
    {
      var i := FindIndex(id);
      if i < 0 { return false; }
      ok := table.MoveDefault(id, outcome);
      if !ok { return; }
      i := 0;
      while i < |entries|
        invariant 0 <= i <= |entries| == |old(entries)|
        invariant forall k | 0 <= k < i :: entries[k] == Spec.DefaultEntries(old(entries), id)[k]
        invariant forall k | i <= k < |entries| :: entries[k] == old(entries)[k]
        invariant World() == old(World()).(rows := Spec.DefaultRows(old(World()).rows, id), entries := entries)
      {
        var a := entries[i].account;
        entries := entries[i := entries[i].(account := a.(isDefault := a.id == id))];
        i := i + 1;
      }
      assert entries == Spec.DefaultEntries(old(entries), id);
    }

    method SetEnabled(id: Spec.AccountId, enabled: bool, updateOk: bool, fate: Spec.Fate) returns (ok: bool)
      modifies this, backend, table
      ensures World() == Spec.SetEnabled(old(World()), id, enabled, updateOk, fate)
      ensures ok == (Spec.IndexOf(old(entries), id) >= 0
                     && (updateOk || old(entries)[Spec.IndexOf(old(entries), id)].account.enabled == enabled))
    {
      var i := FindIndex(id);
      if i < 0 { return false; }
      if entries[i].account.enabled == enabled { return true; }
      if !updateOk { return false; }
      table.UpdateEnabled(id, enabled, updateOk);
      entries := entries[i := entries[i].(account := entries[i].account.(enabled := enabled))];
      if enabled {
        var _ := RegisterAccount(id, fate);
      } else {
        UnregisterAccount(id);
      }
      return true;
    }

    method SetPassword(id: Spec.AccountId, password: string, setOk: bool, fate: Spec.Fate) returns (done: bool)
      modifies this, backend, keychain
      ensures World() == Spec.SetPassword(old(World()), id, password, setOk, fate)
      ensures done == (Spec.IndexOf(old(entries), id) >= 0 && setOk)
    {
      var i := FindIndex(id);
      if i < 0 { return false; }
      var a := entries[i].account;
      var ok := keychain.Set(a.passwordRef, password, setOk);
      if !ok { return false; }
      cache := cache[a.passwordRef := password];
      var wasLive := entries[i].registered;
      if wasLive { UnregisterAccount(id); }
      if a.enabled && (wasLive || a.registerOnStartup) {
        var _ := RegisterAccount(id, fate);
      }
      return true;
    }

    method AccountIdForBackend(b: Spec.BackendAccountId) returns (id: Spec.AccountId)
      requires Spec.INVALID_ACCOUNT !in backendIds
      ensures Spec.IsOwner(World(), b, id)
    {
      var left := backendIds;
      while true
        invariant forall k | k in left :: k in backendIds && left[k] == backendIds[k]
        invariant forall k | k in backendIds && k !in left :: backendIds[k] != b
        decreases left.Keys
      {
        if k :| k in left {
          if left[k] == b { return k; }
          left := left - {k};
        } else {
          return Spec.INVALID_ACCOUNT;
        }
      }
    }

    /** The oldest queued reg-state event reaches the manager. */
    method DeliverRegState() returns (id: Spec.AccountId)
      requires backend.queue != [] && Spec.INVALID_ACCOUNT !in backendIds
      modifies this, backend
      ensures Spec.IsOwner(old(World()), old(backend.queue)[0].backendId, id)
      ensures World() == Spec.Deliver(old(World()), id)
    {
      var e := backend.queue[0];
      id := AccountIdForBackend(e.backendId);
      backend.queue := backend.queue[1..];
      if id == Spec.INVALID_ACCOUNT { return; }
      var lastError := if id in errors then errors[id] else Spec.NO_ERROR;
      var upd := Spec.MapRegEvent(e.active, e.code, e.reason, lastError);
      delivered := delivered[e.backendId := Spec.History(old(World()), e.backendId) + [e]];
      states := states[id := upd.state];
      errors := errors[id := upd.error];
    }
  }
}
