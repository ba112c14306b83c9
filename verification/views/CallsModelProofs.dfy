/** The incremental refresh against a plain reset. */
module CallsModelProofs {
  import opened SipTypes
  import opened CallsModelSpec

  // -------------------------------------------------------------------------
  // A view that replays the signals stays in step
  // -------------------------------------------------------------------------

  /** No two fields show the same for different contents. */
  lemma DataTells(a: CallEntry, b: CallEntry)
    ensures Data(a, IdRole) == Data(b, IdRole) <==> a.id == b.id
    ensures Data(a, AccountIdRole) == Data(b, AccountIdRole) <==> a.accountId == b.accountId
    ensures Data(a, RemoteUriRole) == Data(b, RemoteUriRole) <==> a.remoteUri == b.remoteUri
    ensures Data(a, RemoteDisplayNameRole) == Data(b, RemoteDisplayNameRole) <==> a.remoteDisplayName == b.remoteDisplayName
    ensures Data(a, StateRole) == Data(b, StateRole) <==> a.state == b.state
    ensures Data(a, HeldRole) == Data(b, HeldRole) <==> a.held == b.held
    ensures Data(a, MutedRole) == Data(b, MutedRole) <==> a.muted == b.muted
    ensures Data(a, RecordingRole) == Data(b, RecordingRole) <==> a.recording == b.recording
    ensures Data(a, DirectionRole) == Data(b, DirectionRole) <==> a.direction == b.direction
  {
    StateNamesDiffer(a.state, b.state);
    assert DirectionName(Inbound)[0] != DirectionName(Outbound)[0];
  }

  lemma StateNamesDiffer(a: CallState, b: CallState)
    ensures StateName(a) == StateName(b) <==> a == b
  {
    assert StateName(Idle)[0] == 'i' && StateName(Calling)[0] == 'c' && StateName(EarlyMedia)[0] == 'e'
           && StateName(Confirmed)[0] == 'a' && StateName(Disconnected)[0] == 'd';
  }

  /** The roles announced among the first `n`. */
  function AnnouncedUpTo(was: CallEntry, e: CallEntry, n: nat): seq<Role>
    requires n <= |ANNOUNCED|
  {
    Differing(was, e, ANNOUNCED[..n])
  }

  lemma OneMore(was: CallEntry, e: CallEntry, n: nat)
    requires n < |ANNOUNCED|
    ensures AnnouncedUpTo(was, e, n + 1)
            == Append(AnnouncedUpTo(was, e, n), Data(was, ANNOUNCED[n]) != Data(e, ANNOUNCED[n]), ANNOUNCED[n])
  {
    hide Data, ANNOUNCED;
    assert ANNOUNCED[..n + 1][..n] == ANNOUNCED[..n];
  }

  /** Comparing the fields one by one finds what the rows show differently. */
  lemma FieldByField(was: CallEntry, e: CallEntry)
    ensures var c := Append([], was.accountId != e.accountId, AccountIdRole);
            var c := Append(c, was.remoteUri != e.remoteUri, RemoteUriRole);
            var c := Append(c, was.remoteDisplayName != e.remoteDisplayName, RemoteDisplayNameRole);
            var c := Append(c, was.state != e.state, StateRole);
            var c := Append(c, was.held != e.held, HeldRole);
            var c := Append(c, was.muted != e.muted, MutedRole);
            var c := Append(c, was.recording != e.recording, RecordingRole);
            var c := Append(c, was.direction != e.direction, DirectionRole);
            c == ChangedRoles(was, e)
  {
    assert ANNOUNCED[..8] == ANNOUNCED && AnnouncedUpTo(was, e, 8) == ChangedRoles(was, e);
    hide AnnouncedUpTo, Append;
    FirstFields(was, e);
    LastFields(was, e);
  }

  lemma NoneYet(was: CallEntry, e: CallEntry)
    ensures AnnouncedUpTo(was, e, 0) == []
  {
  }

  lemma AnnouncedInOrder()
    ensures |ANNOUNCED| == 8
    ensures ANNOUNCED[0] == AccountIdRole && ANNOUNCED[1] == RemoteUriRole && ANNOUNCED[2] == RemoteDisplayNameRole
    ensures ANNOUNCED[3] == StateRole && ANNOUNCED[4] == HeldRole && ANNOUNCED[5] == MutedRole
    ensures ANNOUNCED[6] == RecordingRole && ANNOUNCED[7] == DirectionRole
  {
  }

  lemma FirstFields(was: CallEntry, e: CallEntry)
    ensures var c := Append([], was.accountId != e.accountId, AccountIdRole);
            var c := Append(c, was.remoteUri != e.remoteUri, RemoteUriRole);
            var c := Append(c, was.remoteDisplayName != e.remoteDisplayName, RemoteDisplayNameRole);
            var c := Append(c, was.state != e.state, StateRole);
            c == AnnouncedUpTo(was, e, 4)
  {
    DataTells(was, e);
    NoneYet(was, e);
    AnnouncedInOrder();
    hide AnnouncedUpTo, Append, Data, ANNOUNCED;
    OneMore(was, e, 0);
    OneMore(was, e, 1);
    OneMore(was, e, 2);
    OneMore(was, e, 3);
  }

  lemma LastFields(was: CallEntry, e: CallEntry)
    ensures var c := AnnouncedUpTo(was, e, 4);
            var c := Append(c, was.held != e.held, HeldRole);
            var c := Append(c, was.muted != e.muted, MutedRole);
            var c := Append(c, was.recording != e.recording, RecordingRole);
            var c := Append(c, was.direction != e.direction, DirectionRole);
            c == AnnouncedUpTo(was, e, 8)
  {
    DataTells(was, e);
    AnnouncedInOrder();
    hide AnnouncedUpTo, Append, Data, ANNOUNCED;
    OneMore(was, e, 4);
    OneMore(was, e, 5);
    OneMore(was, e, 6);
    OneMore(was, e, 7);
  }

  predicate NoneTwice(roles: seq<Role>) {
    forall i, j | 0 <= i < j < |roles| :: roles[i] != roles[j]
  }

  lemma {:induction false} DifferingExact(was: CallEntry, e: CallEntry, roles: seq<Role>)
    requires NoneTwice(roles)
    ensures forall role :: role in Differing(was, e, roles) <==> role in roles && Data(was, role) != Data(e, role)
    ensures NoneTwice(Differing(was, e, roles))
  {
    hide Data;
    if roles != [] {
      var init, last := roles[..|roles| - 1], roles[|roles| - 1];
      DifferingExact(was, e, init);
      assert roles == init + [last];
      assert last !in init;
    }
  }

  /** Exactly the roles that show something else, each once. */
  lemma ChangedRolesExact(was: CallEntry, e: CallEntry)
    requires was.id == e.id
    ensures forall role :: role in ChangedRoles(was, e) <==> Data(was, role) != Data(e, role)
    ensures NoneTwice(ChangedRoles(was, e))
  {
    DifferingExact(was, e, ANNOUNCED);
    DataTells(was, e);
    forall role ensures role in ANNOUNCED <==> role != IdRole {
      AllAnnounced(role);
    }
    hide Differing, Data, ANNOUNCED;
  }

  lemma AllAnnounced(role: Role)
    ensures role in ANNOUNCED <==> role != IdRole
  {
    AnnouncedInOrder();
    hide ANNOUNCED;
  }

  /** Reading exactly the roles that changed gives the new entry; reading any
      fewer does not. */
  lemma RereadChanged(was: CallEntry, e: CallEntry, roles: seq<Role>)
    requires was.id == e.id
    ensures Reread(was, e, roles) == e <==> forall role | role in ChangedRoles(was, e) :: role in roles
    ensures ChangedRoles(was, e) == [] <==> was == e
  {
    ChangedRolesExact(was, e);
    DataTells(was, e);
    hide ChangedRoles, Data;
    var changed := ChangedRoles(was, e);
    if changed != [] { assert changed[0] in changed; }
    RereadOne(was, e, roles);
  }

  lemma RereadOne(was: CallEntry, e: CallEntry, roles: seq<Role>)
    requires was.id == e.id
    ensures Reread(was, e, roles) == e <==> forall role | Data(was, role) != Data(e, role) :: role in roles
  {
    var r := Reread(was, e, roles);
    forall role ensures Data(r, role) == Data(if role in roles then e else was, role) {
      RereadShows(was, e, roles, role);
    }
    DataTells(r, e);
    hide Data, Reread;
  }

  lemma RereadShows(was: CallEntry, e: CallEntry, roles: seq<Role>, role: Role)
    requires was.id == e.id
    ensures Data(Reread(was, e, roles), role) == Data(if role in roles then e else was, role)
  {
    hide StateName, DirectionName;
  }

  lemma {:induction false} InStepAppend(view: seq<CallEntry>, a: seq<Emission>, b: seq<Emission>)
    requires InStep(view, a) && InStep(LastRows(view, a), b)
    ensures InStep(view, a + b) && LastRows(view, a + b) == LastRows(LastRows(view, a), b)
    decreases |a|
  {
    if a == [] {
      assert a + b == b;
    } else {
      assert (a + b)[1..] == a[1..] + b;
      InStepAppend(a[0].rows, a[1..], b);
    }
  }

  lemma OneInStep(view: seq<CallEntry>, e: Emission)
    requires Accepts(view, e) && Follow(view, e) == e.rows
    ensures InStep(view, [e]) && LastRows(view, [e]) == e.rows
  {
    hide Reread, Without;
    assert [e][1..] == [];
    NothingInStep(e.rows);
  }

  lemma NothingInStep(view: seq<CallEntry>)
    ensures InStep(view, []) && LastRows(view, []) == view
  {
  }

  lemma {:induction false} RemovalInStep(rows: seq<CallEntry>, next: seq<CallEntry>, n: nat)
    requires n <= |rows|
    ensures InStep(rows, RemovalScript(rows, next, n))
    ensures LastRows(rows, RemovalScript(rows, next, n)) == RemovedRows(rows, next, n)
    decreases n
  {
    hide Has, InStep, Reread;
    if n == 0 {
      NothingInStep(rows);
    } else if Has(next, rows[n - 1].id) {
      RemovalInStep(rows, next, n - 1);
    } else {
      var e := Emission(RowRemoved(n - 1), Without(rows, n - 1));
      OneInStep(rows, e);
      RemovalInStep(e.rows, next, n - 1);
      InStepAppend(rows, [e], RemovalScript(e.rows, next, n - 1));
      hide Without, LastRows;
    }
  }

  lemma UpsertInStep(rows: seq<CallEntry>, e: CallEntry)
    ensures InStep(rows, UpsertSignal(rows, e))
    ensures LastRows(rows, UpsertSignal(rows, e)) == Upsert(rows, e)
  {
    var i := IndexOf(rows, e.id);
    var s := UpsertSignal(rows, e);
    if i >= 0 { RereadChanged(rows[i], e, ChangedRoles(rows[i], e)); }
    if s != [] {
      assert s[1..] == [];
      assert InStep(s[0].rows, []);
    }
  }

  lemma {:induction false} UpsertsInStep(rows: seq<CallEntry>, next: seq<CallEntry>)
    ensures InStep(rows, UpsertScript(rows, next))
    ensures LastRows(rows, UpsertScript(rows, next)) == UpsertAll(rows, next)
    decreases |next|
  {
    if next != [] {
      UpsertInStep(rows, next[0]);
      UpsertsInStep(Upsert(rows, next[0]), next[1..]);
      InStepAppend(rows, UpsertSignal(rows, next[0]), UpsertScript(Upsert(rows, next[0]), next[1..]));
    }
  }

  /** For any old rows and any snapshot, duplicates included. */
  lemma ViewStaysInStep(rows: seq<CallEntry>, next: seq<CallEntry>)
    ensures InStep(rows, Script(rows, next))
    ensures LastRows(rows, Script(rows, next)) == Refreshed(rows, next)
  {
    RemovalInStep(rows, next, |rows|);
    UpsertsInStep(RemovedRows(rows, next, |rows|), next);
    InStepAppend(rows, RemovalScript(rows, next, |rows|), UpsertScript(RemovedRows(rows, next, |rows|), next));
  }

  // -------------------------------------------------------------------------
  // What the rows end up to be
  // -------------------------------------------------------------------------

  /** The rows whose call is also in `other`, in order. */
  function Kept(rows: seq<CallEntry>, other: seq<CallEntry>): seq<CallEntry> {
    if rows == [] then []
    else (if Has(other, rows[0].id) then [rows[0]] else []) + Kept(rows[1..], other)
  }

  /** The entries whose call is not in `rows`, in order. */
  function Newcomers(next: seq<CallEntry>, rows: seq<CallEntry>): seq<CallEntry> {
    if next == [] then []
    else (if Has(rows, next[0].id) then [] else [next[0]]) + Newcomers(next[1..], rows)
  }

  function Ids(rows: seq<CallEntry>): (ids: seq<CallId>)
    ensures |ids| == |rows| && forall i | 0 <= i < |rows| :: ids[i] == rows[i].id
  {
    seq(|rows|, i requires 0 <= i < |rows| => rows[i].id)
  }

  lemma {:induction false} KeptAppend(a: seq<CallEntry>, b: seq<CallEntry>, other: seq<CallEntry>)
    ensures Kept(a + b, other) == Kept(a, other) + Kept(b, other)
  {
    hide Has;
    if a == [] {
      assert a + b == b;
    } else {
      assert (a + b)[1..] == a[1..] + b;
      KeptAppend(a[1..], b, other);
      var first := if Has(other, a[0].id) then [a[0]] else [];
      assert (first + Kept(a[1..], other)) + Kept(b, other) == first + (Kept(a[1..], other) + Kept(b, other));
    }
  }

  lemma KeptEnd(rows: seq<CallEntry>, other: seq<CallEntry>)
    requires rows != []
    ensures var n := |rows| - 1;
            Kept(rows, other) == if Has(other, rows[n].id) then Kept(rows[..n], other) + [rows[n]] else Kept(rows[..n], other)
  {
    var n := |rows| - 1;
    assert Kept([rows[n]][1..], other) == [];
    hide Has;
    assert rows == rows[..n] + [rows[n]];
    KeptAppend(rows[..n], [rows[n]], other);
  }

  /** The backward removal keeps exactly the surviving rows, in order. */
  lemma {:induction false} RemovalKeeps(rows: seq<CallEntry>, next: seq<CallEntry>, n: nat)
    requires n <= |rows|
    ensures RemovedRows(rows, next, n) == Kept(rows[..n], next) + rows[n..]
    decreases n
  {
    if n > 0 {
      var last := rows[n - 1];
      KeptEnd(rows[..n], next);
      assert rows[..n][..n - 1] == rows[..n - 1];
      hide Has, Kept;
      if Has(next, last.id) {
        RemovalKeeps(rows, next, n - 1);
        assert rows[n - 1..] == [last] + rows[n..];
        assert (Kept(rows[..n - 1], next) + [last]) + rows[n..] == Kept(rows[..n - 1], next) + ([last] + rows[n..]);
      } else {
        var rest := Without(rows, n - 1);
        RemovalKeeps(rest, next, n - 1);
        assert rest[..n - 1] == rows[..n - 1] && rest[n - 1..] == rows[n..];
      }
    } else {
      assert Kept(rows[..0], next) + rows[0..] == rows;
    }
  }

  lemma {:induction false} KeptFacts(rows: seq<CallEntry>, other: seq<CallEntry>)
    requires DistinctIds(rows)
    ensures DistinctIds(Kept(rows, other))
    ensures forall e :: e in Kept(rows, other) <==> e in rows && Has(other, e.id)
  {
    if rows != [] {
      var tail := rows[1..];
      assert DistinctIds(tail);
      KeptFacts(tail, other);
      forall e ensures e in Kept(rows, other) <==> e in rows && Has(other, e.id) {
        assert e in rows <==> e == rows[0] || e in tail;
      }
      forall e | e in Kept(tail, other) ensures e.id != rows[0].id {
        var k :| 0 <= k < |tail| && tail[k] == e;
        assert rows[k + 1] == e;
      }
    }
  }

  /** Upserting changes the entry of one call and nothing else. */
  lemma UpsertFacts(rows: seq<CallEntry>, e: CallEntry)
    requires DistinctIds(rows)
    ensures DistinctIds(Upsert(rows, e))
    ensures forall x :: x in Upsert(rows, e) <==> x == e || (x in rows && x.id != e.id)
    ensures Ids(Upsert(rows, e)) == Ids(rows) + (if Has(rows, e.id) then [] else [e.id])
  {
    var i := IndexOf(rows, e.id);
    var t := Upsert(rows, e);
    if i >= 0 {
      forall x ensures x in t <==> x == e || (x in rows && x.id != e.id) {
        if x in t {
          var k :| 0 <= k < |t| && t[k] == x;
          if k != i { assert rows[k] == x; }
        }
        if x in rows && x.id != e.id {
          var k :| 0 <= k < |rows| && rows[k] == x;
          assert t[k] == x;
        }
        assert t[i] == e;
      }
    }
  }

  lemma HasIffId(rows: seq<CallEntry>, id: CallId)
    ensures Has(rows, id) <==> id in Ids(rows)
  {
    if Has(rows, id) {
      var i :| 0 <= i < |rows| && rows[i].id == id;
      assert Ids(rows)[i] == id;
    }
  }

  lemma {:induction false} UpsertAllFacts(rows: seq<CallEntry>, next: seq<CallEntry>)
    requires DistinctIds(rows) && DistinctIds(next)
    ensures DistinctIds(UpsertAll(rows, next))
    ensures forall x :: x in UpsertAll(rows, next) <==> x in next || (x in rows && !Has(next, x.id))
    decreases |next|
  {
    hide Upsert, Has;
    if next != [] {
      var e, tail := next[0], next[1..];
      UpsertFacts(rows, e);
      UpsertAllFacts(Upsert(rows, e), tail);
      forall x ensures x in UpsertAll(rows, next) <==> x in next || (x in rows && !Has(next, x.id)) {
        SplitHas(next, x);
      }
    } else {
      forall x: CallEntry ensures !Has(next, x.id) { HasIffId(next, x.id); }
    }
  }

  lemma {:induction false} UpsertAllOrder(rows: seq<CallEntry>, next: seq<CallEntry>)
    requires DistinctIds(rows) && DistinctIds(next)
    ensures Ids(UpsertAll(rows, next)) == Ids(rows) + Ids(Newcomers(next, rows))
    decreases |next|
  {
    hide Upsert, Has, Ids;
    if next != [] {
      UpsertFacts(rows, next[0]);
      UpsertAllOrder(Upsert(rows, next[0]), next[1..]);
      UpsertedNewcomers(rows, next);
    } else {
      NoIds();
    }
  }

  lemma NoIds()
    ensures Ids([]) == []
  {
  }

  lemma SplitHas(next: seq<CallEntry>, x: CallEntry)
    requires next != [] && DistinctIds(next)
    ensures x in next <==> x == next[0] || x in next[1..]
    ensures Has(next, x.id) <==> next[0].id == x.id || Has(next[1..], x.id)
    ensures !Has(next[1..], next[0].id)
    ensures x in next[1..] ==> x.id != next[0].id
  {
    if Has(next, x.id) {
      var i :| 0 <= i < |next| && next[i].id == x.id;
      if i > 0 { assert next[1..][i - 1].id == x.id; }
    }
  }

  /** After the first upsert the remaining newcomers are the same. */
  lemma UpsertedNewcomers(rows: seq<CallEntry>, next: seq<CallEntry>)
    requires next != [] && DistinctIds(rows) && DistinctIds(next)
    ensures Ids(Newcomers(next, rows))
            == (if Has(rows, next[0].id) then [] else [next[0].id]) + Ids(Newcomers(next[1..], Upsert(rows, next[0])))
  {
    hide Upsert, Has;
    var mid, tail := Upsert(rows, next[0]), next[1..];
    forall i | 0 <= i < |tail| ensures Has(rows, tail[i].id) <==> Has(mid, tail[i].id) {
      SplitHas(next, tail[i]);
      UpsertedHas(rows, next[0], tail[i].id);
    }
    SameNewcomers(tail, rows, mid);
  }

  lemma UpsertedHas(rows: seq<CallEntry>, e: CallEntry, id: CallId)
    requires DistinctIds(rows)
    ensures Has(Upsert(rows, e), id) <==> id == e.id || Has(rows, id)
  {
    UpsertFacts(rows, e);
    HasIffId(rows, id);
    HasIffId(rows, e.id);
    HasIffId(Upsert(rows, e), id);
  }

  lemma {:induction false} SameNewcomers(next: seq<CallEntry>, rows: seq<CallEntry>, other: seq<CallEntry>)
    requires forall i | 0 <= i < |next| :: Has(rows, next[i].id) <==> Has(other, next[i].id)
    ensures Newcomers(next, rows) == Newcomers(next, other)
  {
    if next != [] { SameNewcomers(next[1..], rows, other); }
  }

  lemma NewcomersAmongKept(rows: seq<CallEntry>, next: seq<CallEntry>)
    requires DistinctIds(rows)
    ensures Newcomers(next, Kept(rows, next)) == Newcomers(next, rows)
  {
    KeptFacts(rows, next);
    forall i | 0 <= i < |next| ensures Has(Kept(rows, next), next[i].id) <==> Has(rows, next[i].id) {
      if Has(rows, next[i].id) {
        var k :| 0 <= k < |rows| && rows[k].id == next[i].id;
        assert rows[k] in Kept(rows, next);
      }
    }
    SameNewcomers(next, Kept(rows, next), rows);
  }

  /** Refreshing is as good as a reset: exactly the entries of the snapshot, each
      once; surviving rows keep their order, newcomers follow in the order of
      the snapshot. */
  lemma RefreshIsReset(rows: seq<CallEntry>, next: seq<CallEntry>)
    requires DistinctIds(rows) && DistinctIds(next)
    ensures var r := Refreshed(rows, next);
            && DistinctIds(r)
            && (forall e :: e in r <==> e in next)
            && Ids(r) == Ids(Kept(rows, next)) + Ids(Newcomers(next, rows))
  {
    RemovalKeeps(rows, next, |rows|);
    assert rows[..|rows|] == rows && RemovedRows(rows, next, |rows|) == Kept(rows, next);
    KeptFacts(rows, next);
    UpsertAllFacts(Kept(rows, next), next);
    UpsertAllOrder(Kept(rows, next), next);
    NewcomersAmongKept(rows, next);
  }

  /** A refresh with the snapshot the rows already show says nothing. */
  lemma RefreshIsQuietWhenCurrent(rows: seq<CallEntry>, next: seq<CallEntry>)
    requires DistinctIds(rows) && DistinctIds(next) && forall e :: e in rows <==> e in next
    ensures Script(rows, next) == [] && Refreshed(rows, next) == rows
  {
    QuietRemoval(rows, next, |rows|);
    QuietUpserts(rows, next);
  }

  lemma {:induction false} QuietRemoval(rows: seq<CallEntry>, next: seq<CallEntry>, n: nat)
    requires n <= |rows| && forall e | e in rows :: e in next
    ensures RemovalScript(rows, next, n) == [] && RemovedRows(rows, next, n) == rows
    decreases n
  {
    if n > 0 {
      assert rows[n - 1] in next;
      QuietRemoval(rows, next, n - 1);
    }
  }

  lemma {:induction false} QuietUpserts(rows: seq<CallEntry>, next: seq<CallEntry>)
    requires DistinctIds(rows) && forall e | e in next :: e in rows
    ensures UpsertScript(rows, next) == [] && UpsertAll(rows, next) == rows
    decreases |next|
  {
    if next != [] {
      var e := next[0];
      assert e in next;
      var k :| 0 <= k < |rows| && rows[k] == e;
      var i := IndexOf(rows, e.id);
      assert i == k;
      RereadChanged(e, e, []);
      hide ChangedRoles;
      assert Upsert(rows, e) == rows;
      QuietUpserts(rows, next[1..]);
    }
  }
}
