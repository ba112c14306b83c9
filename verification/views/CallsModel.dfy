/** The calls list model as the object it is. */
module CallsModels {
  import opened SipTypes
  import opened CallsModelSpec
  import Proofs = CallsModelProofs

  class CallsModel {
    var rows: seq<CallEntry>
    var emitted: seq<Emission>

    constructor (snapshot: seq<CallEntry>)
      ensures rows == Refreshed([], snapshot)
      ensures emitted == Script([], snapshot)
    {
      rows, emitted := [], [];
      new;
      Refresh(snapshot);
    }

    method Emit(signal: RowSignal)
      modifies this`emitted
      ensures emitted == old(emitted) + [Emission(signal, rows)]
    {
      emitted := emitted + [Emission(signal, rows)];
    }

    static method AnyOf(entries: seq<CallEntry>, id: CallId) returns (found: bool)
      ensures found == Has(entries, id)
    {
      var k := 0;
      while k < |entries|
        invariant 0 <= k <= |entries|
        invariant forall j | 0 <= j < k :: entries[j].id != id
      {
        if entries[k].id == id { return true; }
        k := k + 1;
      }
      return false;
    }

    method FindRow(id: CallId) returns (row: int)
      ensures row == IndexOf(rows, id)
    {
      row := 0;
      while row < |rows|
        invariant 0 <= row <= |rows|
        invariant forall j | 0 <= j < row :: rows[j].id != id
      {
        if rows[row].id == id { return; }
        row := row + 1;
      }
      return -1;
    }

    /** Every listener that follows the signals stays in step, and the rows end
        up as the edit of the old rows towards the snapshot. */
    method Refresh(next: seq<CallEntry>)
      modifies this
      ensures rows == Refreshed(old(rows), next)
      ensures emitted == old(emitted) + Script(old(rows), next)
      ensures InStep(old(rows), emitted[|old(emitted)|..])
      ensures DistinctIds(old(rows)) && DistinctIds(next) ==>
                DistinctIds(rows) && forall e :: e in rows <==> e in next
    {
      hide RemovedRows, RemovalScript, Upsert, UpsertSignal, Script, Refreshed, InStep, DistinctIds;
      RemoveMissing(next);
      ghost var kept, removals := rows, emitted;
      ghost var done: seq<Emission> := [];
      var j := 0;
      assert next[0..] == next;
      while j < |next|
        invariant 0 <= j <= |next|
        invariant UpsertAll(rows, next[j..]) == UpsertAll(kept, next)
        invariant emitted == removals + done
        invariant done + UpsertScript(rows, next[j..]) == UpsertScript(kept, next)
      {
        assert next[j..][0] == next[j] && next[j..][1..] == next[j + 1..];
        done := done + UpsertSignal(rows, next[j]);
        UpsertRow(next[j]);
        j := j + 1;
      }
      assert done == UpsertScript(kept, next);
      Complete(old(rows), next, done);
      SliceOff(old(emitted), Script(old(rows), next));
      assert emitted == old(emitted) + Script(old(rows), next);
    }

    static lemma Complete(was: seq<CallEntry>, next: seq<CallEntry>, done: seq<Emission>)
      requires done == UpsertScript(RemovedRows(was, next, |was|), next)
      ensures RemovalScript(was, next, |was|) + done == Script(was, next)
      ensures UpsertAll(RemovedRows(was, next, |was|), next) == Refreshed(was, next)
      ensures InStep(was, Script(was, next))
      ensures DistinctIds(was) && DistinctIds(next) ==>
                DistinctIds(Refreshed(was, next)) && forall e :: e in Refreshed(was, next) <==> e in next
    {
      Proofs.ViewStaysInStep(was, next);
      if DistinctIds(was) && DistinctIds(next) { Proofs.RefreshIsReset(was, next); }
    }

    static lemma SliceOff(before: seq<Emission>, more: seq<Emission>)
      ensures (before + more)[|before|..] == more
    {
    }

    /** First pass, from the last row to the first. */
    method RemoveMissing(next: seq<CallEntry>)
      modifies this
      ensures rows == RemovedRows(old(rows), next, |old(rows)|)
      ensures emitted == old(emitted) + RemovalScript(old(rows), next, |old(rows)|)
    {
      hide Has;
      var i := |rows| - 1;
      while i >= 0
        invariant -1 <= i < |rows|
        invariant RemovedRows(rows, next, i + 1) == RemovedRows(old(rows), next, |old(rows)|)
        invariant emitted + RemovalScript(rows, next, i + 1) == old(emitted) + RemovalScript(old(rows), next, |old(rows)|)
      {
        var stillThere := AnyOf(next, rows[i].id);
        if !stillThere {
          rows := rows[..i] + rows[i + 1..];
          Emit(RowRemoved(i));
        }
        i := i - 1;
      }
    }

    /** Field by field; the caller learns which roles now show something else. */
    static method Compare(was: CallEntry, e: CallEntry) returns (changed: seq<Role>)
      requires was.id == e.id
      ensures forall role :: role in changed <==> Data(was, role) != Data(e, role)
      ensures forall i, j | 0 <= i < j < |changed| :: changed[i] != changed[j]
      ensures changed == ChangedRoles(was, e)
    {
      hide Differing, Data, ANNOUNCED, Append;
      changed := Append([], was.accountId != e.accountId, AccountIdRole);
      changed := Append(changed, was.remoteUri != e.remoteUri, RemoteUriRole);
      changed := Append(changed, was.remoteDisplayName != e.remoteDisplayName, RemoteDisplayNameRole);
      changed := Append(changed, was.state != e.state, StateRole);
      changed := Append(changed, was.held != e.held, HeldRole);
      changed := Append(changed, was.muted != e.muted, MutedRole);
      changed := Append(changed, was.recording != e.recording, RecordingRole);
      changed := Append(changed, was.direction != e.direction, DirectionRole);
      Proofs.FieldByField(was, e);
      Proofs.ChangedRolesExact(was, e);
    }

    /** One entry of the snapshot: updated in place, or appended. */
    method UpsertRow(e: CallEntry)
      modifies this
      ensures rows == Upsert(old(rows), e)
      ensures emitted == old(emitted) + UpsertSignal(old(rows), e)
    {
      var row := FindRow(e.id);
      if row < 0 {
        rows := rows + [e];
        Emit(RowInserted(|rows| - 1));
      } else {
        var changed := Compare(rows[row], e);
        rows := rows[row := e];
        if changed != [] {
          Emit(DataChanged(row, changed));
        }
      }
    }
  }
}
