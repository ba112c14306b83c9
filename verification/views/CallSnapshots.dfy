/** What the call manager shows: one entry for each record and each lingering
    call, never two about the same call. */
module CallSnapshots {
  import opened SipTypes
  import CallSpec
  import CallViews
  import CallInvariant
  import opened CallsModelSpec
  import opened CallsModelProofs

  predicate Shows(s: CallSpec.System, e: CallEntry) {
    (e.id in s.records && e == EntryOf(e.id, s.records[e.id]))
    || (e.id in s.lingering && e == EntryOf(e.id, s.lingering[e.id]))
  }

  /** `out` lists the map in some order, each key once. */
  ghost predicate Lists(out: seq<CallEntry>, m: map<CallId, CallRecord>) {
    DistinctIds(out) && forall e :: e in out <==> e.id in m && e == EntryOf(e.id, m[e.id])
  }

  method EntriesOf(m: map<CallId, CallRecord>) returns (out: seq<CallEntry>)
    ensures Lists(out, m)
  {
    out := [];
    var left := m;
    while true
      invariant left.Keys <= m.Keys && forall j | j in left :: left[j] == m[j]
      invariant DistinctIds(out)
      invariant forall e :: e in out <==> e.id in m && e.id !in left && e == EntryOf(e.id, m[e.id])
      decreases left.Keys
    {
      if j :| j in left {
        var e := EntryOf(j, left[j]);
        assert forall x | x in out :: x.id != j;
        out := out + [e];
        left := left - {j};
      } else {
        return;
      }
    }
  }

  /** The records in some order, then the lingering calls in some order. */
  ghost predicate IsSnapshot(s: CallSpec.System, out: seq<CallEntry>) {
    exists live, lingering :: Lists(live, s.records) && Lists(lingering, s.lingering) && out == live + lingering
  }

  /** CallManager's snapshot, in whatever order the two hash maps have. */
  method Snapshot(s: CallSpec.System) returns (out: seq<CallEntry>)
    ensures IsSnapshot(s, out)
  {
    var live := EntriesOf(s.records);
    var lingering := EntriesOf(s.lingering);
    out := live + lingering;
  }

  lemma SnapshotShows(s: CallSpec.System, out: seq<CallEntry>)
    requires IsSnapshot(s, out)
    ensures forall e :: e in out <==> Shows(s, e)
    ensures s.records.Keys !! s.lingering.Keys ==> DistinctIds(out)
  {
    var live, lingering :| Lists(live, s.records) && Lists(lingering, s.lingering) && out == live + lingering;
    forall e ensures e in out <==> Shows(s, e) {
      assert e in out <==> e in live || e in lingering;
    }
    if s.records.Keys !! s.lingering.Keys { JoinDistinct(s, live, lingering); }
  }

  lemma JoinDistinct(s: CallSpec.System, live: seq<CallEntry>, lingering: seq<CallEntry>)
    requires Lists(live, s.records) && Lists(lingering, s.lingering) && s.records.Keys !! s.lingering.Keys
    ensures DistinctIds(live + lingering)
  {
    var out := live + lingering;
    forall i, j | 0 <= i < j < |out| ensures out[i].id != out[j].id {
      if i < |live| <= j {
        assert out[i] in live && out[j] in lingering;
        assert out[i].id in s.records.Keys && out[j].id in s.lingering.Keys;
      }
    }
  }

  /** A call never has a record and lingers at the same time. */
  lemma RecordsApartFromLingering(steps: seq<CallSpec.Step>)
    requires CallSpec.IsRun(CallSpec.Initial, steps)
    ensures CallSpec.Run(CallSpec.Initial, steps).records.Keys !! CallSpec.Run(CallSpec.Initial, steps).lingering.Keys
  {
    var s := CallSpec.Run(CallSpec.Initial, steps);
    CallInvariant.Reachable(steps);
    forall id ensures !(id in s.records && id in s.lingering) {
      assert CallViews.ViewOk(s, id);
    }
  }

  /** After any run of the call layer a model refreshed with a snapshot shows
      exactly the live and lingering calls, each once, whatever it showed before. */
  lemma ModelShowsTheCalls(steps: seq<CallSpec.Step>, rows: seq<CallEntry>, next: seq<CallEntry>)
    requires CallSpec.IsRun(CallSpec.Initial, steps) && IsSnapshot(CallSpec.Run(CallSpec.Initial, steps), next)
    requires DistinctIds(rows)
    ensures var s := CallSpec.Run(CallSpec.Initial, steps);
            DistinctIds(Refreshed(rows, next)) && forall e :: e in Refreshed(rows, next) <==> Shows(s, e)
  {
    RecordsApartFromLingering(steps);
    SnapshotShows(CallSpec.Run(CallSpec.Initial, steps), next);
    RefreshIsReset(rows, next);
  }
}
