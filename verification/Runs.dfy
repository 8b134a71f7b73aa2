/** Reconciling over and over: flags that stick, and retries after failures. */
module Runs {
  import opened Text
  import opened Model
  import opened Reconcile
  import Store

  // ----- enabled flags over a run of successful reconciliations

  /** The table after reconciling `docs` one after the other. */
  function After(tbl: Table, docs: seq<seq<Tunnel>>): Table {
    if docs == [] then tbl else Reconciled(After(tbl, docs[..|docs| - 1]), docs[|docs| - 1])
  }

  ghost predicate Lists(ts: seq<Tunnel>, t: Tunnel, id: string) {
    t in ts && t.id == id
  }

  ghost predicate Unforced(ts: seq<Tunnel>, id: string) {
    id in Ids(ts) && forall t <- ts :: t.id == id ==> !t.forced
  }

  /** Document `k` lists `id` as `t`, and either forces its flag or creates it; later documents do neither. */
  ghost predicate Decides(tbl: Table, docs: seq<seq<Tunnel>>, id: string, k: nat, t: Tunnel)
    requires k < |docs|
  {
    && Lists(docs[k], t, id)
    && (t.forced || id !in RecordedIds(tbl, docs[..k]))
    && forall j :: k < j < |docs| ==> Unforced(docs[j], id)
  }

  ghost predicate SomeDecides(tbl: Table, docs: seq<seq<Tunnel>>, id: string) {
    exists k, t :: 0 <= k < |docs| && Decides(tbl, docs, id, k, t)
  }

  /** The ids recorded after `docs`: those of the last document. */
  function RecordedIds(tbl: Table, docs: seq<seq<Tunnel>>): set<string> {
    if docs == [] then tbl.Keys else Ids(docs[|docs| - 1])
  }

  lemma AfterKeys(tbl: Table, docs: seq<seq<Tunnel>>)
    requires forall d <- docs :: DistinctIds(d)
    ensures After(tbl, docs).Keys == RecordedIds(tbl, docs)
  {
    if docs != [] {
      SuccessRecordsDocument(After(tbl, docs[..|docs| - 1]), docs[|docs| - 1]);
    }
  }

  lemma LookupRecorded(tbl: Table, ts: seq<Tunnel>, t: Tunnel)
    requires DistinctIds(ts) && t in ts
    ensures Reconciled(tbl, ts).Keys == Ids(ts)
    ensures t.id in Reconciled(tbl, ts) && Reconciled(tbl, ts)[t.id] == TunnelState(t.name, Effective(tbl, t))
  {
    SuccessRecordsDocument(tbl, ts);
    var i :| 0 <= i < |ts| && ts[i] == t;
  }

  /** A recorded flag is that of the latest document that created or forced the tunnel, across renames. */
  lemma {:induction false} FlagsStick(tbl: Table, docs: seq<seq<Tunnel>>, id: string, k: nat, t: Tunnel)
    requires forall d <- docs :: DistinctIds(d)
    requires k < |docs| && Decides(tbl, docs, id, k, t)
    ensures id in After(tbl, docs) && After(tbl, docs)[id].enabled == t.enabled
  {
    var n := |docs| - 1;
    var before := After(tbl, docs[..n]);
    if k == n {
      LookupRecorded(before, docs[n], t);
      AfterKeys(tbl, docs[..n]);
    } else {
      assert docs[..n][..k] == docs[..k];
      FlagsStick(tbl, docs[..n], id, k, t);
      assert Unforced(docs[n], id);
      var i :| 0 <= i < |docs[n]| && docs[n][i].id == id;
      LookupRecorded(before, docs[n], docs[n][i]);
    }
  }

  /** With nothing forced and nothing created, the flag recorded at the start stays. */
  lemma {:induction false} FlagsStickFromStart(tbl: Table, docs: seq<seq<Tunnel>>, id: string)
    requires forall d <- docs :: DistinctIds(d)
    requires id in tbl && forall d <- docs :: Unforced(d, id)
    ensures id in After(tbl, docs) && After(tbl, docs)[id].enabled == tbl[id].enabled
  {
    if docs != [] {
      var n := |docs| - 1;
      FlagsStickFromStart(tbl, docs[..n], id);
      assert Unforced(docs[n], id);
      var i :| 0 <= i < |docs[n]| && docs[n][i].id == id;
      LookupRecorded(After(tbl, docs[..n]), docs[n], docs[n][i]);
    }
  }

  /** Every recorded tunnel falls under one of the two cases above. */
  lemma {:induction false} SomeDocumentDecides(tbl: Table, docs: seq<seq<Tunnel>>, id: string)
    requires forall d <- docs :: DistinctIds(d)
    requires id in After(tbl, docs)
    ensures || SomeDecides(tbl, docs, id)
            || (id in tbl && forall d <- docs :: Unforced(d, id))
  {
    if docs != [] {
      var n := |docs| - 1;
      AfterKeys(tbl, docs);
      var i :| 0 <= i < |docs[n]| && docs[n][i].id == id;
      if docs[n][i].forced || id !in RecordedIds(tbl, docs[..n]) {
        assert Decides(tbl, docs, id, n, docs[n][i]);
      } else {
        AfterKeys(tbl, docs[..n]);
        SomeDocumentDecides(tbl, docs[..n], id);
        UnforcedLast(tbl, docs, id, i);
      }
    }
  }

  lemma UnforcedLast(tbl: Table, docs: seq<seq<Tunnel>>, id: string, i: nat)
    requires docs != [] && forall d <- docs :: DistinctIds(d)
    requires var d := docs[|docs| - 1]; i < |d| && d[i].id == id && !d[i].forced
    requires || SomeDecides(tbl, docs[..|docs| - 1], id)
             || (id in tbl && forall d <- docs[..|docs| - 1] :: Unforced(d, id))
    ensures || SomeDecides(tbl, docs, id)
            || (id in tbl && forall d <- docs :: Unforced(d, id))
  {
    var n := |docs| - 1;
    assert docs[n] in docs;
    assert Unforced(docs[n], id);
    if SomeDecides(tbl, docs[..n], id) {
      var k, t :| 0 <= k < |docs[..n]| && Decides(tbl, docs[..n], id, k, t);
      assert docs[..n][..k] == docs[..k];
      assert Decides(tbl, docs, id, k, t);
    } else {
      forall d | d in docs ensures Unforced(d, id) {
        assert d in docs[..n] || d == docs[n];
      }
    }
  }

  // ----- failures and retries

  /** A failure at tunnel `k` keeps the records of the tunnels before it, leaves those after it and the
      dropped ones as they were, and forgets tunnel `k` itself exactly when it was being renamed. */
  lemma FailureKeepsProgress(tbl: Table, ts: seq<Tunnel>, k: nat)
    requires DistinctIds(ts) && k < |ts|
    ensures forall i :: 0 <= i < k ==>
              ts[i].id in Interrupted(tbl, ts, k) &&
              Interrupted(tbl, ts, k)[ts[i].id] == TunnelState(ts[i].name, Effective(tbl, ts[i]))
    ensures forall id :: id !in Ids(ts[..k + 1]) ==>
              (id in Interrupted(tbl, ts, k) <==> id in tbl) &&
              (id in tbl ==> Interrupted(tbl, ts, k)[id] == tbl[id])
    ensures ts[k].id in Interrupted(tbl, ts, k) <==> ts[k].id in tbl && !Renamed(tbl, ts[k])
    ensures ts[k].id in Interrupted(tbl, ts, k) ==> Interrupted(tbl, ts, k)[ts[k].id] == tbl[ts[k].id]
  {
    JudgedAtStart(tbl, ts, k);
    UntouchedBefore(tbl, ts, k, ts[k].id);
    forall i | 0 <= i < k
      ensures ts[i].id in Interrupted(tbl, ts, k)
      ensures Interrupted(tbl, ts, k)[ts[i].id] == TunnelState(ts[i].name, Effective(tbl, ts[i]))
    {
      RecordedAfter(tbl, ts, k, i);
    }
    forall id | id !in Ids(ts[..k + 1])
      ensures id in Interrupted(tbl, ts, k) <==> id in tbl
      ensures id in tbl ==> Interrupted(tbl, ts, k)[id] == tbl[id]
    {
      forall j | 0 <= j <= k ensures ts[j].id != id {
        assert ts[..k + 1][j].id in Ids(ts[..k + 1]);
      }
      UntouchedBefore(tbl, ts, k, id);
    }
  }

  /** Forgetting this tunnel's record loses a flag the user had set. */
  predicate LosesFlag(tbl: Table, t: Tunnel) {
    Renamed(tbl, t) && !t.forced && t.enabled != tbl[t.id].enabled
  }

  lemma FlagAfterFailure(tbl: Table, ts: seq<Tunnel>, k: nat, i: nat)
    requires DistinctIds(ts) && k < |ts| && i < |ts|
    ensures var tbl' := Interrupted(tbl, ts, k);
            && (Effective(tbl', ts[i]) == Effective(tbl, ts[i]) <==> !(i == k && LosesFlag(tbl, ts[i])))
            && (LosesFlag(tbl', ts[i]) <==> i > k && LosesFlag(tbl, ts[i]))
  {
    FailureKeepsProgress(tbl, ts, k);
    if i > k {
      assert ts[i].id !in Ids(ts[..k + 1]);
    }
  }

  lemma SameRecordsSameFlags(tbl: Table, other: Table, ts: seq<Tunnel>)
    requires DistinctIds(ts)
    ensures Reconciled(tbl, ts) == Reconciled(other, ts) <==>
            forall i :: 0 <= i < |ts| ==> Effective(tbl, ts[i]) == Effective(other, ts[i])
  {
    SuccessRecordsDocument(tbl, ts);
    SuccessRecordsDocument(other, ts);
    if forall i :: 0 <= i < |ts| ==> Effective(tbl, ts[i]) == Effective(other, ts[i]) {
      forall id | id in Ids(ts) ensures Reconciled(tbl, ts)[id] == Reconciled(other, ts)[id] {
        var i :| 0 <= i < |ts| && ts[i].id == id;
      }
    } else {
      var i :| 0 <= i < |ts| && Effective(tbl, ts[i]) != Effective(other, ts[i]);
      assert Reconciled(tbl, ts)[ts[i].id] != Reconciled(other, ts)[ts[i].id];
    }
  }

  ghost predicate InRange(ts: seq<Tunnel>, ks: seq<nat>) {
    forall m :: 0 <= m < |ks| ==> ks[m] < |ts|
  }

  /** The table after attempts at the same document that failed at the tunnels `ks`, in order. */
  ghost function AfterFailures(tbl: Table, ts: seq<Tunnel>, ks: seq<nat>): Table
    requires InRange(ts, ks)
    decreases |ks|
  {
    if ks == [] then tbl else AfterFailures(Interrupted(tbl, ts, ks[0]), ts, ks[1..])
  }

  /** Some attempt fails at tunnel `i` before any attempt got past it. */
  ghost predicate FailsFirstAt(ks: seq<nat>, i: nat) {
    exists m :: 0 <= m < |ks| && FailsFirst(ks, i, m)
  }

  ghost predicate FailsFirst(ks: seq<nat>, i: nat, m: nat)
    requires m < |ks|
  {
    ks[m] == i && forall l :: 0 <= l < m ==> ks[l] < i
  }

  lemma {:induction false} FlagAfterFailures(tbl: Table, ts: seq<Tunnel>, ks: seq<nat>, i: nat)
    requires DistinctIds(ts) && i < |ts|
    requires InRange(ts, ks)
    ensures Effective(AfterFailures(tbl, ts, ks), ts[i]) == Effective(tbl, ts[i]) <==>
            !(LosesFlag(tbl, ts[i]) && FailsFirstAt(ks, i))
    decreases |ks|
  {
    if ks != [] {
      FlagAfterFailure(tbl, ts, ks[0], i);
      FlagAfterFailures(Interrupted(tbl, ts, ks[0]), ts, ks[1..], i);
      if ks[0] == i {
        assert FailsFirst(ks, i, 0);
      } else if ks[0] < i {
        if FailsFirstAt(ks, i) {
          var m :| 0 <= m < |ks| && FailsFirst(ks, i, m);
          assert FailsFirst(ks[1..], i, m - 1);
        }
        if FailsFirstAt(ks[1..], i) {
          var m :| 0 <= m < |ks[1..]| && FailsFirst(ks[1..], i, m);
          assert FailsFirst(ks, i, m + 1);
        }
      }
    }
  }

  /** However many attempts fail and wherever, a success at last records what an uninterrupted one would
      have, if and only if no attempt dropped a user's flag by failing in the middle of a rename. */
  lemma RetriesConvergeExactly(tbl: Table, ts: seq<Tunnel>, ks: seq<nat>)
    requires DistinctIds(ts)
    requires InRange(ts, ks)
    ensures Reconciled(AfterFailures(tbl, ts, ks), ts) == Reconciled(tbl, ts) <==>
            forall i :: 0 <= i < |ts| && FailsFirstAt(ks, i) ==> !LosesFlag(tbl, ts[i])
  {
    SameRecordsSameFlags(AfterFailures(tbl, ts, ks), tbl, ts);
    forall i | 0 <= i < |ts|
      ensures Effective(AfterFailures(tbl, ts, ks), ts[i]) == Effective(tbl, ts[i]) <==>
              !(LosesFlag(tbl, ts[i]) && FailsFirstAt(ks, i))
    {
      FlagAfterFailures(tbl, ts, ks, i);
    }
  }

  // ----- the feed's entry, which may have no table yet

  predicate HasTable(entry: Option<FeedState>) {
    entry.Some? && entry.value.tunnels.Some?
  }

  /** What a failure at tunnel `k` leaves in the feed's entry: nothing at all of a table that was only being made, and
      of a recorded one the tunnels before `k` as applied, those after it and the dropped ones as they were. */
  lemma EntryFailureKeepsProgress(entry: Option<FeedState>, ts: seq<Tunnel>, k: nat)
    requires DistinctIds(ts) && k < |ts|
    ensures !HasTable(entry) ==> Store.ReconcileEntry(entry, ts, Some(k)).0 == entry
    ensures HasTable(entry) ==>
              var after, tbl := Store.ReconcileEntry(entry, ts, Some(k)).0, entry.value.tunnels.value;
              && HasTable(after) && after.value.(tunnels := entry.value.tunnels) == entry.value
              && var tbl' := after.value.tunnels.value;
              && (forall i :: 0 <= i < k ==> ts[i].id in tbl' && tbl'[ts[i].id] == TunnelState(ts[i].name, Effective(tbl, ts[i])))
              && (forall id :: id !in Ids(ts[..k + 1]) ==> (id in tbl' <==> id in tbl) && (id in tbl ==> tbl'[id] == tbl[id]))
              && (ts[k].id in tbl' <==> ts[k].id in tbl && !Renamed(tbl, ts[k]))
              && (ts[k].id in tbl' ==> tbl'[ts[k].id] == tbl[ts[k].id])
  {
    if HasTable(entry) {
      FailureKeepsProgress(entry.value.tunnels.value, ts, k);
    }
  }

  /** The entry after attempts at the same document that failed at the tunnels `ks`, in order. */
  ghost function EntryAfterFailures(entry: Option<FeedState>, ts: seq<Tunnel>, ks: seq<nat>): Option<FeedState>
    requires InRange(ts, ks)
    decreases |ks|
  {
    if ks == [] then entry else EntryAfterFailures(Store.ReconcileEntry(entry, ts, Some(ks[0])).0, ts, ks[1..])
  }

  lemma {:induction false} EntryFailuresAreTheTables(entry: Option<FeedState>, ts: seq<Tunnel>, ks: seq<nat>)
    requires InRange(ts, ks)
    ensures EntryAfterFailures(entry, ts, ks) ==
            if HasTable(entry) then Some(entry.value.(tunnels := Some(AfterFailures(entry.value.tunnels.value, ts, ks)))) else entry
    decreases |ks|
  {
    if ks != [] {
      EntryFailuresAreTheTables(Store.ReconcileEntry(entry, ts, Some(ks[0])).0, ts, ks[1..]);
    }
  }

  /** However many attempts fail and wherever, a success at last leaves the entry that an uninterrupted one would have,
      if and only if there was no table yet or no attempt dropped a user's flag by failing in the middle of a rename. */
  lemma EntryRetriesConvergeExactly(entry: Option<FeedState>, ts: seq<Tunnel>, ks: seq<nat>)
    requires DistinctIds(ts)
    requires InRange(ts, ks)
    ensures Store.ReconcileEntry(EntryAfterFailures(entry, ts, ks), ts, None) == Store.ReconcileEntry(entry, ts, None) <==>
            !HasTable(entry) || forall i :: 0 <= i < |ts| && FailsFirstAt(ks, i) ==> !LosesFlag(entry.value.tunnels.value, ts[i])
  {
    EntryFailuresAreTheTables(entry, ts, ks);
    if HasTable(entry) {
      RetriesConvergeExactly(entry.value.tunnels.value, ts, ks);
    }
  }
}
