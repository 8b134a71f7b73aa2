/** Reconciliation of one feed document with the recorded tunnels, as functions of the table. */
module Reconcile {
  import opened Text
  import opened Model
  import opened Device

  /** The flag a tunnel is applied with: recorded flags win unless the feed forces its own. */
  function Effective(tbl: Table, t: Tunnel): bool {
    if t.id in tbl && !t.forced then tbl[t.id].enabled else t.enabled
  }

  predicate Renamed(tbl: Table, t: Tunnel) {
    t.id in tbl && !Blank(tbl[t.id].name) && TrimSpace(tbl[t.id].name) != TrimSpace(t.name)
  }

  function Wanted(tbl: Table, t: Tunnel): Entry {
    Entry(t.config, Effective(tbl, t))
  }

  /** The table after tunnel `t` was applied. */
  function Recorded(tbl: Table, t: Tunnel): Table {
    tbl[t.id := TunnelState(t.name, Effective(tbl, t))]
  }

  /** The table after applying `t` failed: a rename has already forgotten the old record. */
  function Abandoned(tbl: Table, t: Tunnel): Table {
    if Renamed(tbl, t) then tbl - {t.id} else tbl
  }

  /** The table after the first `n` tunnels were applied. */
  function AppliedTo(tbl: Table, ts: seq<Tunnel>, n: nat): Table
    requires n <= |ts|
  {
    if n == 0 then tbl else Recorded(AppliedTo(tbl, ts, n - 1), ts[n - 1])
  }

  /** The table after a successful reconciliation. */
  function Reconciled(tbl: Table, ts: seq<Tunnel>): Table {
    AppliedTo(tbl, ts, |ts|) - (AppliedTo(tbl, ts, |ts|).Keys - Ids(ts))
  }

  /** The table after the call for tunnel `k` failed. */
  function Interrupted(tbl: Table, ts: seq<Tunnel>, k: nat): Table
    requires k < |ts|
  {
    Abandoned(AppliedTo(tbl, ts, k), ts[k])
  }

  function CallsFor(tbl: Table, t: Tunnel): seq<Call> {
    (if Renamed(tbl, t) then [Remove(tbl[t.id].name)] else []) + [Apply(t.name, Wanted(tbl, t))]
  }

  /** The calls made for the first `n` tunnels. */
  function CallsUpTo(tbl: Table, ts: seq<Tunnel>, n: nat): seq<Call>
    requires n <= |ts|
  {
    if n == 0 then [] else CallsUpTo(tbl, ts, n - 1) + CallsFor(AppliedTo(tbl, ts, n - 1), ts[n - 1])
  }

  ghost predicate AppliesDone(es: seq<Event>) {
    forall e <- es :: e.call.Apply? ==> e.outcome.Done?
  }

  function Dropped(tbl: Table, ts: seq<Tunnel>): set<string> {
    tbl.Keys - Ids(ts)
  }

  /** Removals of the recorded names of the tunnels in `gone`, one each, in some order. */
  ghost predicate Sweeps(es: seq<Event>, tbl: Table, gone: set<string>)
    requires gone <= tbl.Keys
  {
    exists order: seq<string> :: SweepsInOrder(es, tbl, gone, order)
  }

  ghost predicate SweepsInOrder(es: seq<Event>, tbl: Table, gone: set<string>, order: seq<string>) {
    && |order| == |es|
    && (forall i, j :: 0 <= i < j < |order| ==> order[i] != order[j])
    && (forall id :: id in order <==> id in gone)
    && (forall i :: 0 <= i < |es| ==> order[i] in tbl && es[i].call == Remove(tbl[order[i]].name))
  }

  /** The history of a reconciliation in which every tunnel was applied. */
  ghost predicate Succeeds(es: seq<Event>, tbl: Table, ts: seq<Tunnel>) {
    var n := |CallsUpTo(tbl, ts, |ts|)|;
    && n <= |es|
    && AppliesDone(es)
    && Calls(es[..n]) == CallsUpTo(tbl, ts, |ts|)
    && Sweeps(es[n..], AppliedTo(tbl, ts, |ts|), Dropped(AppliedTo(tbl, ts, |ts|), ts))
  }

  /** The history of a reconciliation that stopped when tunnel `k` could not be applied. */
  ghost predicate StopsAt(es: seq<Event>, tbl: Table, ts: seq<Tunnel>, k: nat) {
    && k < |ts|
    && es != []
    && Calls(es) == CallsUpTo(tbl, ts, k + 1)
    && AppliesDone(es[..|es| - 1])
    && !es[|es| - 1].outcome.Done?
  }

  /** The history of a reconciliation that stopped at tunnel `fail`, or at none. */
  ghost predicate Made(es: seq<Event>, tbl: Table, ts: seq<Tunnel>, fail: Option<nat>) {
    if fail.Some? then StopsAt(es, tbl, ts, fail.value) else Succeeds(es, tbl, ts)
  }

  // ----- what reconciliation reads and writes

  lemma {:induction false} UntouchedBefore(tbl: Table, ts: seq<Tunnel>, n: nat, id: string)
    requires n <= |ts|
    requires forall j :: 0 <= j < n ==> ts[j].id != id
    ensures id in AppliedTo(tbl, ts, n) <==> id in tbl
    ensures id in tbl ==> AppliedTo(tbl, ts, n)[id] == tbl[id]
  {
    if n > 0 {
      UntouchedBefore(tbl, ts, n - 1, id);
    }
  }

  /** With distinct ids every tunnel is judged against the table as it was at the start. */
  lemma JudgedAtStart(tbl: Table, ts: seq<Tunnel>, i: nat)
    requires DistinctIds(ts) && i < |ts|
    ensures Renamed(AppliedTo(tbl, ts, i), ts[i]) == Renamed(tbl, ts[i])
    ensures Effective(AppliedTo(tbl, ts, i), ts[i]) == Effective(tbl, ts[i])
    ensures CallsFor(AppliedTo(tbl, ts, i), ts[i]) == CallsFor(tbl, ts[i])
  {
    UntouchedBefore(tbl, ts, i, ts[i].id);
  }

  lemma {:induction false} RecordedAfter(tbl: Table, ts: seq<Tunnel>, n: nat, i: nat)
    requires DistinctIds(ts) && i < n <= |ts|
    ensures ts[i].id in AppliedTo(tbl, ts, n)
    ensures AppliedTo(tbl, ts, n)[ts[i].id] == TunnelState(ts[i].name, Effective(tbl, ts[i]))
  {
    if i == n - 1 {
      JudgedAtStart(tbl, ts, i);
    } else {
      RecordedAfter(tbl, ts, n - 1, i);
    }
  }

  lemma {:induction false} KeysAfter(tbl: Table, ts: seq<Tunnel>, n: nat)
    requires n <= |ts|
    ensures AppliedTo(tbl, ts, n).Keys == tbl.Keys + Ids(ts[..n])
  {
    if n > 0 {
      KeysAfter(tbl, ts, n - 1);
      assert ts[..n][..n - 1] == ts[..n - 1];
      forall id | id in Ids(ts[..n]) ensures id in Ids(ts[..n - 1]) + {ts[n - 1].id} {
        var i :| 0 <= i < n && ts[..n][i].id == id;
        if i < n - 1 {
          assert ts[..n - 1][i].id == id;
        }
      }
      forall id | id in Ids(ts[..n - 1]) ensures id in Ids(ts[..n]) {
        var i :| 0 <= i < n - 1 && ts[..n - 1][i].id == id;
        assert ts[..n][i].id == id;
      }
      assert ts[..n][n - 1].id in Ids(ts[..n]);
    }
  }

  /** Success records exactly the document: its ids, its names, and the flags it was applied with. */
  lemma SuccessRecordsDocument(tbl: Table, ts: seq<Tunnel>)
    requires DistinctIds(ts)
    ensures Reconciled(tbl, ts).Keys == Ids(ts)
    ensures forall i :: 0 <= i < |ts| ==>
              ts[i].id in Reconciled(tbl, ts) &&
              Reconciled(tbl, ts)[ts[i].id] == TunnelState(ts[i].name, Effective(tbl, ts[i]))
  {
    KeysAfter(tbl, ts, |ts|);
    assert ts[..|ts|] == ts;
    forall i | 0 <= i < |ts|
      ensures ts[i].id in Reconciled(tbl, ts)
      ensures Reconciled(tbl, ts)[ts[i].id] == TunnelState(ts[i].name, Effective(tbl, ts[i]))
    {
      RecordedAfter(tbl, ts, |ts|, i);
      assert ts[i].id in Ids(ts);
    }
  }
}
