/** Which names are recorded after any run of reconciliations, failed or not, one tunnel id at a time. */
module RecordedNames {
  import opened Text
  import opened Model
  import opened Reconcile
  import opened RevisionGate
  import Store

  /** One reconciliation: the document's tunnels, and the first that could not be applied. */
  datatype Round = Round(tunnels: seq<Tunnel>, fail: Option<nat>)

  ghost predicate Proper(r: Round) {
    DistinctIds(r.tunnels) && (r.fail.Some? ==> r.fail.value < |r.tunnels|)
  }

  function AfterRound(tbl: Table, r: Round): Table
    requires r.fail.Some? ==> r.fail.value < |r.tunnels|
  {
    if r.fail.Some? then Interrupted(tbl, r.tunnels, r.fail.value) else Reconciled(tbl, r.tunnels)
  }

  ghost predicate AllProper(rs: seq<Round>) {
    forall i :: 0 <= i < |rs| ==> Proper(rs[i])
  }

  ghost function AfterRounds(tbl: Table, rs: seq<Round>): Table
    requires AllProper(rs)
  {
    if rs == [] then tbl else AfterRound(AfterRounds(tbl, rs[..|rs| - 1]), rs[|rs| - 1])
  }

  // ----- one id

  function NameOf(tbl: Table, id: string): Option<string> {
    if id in tbl then Some(tbl[id].name) else None
  }

  /** The name under which the tunnels list `id`, if they do. */
  function ListedName(ts: seq<Tunnel>, id: string): (r: Option<string>)
    ensures r.Some? <==> exists i :: 0 <= i < |ts| && ts[i].id == id
  {
    if ts == [] then None
    else if ts[|ts| - 1].id == id then Some(ts[|ts| - 1].name)
    else ListedName(ts[..|ts| - 1], id)
  }

  /** What one reconciliation makes of the name recorded for `id`: the document decides up to where it failed; where it
      failed, a record about to be renamed is forgotten; everything else stays. */
  function NameAfter(name: Option<string>, r: Round, id: string): Option<string>
    requires r.fail.Some? ==> r.fail.value < |r.tunnels|
  {
    if r.fail.None? then ListedName(r.tunnels, id)
    else
      var k := r.fail.value;
      if ListedName(r.tunnels[..k], id).Some? then ListedName(r.tunnels[..k], id)
      else if r.tunnels[k].id == id && name.Some? && !Blank(name.value) && TrimSpace(name.value) != TrimSpace(r.tunnels[k].name) then None
      else name
  }

  ghost function NameAfterAll(name: Option<string>, rs: seq<Round>, id: string): Option<string>
    requires AllProper(rs)
  {
    if rs == [] then name else NameAfter(NameAfterAll(name, rs[..|rs| - 1], id), rs[|rs| - 1], id)
  }

  lemma {:induction false} ListedAt(ts: seq<Tunnel>, i: nat)
    requires DistinctIds(ts) && i < |ts|
    ensures ListedName(ts, ts[i].id) == Some(ts[i].name)
  {
    if i < |ts| - 1 {
      ListedAt(ts[..|ts| - 1], i);
    }
  }

  lemma {:induction false} RoundNames(tbl: Table, r: Round, id: string)
    requires Proper(r)
    ensures NameOf(AfterRound(tbl, r), id) == NameAfter(NameOf(tbl, id), r, id)
  {
    if r.fail.None? {
      SuccessNames(tbl, r.tunnels, id);
    } else {
      FailureNames(tbl, r.tunnels, r.fail.value, id);
    }
  }

  lemma SuccessNames(tbl: Table, ts: seq<Tunnel>, id: string)
    requires DistinctIds(ts)
    ensures NameOf(Reconciled(tbl, ts), id) == ListedName(ts, id)
  {
    SuccessRecordsDocument(tbl, ts);
    if ListedName(ts, id).Some? {
      var i :| 0 <= i < |ts| && ts[i].id == id;
      ListedAt(ts, i);
    }
  }

  lemma FailureNames(tbl: Table, ts: seq<Tunnel>, k: nat, id: string)
    requires DistinctIds(ts) && k < |ts|
    ensures NameOf(Interrupted(tbl, ts, k), id) == NameAfter(NameOf(tbl, id), Round(ts, Some(k)), id)
  {
    InterruptedAt(tbl, ts, k);
    if ListedName(ts[..k], id).Some? {
      ListedBefore(ts, k, id);
    } else {
      NotListedBefore(ts, k, id);
    }
  }

  lemma ListedBefore(ts: seq<Tunnel>, k: nat, id: string)
    requires DistinctIds(ts) && k < |ts| && ListedName(ts[..k], id).Some?
    ensures exists i :: 0 <= i < k && ts[i].id == id && ListedName(ts[..k], id) == Some(ts[i].name)
  {
    var i :| 0 <= i < |ts[..k]| && ts[..k][i].id == id;
    ListedAt(ts[..k], i);
    assert ts[i].id == id;
  }

  lemma NotListedBefore(ts: seq<Tunnel>, k: nat, id: string)
    requires k < |ts| && ListedName(ts[..k], id).None?
    ensures forall i :: 0 <= i < k ==> ts[i].id != id
  {
    assert forall i :: 0 <= i < k ==> ts[..k][i].id == ts[i].id;
  }

  lemma {:induction false} RoundsNames(tbl: Table, rs: seq<Round>, id: string)
    requires AllProper(rs)
    ensures NameOf(AfterRounds(tbl, rs), id) == NameAfterAll(NameOf(tbl, id), rs, id)
  {
    if rs != [] {
      RoundsNames(tbl, rs[..|rs| - 1], id);
      RoundNames(AfterRounds(tbl, rs[..|rs| - 1]), rs[|rs| - 1], id);
    }
  }

  /** The names recorded are a document's exactly when they are for every id. */
  lemma RecordsByName(tbl: Table, ts: seq<Tunnel>)
    requires DistinctIds(ts)
    ensures Records(tbl, ts) <==> forall id :: NameOf(tbl, id) == ListedName(ts, id)
  {
    forall i | 0 <= i < |ts| ensures ListedName(ts, ts[i].id) == Some(ts[i].name) {
      ListedAt(ts, i);
    }
    if Records(tbl, ts) {
      forall id ensures NameOf(tbl, id) == ListedName(ts, id) {
        if ListedName(ts, id).Some? {
          var i :| 0 <= i < |ts| && ts[i].id == id;
        }
      }
    }
    if forall id :: NameOf(tbl, id) == ListedName(ts, id) {
      forall i | 0 <= i < |ts| ensures ts[i].id in tbl && tbl[ts[i].id].name == ts[i].name {
        assert NameOf(tbl, ts[i].id) == ListedName(ts, ts[i].id);
      }
      forall id | id in tbl ensures id in Ids(ts) {
        assert NameOf(tbl, id) == ListedName(ts, id);
      }
      assert tbl.Keys == Ids(ts);
    }
  }

  // ----- one feed's operations

  /** The reconciliation that an operation carries out on this entry, if it does. */
  function RoundOf(c: Store.Crypto, salt: string, entry: Option<FeedState>, op: Store.Op): Option<Round> {
    match op
    case Remote(u, fail, _) =>
      if TrimSpace(u.doc.id) == "" || c.key(salt, u.setupURL).None? || Store.Gated(Store.NoteEntry(c, salt, entry, u), u.revision) then None
      else Some(Within(u.doc.tunnels, fail))
    case FromCache(url, feedID, fail) =>
      if TrimSpace(feedID) == "" || entry.None? || Blank(entry.value.cached) || c.Decrypt(url, entry.value.cached).None? then None
      else Some(Within(c.Decrypt(url, entry.value.cached).value.tunnels, fail))
    case Lookup(_, _) => None
  }

  /** A failure beyond the last tunnel is none. */
  function Within(ts: seq<Tunnel>, fail: Option<nat>): Round {
    Round(ts, if fail.Some? && fail.value < |ts| then fail else None)
  }

  ghost function RoundsOf(c: Store.Crypto, salt: string, entry: Option<FeedState>, ops: seq<Store.Op>): seq<Round> {
    if ops == [] then []
    else
      var front := ops[..|ops| - 1];
      var r := RoundOf(c, salt, Store.EntryRun(c, salt, entry, front), ops[|ops| - 1]);
      RoundsOf(c, salt, entry, front) + if r.Some? then [r.value] else []
  }

  predicate HasTable(entry: Option<FeedState>) {
    entry.Some? && entry.value.tunnels.Some?
  }

  /** What the reconciliation of an entry that has a table makes of it. */
  lemma EntryIsRound(entry: Option<FeedState>, ts: seq<Tunnel>, fail: Option<nat>)
    requires HasTable(entry)
    ensures var after := Store.ReconcileEntry(entry, ts, fail).0;
            HasTable(after) && after.value.tunnels.value == AfterRound(entry.value.tunnels.value, Within(ts, fail))
  {
  }

  lemma UpdateIsRound(c: Store.Crypto, salt: string, entry: Option<FeedState>, u: Store.Update, fail: Option<nat>)
    requires HasTable(entry)
    ensures var after, noted := Store.UpdateEntry(c, salt, entry, u, fail).0, Store.NoteEntry(c, salt, entry, u);
            && HasTable(after)
            && after.value.tunnels.value == if Store.Gated(noted, u.revision) then entry.value.tunnels.value
                                            else AfterRound(entry.value.tunnels.value, Within(u.doc.tunnels, fail))
  {
    EntryIsRound(Some(Store.NoteEntry(c, salt, entry, u)), u.doc.tunnels, fail);
  }

  lemma OpIsRound(c: Store.Crypto, salt: string, entry: Option<FeedState>, op: Store.Op)
    requires HasTable(entry) && (RoundOf(c, salt, entry, op).Some? ==> Proper(RoundOf(c, salt, entry, op).value))
    ensures var after, r := Store.EntryAfter(c, salt, entry, op), RoundOf(c, salt, entry, op);
            HasTable(after) &&
            after.value.tunnels.value == if r.Some? then AfterRound(entry.value.tunnels.value, r.value) else entry.value.tunnels.value
  {
    match op
    case Remote(u, fail, _) => UpdateIsRound(c, salt, entry, u, fail);
    case FromCache(url, feedID, fail) =>
      if c.Decrypt(url, entry.value.cached).Some? {
        EntryIsRound(entry, c.Decrypt(url, entry.value.cached).value.tunnels, fail);
      }
    case Lookup(_, _) =>
  }

  lemma {:induction false} RunIsRounds(c: Store.Crypto, salt: string, entry: Option<FeedState>, ops: seq<Store.Op>)
    requires HasTable(entry) && AllProper(RoundsOf(c, salt, entry, ops))
    ensures HasTable(Store.EntryRun(c, salt, entry, ops))
    ensures Store.EntryRun(c, salt, entry, ops).value.tunnels.value == AfterRounds(entry.value.tunnels.value, RoundsOf(c, salt, entry, ops))
  {
    if ops != [] {
      var front, op := ops[..|ops| - 1], ops[|ops| - 1];
      var before, rs := Store.EntryRun(c, salt, entry, front), RoundsOf(c, salt, entry, front);
      var r := RoundOf(c, salt, before, op);
      var all := RoundsOf(c, salt, entry, ops);
      assert all == if r.Some? then rs + [r.value] else rs + [];
      if r.Some? {
        assert all[..|all| - 1] == rs && all[|all| - 1] == r.value;
      } else {
        assert all == rs;
      }
      assert AllProper(rs) by { assert forall i :: 0 <= i < |rs| ==> rs[i] == all[i]; }
      RunIsRounds(c, salt, entry, front);
      OpIsRound(c, salt, before, op);
    }
  }

  /** Over every run of a feed's operations, whatever failed: the recorded tunnels are those of the document `ts` (of the
      revision last reconciled, say) if and only if for every id the documents and the points of failure lead to the
      name that `ts` lists it under. */
  lemma RecordsExactly(c: Store.Crypto, salt: string, entry: Option<FeedState>, ops: seq<Store.Op>, ts: seq<Tunnel>)
    requires HasTable(entry) && AllProper(RoundsOf(c, salt, entry, ops)) && DistinctIds(ts)
    ensures HasTable(Store.EntryRun(c, salt, entry, ops))
    ensures Records(Store.EntryRun(c, salt, entry, ops).value.tunnels.value, ts) <==>
            forall id :: NameAfterAll(NameOf(entry.value.tunnels.value, id), RoundsOf(c, salt, entry, ops), id) == ListedName(ts, id)
  {
    var tbl, rs := entry.value.tunnels.value, RoundsOf(c, salt, entry, ops);
    RunIsRounds(c, salt, entry, ops);
    RecordsByName(AfterRounds(tbl, rs), ts);
    forall id ensures NameOf(AfterRounds(tbl, rs), id) == NameAfterAll(NameOf(tbl, id), rs, id) {
      RoundsNames(tbl, rs, id);
    }
  }
}
