/** What the revision last reconciled says about the recorded tunnels. */
module RevisionGate {
  import opened Text
  import opened Model
  import opened Reconcile
  import opened Store

  /** The table has exactly the document's tunnels, under the document's names. */
  ghost predicate Records(tbl: Table, ts: seq<Tunnel>) {
    && tbl.Keys == Ids(ts)
    && forall i :: 0 <= i < |ts| ==> ts[i].id in tbl && tbl[ts[i].id].name == ts[i].name
  }

  /** The document that a revision stands for. */
  type Documents = string -> FeedDocument

  /** The recorded tunnels are those of the revision last reconciled, and so is what is cached. */
  ghost predicate InStep(c: Crypto, setupURL: string, docOf: Documents, entry: Option<FeedState>) {
    var fs := OrZero(entry);
    var revision := TrimSpace(fs.lastReconciledRevision);
    revision != "" ==>
      && fs.tunnels.Some? && Records(fs.tunnels.value, docOf(revision).tunnels)
      && DistinctIds(docOf(revision).tunnels)
      && (!Blank(fs.cached) ==> c.Decrypt(setupURL, fs.cached) == Some(docOf(revision)))
  }

  /** Responses come from one setup URL, their revision determines the document, and the cache decrypts to
      the document it was stored with. */
  ghost predicate Coherent(c: Crypto, setupURL: string, docOf: Documents, op: Op) {
    match op
    case Remote(u, _, _) =>
      && u.setupURL == setupURL && !Blank(u.revision)
      && u.doc == docOf(TrimSpace(u.revision)) && DistinctIds(u.doc.tunnels)
      && (!Blank(u.cached) ==> c.Decrypt(setupURL, TrimSpace(u.cached)) == Some(u.doc))
    case FromCache(url, _, _) => url == setupURL
    case Lookup(_, _) => false
  }

  /** Set by every reconciliation that fails, cleared by a remote update that reconciles successfully. */
  function DirtyAfter(c: Crypto, salt: string, entry: Option<FeedState>, op: Op, dirty: bool): bool {
    match op
    case Remote(u, fail, _) =>
      if TrimSpace(u.doc.id) == "" || c.key(salt, u.setupURL).None? || Gated(NoteEntry(c, salt, entry, u), u.revision) then dirty
      else UpdateEntry(c, salt, entry, u, fail).1.Some?
    case FromCache(url, feedID, fail) =>
      if TrimSpace(feedID) == "" || entry.None? || Blank(entry.value.cached) then dirty
      else
        var doc := c.Decrypt(url, entry.value.cached);
        dirty || (doc.Some? && ReconcileEntry(entry, doc.value.tunnels, fail).1.Some?)
    case Lookup(_, _) => dirty
  }

  function Dirty(c: Crypto, salt: string, entry: Option<FeedState>, ops: seq<Op>, dirty: bool): bool {
    if ops == [] then dirty
    else
      var front := ops[..|ops| - 1];
      DirtyAfter(c, salt, EntryRun(c, salt, entry, front), ops[|ops| - 1], Dirty(c, salt, entry, front, dirty))
  }

  lemma ReconciledRecords(tbl: Table, ts: seq<Tunnel>)
    requires DistinctIds(ts)
    ensures Records(Reconciled(tbl, ts), ts)
  {
    SuccessRecordsDocument(tbl, ts);
  }

  lemma UpdateStaysInStep(c: Crypto, salt: string, setupURL: string, docOf: Documents, entry: Option<FeedState>, u: Update, fail: Option<nat>, newSalt: string, dirty: bool)
    requires Coherent(c, setupURL, docOf, Remote(u, fail, newSalt))
    requires !dirty ==> InStep(c, setupURL, docOf, entry)
    ensures !DirtyAfter(c, salt, entry, Remote(u, fail, newSalt), dirty) ==>
              InStep(c, setupURL, docOf, EntryAfter(c, salt, entry, Remote(u, fail, newSalt)))
  {
    var noted := NoteEntry(c, salt, entry, u);
    if !Gated(noted, u.revision) {
      ReconciledRecords(TableOf(noted), u.doc.tunnels);
    }
  }

  lemma CacheStaysInStep(c: Crypto, salt: string, setupURL: string, docOf: Documents, entry: Option<FeedState>, feedID: string, fail: Option<nat>, dirty: bool)
    requires !dirty ==> InStep(c, setupURL, docOf, entry)
    ensures !DirtyAfter(c, salt, entry, FromCache(setupURL, feedID, fail), dirty) ==>
              InStep(c, setupURL, docOf, EntryAfter(c, salt, entry, FromCache(setupURL, feedID, fail)))
  {
    if entry.Some? && c.Decrypt(setupURL, entry.value.cached).Some? {
      var doc := c.Decrypt(setupURL, entry.value.cached).value;
      if DistinctIds(doc.tunnels) {
        ReconciledRecords(TableOf(entry.value), doc.tunnels);
      }
    }
  }

  lemma {:induction false} EntryStaysInStep(c: Crypto, salt: string, setupURL: string, docOf: Documents, entry: Option<FeedState>, ops: seq<Op>, dirty: bool)
    requires forall op <- ops :: Coherent(c, setupURL, docOf, op)
    requires !dirty ==> InStep(c, setupURL, docOf, entry)
    ensures !Dirty(c, salt, entry, ops, dirty) ==> InStep(c, setupURL, docOf, EntryRun(c, salt, entry, ops))
  {
    if ops != [] {
      var front, op := ops[..|ops| - 1], ops[|ops| - 1];
      assert op in ops && forall o <- front :: o in ops;
      EntryStaysInStep(c, salt, setupURL, docOf, entry, front, dirty);
      var before, was := EntryRun(c, salt, entry, front), Dirty(c, salt, entry, front, dirty);
      match op
      case Remote(u, fail, newSalt) => UpdateStaysInStep(c, salt, setupURL, docOf, before, u, fail, newSalt, was);
      case FromCache(url, feedID, fail) => CacheStaysInStep(c, salt, url, docOf, before, feedID, fail, was);
    }
  }

  /** Over every run of operations, on this and on any other feeds: unless a reconciliation failed since the last
      successful remote one, the recorded tunnels have exactly the ids and names of the document of the revision
      last reconciled. Reconciling from the cache keeps it so. */
  lemma TunnelsMatchRevision(c: Crypto, st: State, ops: seq<Op>, feedID: string, setupURL: string, docOf: Documents, dirty: bool)
    requires !Blank(st.salt) && forall op <- ops :: KeepsId(c, op)
    requires forall op <- ops :: FeedOf(op) == Some(feedID) ==> Coherent(c, setupURL, docOf, op)
    requires !dirty ==> InStep(c, setupURL, docOf, FeedEntry(st, feedID))
    ensures var fs := FeedAt(Run(c, st, ops), feedID);
            var revision := TrimSpace(fs.lastReconciledRevision);
            !Dirty(c, st.salt, FeedEntry(st, feedID), Select(ops, feedID), dirty) && revision != "" ==>
              fs.tunnels.Some? && Records(fs.tunnels.value, docOf(revision).tunnels)
  {
    RunIsEntryRun(c, st, ops, feedID);
    SelectSelected(ops, feedID);
    EntryStaysInStep(c, st.salt, setupURL, docOf, FeedEntry(st, feedID), Select(ops, feedID), dirty);
  }

  /** The interrupted document got no further than tunnels recorded already under its own names, and the one it
      stopped at was not being renamed. */
  ghost predicate NothingNew(tbl: Table, ts: seq<Tunnel>, k: nat)
    requires k < |ts|
  {
    && (forall i :: 0 <= i < k ==> ts[i].id in tbl && tbl[ts[i].id].name == ts[i].name)
    && !Renamed(tbl, ts[k])
  }

  /** Exactly when the tunnels left behind by an interrupted document are still those of the document before. */
  lemma InterruptedRecordsExactly(tbl: Table, forward: seq<Tunnel>, k: nat, back: seq<Tunnel>)
    requires Records(tbl, back) && DistinctIds(back) && DistinctIds(forward) && k < |forward|
    ensures Records(Interrupted(tbl, forward, k), back) <==> NothingNew(tbl, forward, k)
  {
    var after := Interrupted(tbl, forward, k);
    InterruptedAt(tbl, forward, k);
    if NothingNew(tbl, forward, k) {
      assert after.Keys == tbl.Keys;
      forall i | 0 <= i < |back| ensures back[i].id in after && after[back[i].id].name == back[i].name {
        assert back[i].id in tbl;
      }
    } else if exists i :: 0 <= i < k && !(forward[i].id in tbl && tbl[forward[i].id].name == forward[i].name) {
      var i :| 0 <= i < k && !(forward[i].id in tbl && tbl[forward[i].id].name == forward[i].name);
      assert forward[i].id in after && after[forward[i].id].name == forward[i].name;
      if forward[i].id in tbl {
        var j :| 0 <= j < |back| && back[j].id == forward[i].id;
      }
    } else {
      assert Renamed(tbl, forward[k]) && forward[k].id !in after && forward[k].id in tbl;
    }
  }

  /** What an interruption leaves of every id. */
  lemma InterruptedAt(tbl: Table, ts: seq<Tunnel>, k: nat)
    requires DistinctIds(ts) && k < |ts|
    ensures var after := Interrupted(tbl, ts, k);
            && (forall i :: 0 <= i < k ==> ts[i].id in after && after[ts[i].id].name == ts[i].name)
            && (ts[k].id in after <==> ts[k].id in tbl && !Renamed(tbl, ts[k]))
            && (forall id :: id in after ==> id in tbl || exists i :: 0 <= i < k && ts[i].id == id)
            && (forall id :: id in tbl && !(exists i :: 0 <= i <= k && ts[i].id == id) ==> id in after && after[id] == tbl[id])
            && (ts[k].id in after ==> after[ts[k].id] == tbl[ts[k].id])
  {
    UntouchedBefore(tbl, ts, k, ts[k].id);
    KeysAfter(tbl, ts, k);
    forall i | 0 <= i < k ensures ts[i].id in AppliedTo(tbl, ts, k) && AppliedTo(tbl, ts, k)[ts[i].id].name == ts[i].name {
      RecordedAfter(tbl, ts, k, i);
    }
    forall id | id in tbl && !(exists i :: 0 <= i <= k && ts[i].id == id)
      ensures id in AppliedTo(tbl, ts, k) && AppliedTo(tbl, ts, k)[id] == tbl[id]
    {
      UntouchedBefore(tbl, ts, k, id);
    }
  }

  /** Being clean is needed: when the reconciliation of a new revision fails and the server goes back to the
      revision last reconciled, the gate lets nothing through and the half-changed tunnels stay. They are those of the
      revision gone back to if and only if the interrupted document had changed none of them. */
  lemma RollbackIsGatedAway(c: Crypto, salt: string, entry: Option<FeedState>, forward: Update, k: nat, back: Update, fail: Option<nat>, newSalt: string)
    requires entry.Some? && entry.value.tunnels.Some?
    requires Gated(entry.value, back.revision) && !Gated(entry.value, forward.revision)
    requires c.key(salt, forward.setupURL).Some? && c.key(salt, back.setupURL).Some?
    requires !Blank(forward.doc.id) && !Blank(back.doc.id)
    requires DistinctIds(forward.doc.tunnels) && k < |forward.doc.tunnels|
    ensures var fs, tbl := OrZero(EntryRun(c, salt, entry, [Remote(forward, Some(k), newSalt), Remote(back, fail, newSalt)])), entry.value.tunnels.value;
            && fs.lastReconciledRevision == entry.value.lastReconciledRevision
            && fs.tunnels == Some(Interrupted(tbl, forward.doc.tunnels, k))
            && (Records(tbl, back.doc.tunnels) && DistinctIds(back.doc.tunnels) ==>
                  (Records(fs.tunnels.value, back.doc.tunnels) <==> NothingNew(tbl, forward.doc.tunnels, k)))
  {
    var tbl, ts := entry.value.tunnels.value, forward.doc.tunnels;
    TwoUpdates(c, salt, entry, forward, k, back, fail, newSalt);
    if Records(tbl, back.doc.tunnels) && DistinctIds(back.doc.tunnels) {
      InterruptedRecordsExactly(tbl, ts, k, back.doc.tunnels);
    }
  }

  lemma TwoUpdates(c: Crypto, salt: string, entry: Option<FeedState>, forward: Update, k: nat, back: Update, fail: Option<nat>, newSalt: string)
    requires entry.Some? && entry.value.tunnels.Some?
    requires Gated(entry.value, back.revision) && !Gated(entry.value, forward.revision)
    requires c.key(salt, forward.setupURL).Some? && c.key(salt, back.setupURL).Some?
    requires !Blank(forward.doc.id) && !Blank(back.doc.id) && k < |forward.doc.tunnels|
    ensures var fs := OrZero(EntryRun(c, salt, entry, [Remote(forward, Some(k), newSalt), Remote(back, fail, newSalt)]));
            && fs.lastReconciledRevision == entry.value.lastReconciledRevision
            && fs.tunnels == Some(Interrupted(entry.value.tunnels.value, forward.doc.tunnels, k))
  {
    var one, two := Remote(forward, Some(k), newSalt), Remote(back, fail, newSalt);
    EntryRunTwo(c, salt, entry, one, two);
    FailedUpdate(c, salt, entry, forward, k);
    assert EntryAfter(c, salt, entry, one) == UpdateEntry(c, salt, entry, forward, Some(k)).0;
  }

  lemma EntryRunTwo(c: Crypto, salt: string, entry: Option<FeedState>, one: Op, two: Op)
    ensures EntryRun(c, salt, entry, [one, two]) == EntryAfter(c, salt, EntryAfter(c, salt, entry, one), two)
  {
    assert [one, two][..1] == [one] && [one][..0] == [];
    assert EntryRun(c, salt, entry, [one][..0]) == entry;
  }

  lemma FailedUpdate(c: Crypto, salt: string, entry: Option<FeedState>, u: Update, k: nat)
    requires entry.Some? && entry.value.tunnels.Some? && !Gated(entry.value, u.revision) && k < |u.doc.tunnels|
    ensures var after := UpdateEntry(c, salt, entry, u, Some(k)).0;
            && after.Some? && after.value.lastReconciledRevision == entry.value.lastReconciledRevision
            && after.value.tunnels == Some(Interrupted(entry.value.tunnels.value, u.doc.tunnels, k))
  {
  }
}
