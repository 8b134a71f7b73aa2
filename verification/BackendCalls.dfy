/** The backend calls of a reconciliation, read off the document and the table recorded before. */
module BackendCalls {
  import opened Text
  import opened Model
  import opened Device
  import opened Reconcile
  import opened Agreement
  import opened Runs
  import opened Installed
  import Store

  /** Tunnel by tunnel: one that was recorded under another name is removed under that name first, and every tunnel is
      applied with its own configuration, and with the flag recorded at the start unless there is none or the feed
      forces its own. */
  lemma NextCalls(tbl: Table, ts: seq<Tunnel>, n: nat)
    requires DistinctIds(ts) && n < |ts|
    ensures CallsUpTo(tbl, ts, 0) == []
    ensures var t := ts[n];
            var apply := Apply(t.name, Entry(t.config, if t.id in tbl && !t.forced then tbl[t.id].enabled else t.enabled));
            CallsUpTo(tbl, ts, n + 1) == CallsUpTo(tbl, ts, n) +
              if t.id in tbl && !Blank(tbl[t.id].name) && TrimSpace(tbl[t.id].name) != TrimSpace(t.name)
              then [Remove(tbl[t.id].name), apply] else [apply]
  {
    CallsOneMore(tbl, ts, n + 1);
  }

  /** After a success, a tunnel that keeps its name is installed under it with the configuration of the document and
      with the flag that the table records for it. */
  lemma InstalledAsRecorded(dev: Profiles, es: seq<Event>, tbl: Table, ts: seq<Tunnel>, i: nat)
    requires DistinctIds(ts) && DistinctNames(ts) && Succeeds(es, tbl, ts)
    requires i < |ts| && KeepsName(tbl, ts, i)
    ensures ts[i].id in Reconciled(tbl, ts)
    ensures Lookup(Play(dev, es), ts[i].name) == Some(Entry(ts[i].config, Reconciled(tbl, ts)[ts[i].id].enabled))
  {
    SettlesAlone(tbl, ts, i);
    SettledIsPresent(dev, es, tbl, ts, i);
    SuccessRecordsDocument(tbl, ts);
  }

  /** A recorded name that the document does not ask for is free after a success whose removals worked, if its tunnel is
      no longer listed or is listed under another name. */
  lemma GivenUpIsGone(dev: Profiles, es: seq<Event>, tbl: Table, ts: seq<Tunnel>, id: string)
    requires DistinctIds(ts) && Succeeds(es, tbl, ts) && RemovesDone(es)
    requires id in tbl && forall j :: 0 <= j < |ts| ==> ts[j].name != tbl[id].name
    requires forall j :: 0 <= j < |ts| && ts[j].id == id ==> !Blank(tbl[id].name) && TrimSpace(tbl[id].name) != TrimSpace(ts[j].name)
    ensures tbl[id].name !in Play(dev, es)
  {
    var name := tbl[id].name;
    OtherNames(dev, es, tbl, ts, name);
    if id in Ids(ts) {
      var j :| 0 <= j < |ts| && ts[j].id == id;
      assert Releases(tbl, ts[j], name);
    } else {
      assert id in Dropped(tbl, ts);
    }
  }

  /** Names that are neither listed nor recorded are left alone, whether or not the reconciliation fails. */
  lemma OtherProfilesKept(dev: Profiles, es: seq<Event>, tbl: Table, ts: seq<Tunnel>, fail: Option<nat>, name: string)
    requires DistinctIds(ts) && Made(es, tbl, ts, fail)
    requires forall i :: 0 <= i < |ts| ==> ts[i].name != name
    requires forall id <- tbl :: tbl[id].name != name
    ensures Lookup(Play(dev, es), name) == Lookup(dev, name)
  {
    if fail.Some? {
      NotCalled(tbl, ts, fail.value + 1, name);
      LastCallDecides(dev, es, name);
    } else {
      OtherNames(dev, es, tbl, ts, name);
    }
  }

  lemma NotCalled(tbl: Table, ts: seq<Tunnel>, n: nat, name: string)
    requires DistinctIds(ts) && n <= |ts|
    requires forall i :: 0 <= i < |ts| ==> ts[i].name != name
    requires forall id <- tbl :: tbl[id].name != name
    ensures LastCall(CallsUpTo(tbl, ts, n), name) == None
  {
    CallsFollowLast(tbl, ts, n, name);
    assert Last(tbl, ts, n, name).Untouched?;
  }

  /** A rename that fails half-way has already removed the old profile. */
  lemma InterruptedRename(dev: Profiles, es: seq<Event>, tbl: Table, ts: seq<Tunnel>, k: nat)
    requires DistinctIds(ts) && StopsAt(es, tbl, ts, k) && RemovesDone(es)
    requires ts[k].id in tbl && !Blank(tbl[ts[k].id].name) && TrimSpace(tbl[ts[k].id].name) != TrimSpace(ts[k].name)
    ensures tbl[ts[k].id].name !in Play(dev, es)
  {
    var name := tbl[ts[k].id].name;
    NextCalls(tbl, ts, k);
    CallsFollowLast(tbl, ts, k + 1, name);
    LastCallDecides(dev, es, name);
    assert FatedCall(tbl, ts, k + 1, name) == Some(Remove(name));
  }

  // ----- over runs

  /** After reconciling any documents in turn, the last one's tunnels that keep their names are installed with its
      configuration, and with the flag of the document that last created or forced them. */
  lemma LastDocumentIsInstalled(dev: Profiles, es: seq<Event>, tbl: Table, docs: seq<seq<Tunnel>>, i: nat, k: nat, t: Tunnel)
    requires docs != [] && forall d <- docs :: DistinctIds(d)
    requires var ts, before := docs[|docs| - 1], After(tbl, docs[..|docs| - 1]);
             DistinctNames(ts) && Succeeds(es, before, ts) && i < |ts| && KeepsName(before, ts, i)
    requires k < |docs| && Decides(tbl, docs, docs[|docs| - 1][i].id, k, t)
    ensures var last := docs[|docs| - 1][i]; Lookup(Play(dev, es), last.name) == Some(Entry(last.config, t.enabled))
  {
    var ts := docs[|docs| - 1];
    InstalledAsRecorded(dev, es, After(tbl, docs[..|docs| - 1]), ts, i);
    FlagsStick(tbl, docs, ts[i].id, k, t);
  }

  /** A tunnel recorded at the start that no document forces keeps its flag at the backend too. */
  lemma KeptFlagIsInstalled(dev: Profiles, es: seq<Event>, tbl: Table, docs: seq<seq<Tunnel>>, i: nat)
    requires docs != [] && forall d <- docs :: DistinctIds(d)
    requires var ts, before := docs[|docs| - 1], After(tbl, docs[..|docs| - 1]);
             DistinctNames(ts) && Succeeds(es, before, ts) && i < |ts| && KeepsName(before, ts, i)
    requires var id := docs[|docs| - 1][i].id; id in tbl && forall d <- docs :: Unforced(d, id)
    ensures var last := docs[|docs| - 1][i]; Lookup(Play(dev, es), last.name) == Some(Entry(last.config, tbl[last.id].enabled))
  {
    var ts := docs[|docs| - 1];
    InstalledAsRecorded(dev, es, After(tbl, docs[..|docs| - 1]), ts, i);
    FlagsStickFromStart(tbl, docs, ts[i].id);
  }

  // ----- over runs of operations

  lemma SomethingCalled(tbl: Table, ts: seq<Tunnel>)
    ensures ts != [] ==> CallsUpTo(tbl, ts, |ts|) != []
  {
  }

  /** A reconciliation that called for nothing at the backend changes no record. */
  lemma NothingMadeNothingRecorded(tbl: Table, ts: seq<Tunnel>, fail: Option<nat>)
    requires Made([], tbl, ts, fail)
    ensures fail.None? && Reconciled(tbl, ts) == tbl
  {
    SomethingCalled(tbl, ts);
    if ts == [] {
      var order :| SweepsInOrder([], tbl, Dropped(tbl, ts), order);
      assert forall id <- tbl :: id in order;
    }
  }

  /** What reconciling makes of an entry without failing. */
  ghost predicate ReconciledTo(entry: Option<FeedState>, work: Store.Work) {
    entry.Some? && entry.value.tunnels.Some? && entry.value.tunnels.value == Reconciled(work.recorded, work.tunnels)
  }

  /** What an operation makes of the records in its feed's entry: those of its work, or none other if it has none. */
  ghost predicate FollowsWork(entry: Option<FeedState>, after: Option<FeedState>, work: Option<Store.Work>, fail: Option<nat>) {
    match work
    case None => Store.TableOf(Store.OrZero(after)) == Store.TableOf(Store.OrZero(entry))
    case Some(w) => w.recorded == Store.TableOf(Store.OrZero(entry)) && (fail.None? ==> ReconciledTo(after, w))
  }

  lemma UpdatedEntryFollows(c: Store.Crypto, salt: string, entry: Option<FeedState>, u: Store.Update, fail: Option<nat>)
    ensures var fs := Store.OrZero(entry);
            FollowsWork(entry, Store.UpdateEntry(c, salt, entry, u, fail).0,
                        if Store.Gated(fs, u.revision) then None else Some(Store.Work(Store.TableOf(fs), u.doc.tunnels)), fail)
  {
  }

  lemma UpdateFollowsWork(c: Store.Crypto, st: State, u: Store.Update, fail: Option<nat>, newSalt: string)
    requires !Blank(st.salt)
    ensures var feedID := TrimSpace(u.doc.id);
            var entry, op := Store.FeedEntry(st, feedID), Store.Remote(u, fail, newSalt);
            FollowsWork(entry, Store.EntryAfter(c, st.salt, entry, op), Store.UpdateWork(c, st, u, newSalt), fail)
  {
    UpdatedEntryFollows(c, st.salt, Store.FeedEntry(st, TrimSpace(u.doc.id)), u, fail);
  }

  lemma CacheFollowsWork(c: Store.Crypto, st: State, url: string, feedID: string, fail: Option<nat>)
    requires Store.KeepsId(c, Store.FromCache(url, feedID, fail))
    ensures var entry, op := Store.FeedEntry(st, TrimSpace(feedID)), Store.FromCache(url, feedID, fail);
            FollowsWork(entry, Store.EntryAfter(c, st.salt, entry, op), Store.CacheWork(c, st, url, feedID), fail)
  {
    var id := TrimSpace(feedID);
    if id in st.feeds && c.Decrypt(url, st.feeds[id].cached).Some? {
      assert TrimSpace(c.Decrypt(url, st.feeds[id].cached).value.id) == id;
    }
  }

  lemma ExecFollowsWork(c: Store.Crypto, st: State, op: Store.Op, feedID: string)
    requires Store.KeepsId(c, op) && !Blank(st.salt) && Store.FeedOf(op) == Some(feedID)
    ensures FollowsWork(Store.FeedEntry(st, feedID), Store.FeedEntry(Store.Exec(c, st, op), feedID), Store.WorkOf(c, st, op), FailOf(op))
  {
    Store.ExecReadsOnlyItsFeed(c, st, op, feedID);
    match op
    case Remote(u, fail, newSalt) => UpdateFollowsWork(c, st, u, fail, newSalt);
    case FromCache(url, id, fail) => CacheFollowsWork(c, st, url, id, fail);
  }

  function RecordedFor(st: State, feedID: string): Table {
    Store.TableOf(Store.OrZero(Store.FeedEntry(st, feedID)))
  }

  /** An operation that did nothing at the backend changes no record of any feed. */
  lemma QuietKeepsRecords(c: Store.Crypto, st: State, op: Store.Op, feedID: string)
    requires Store.KeepsId(c, op) && !Blank(st.salt)
    requires Store.FeedOf(op) == Some(feedID) ==> Store.Did(Store.WorkOf(c, st, op), FailOf(op), [])
    ensures RecordedFor(Store.Exec(c, st, op), feedID) == RecordedFor(st, feedID)
  {
    if Store.FeedOf(op) == Some(feedID) {
      ExecFollowsWork(c, st, op, feedID);
      var work := Store.WorkOf(c, st, op);
      if work.Some? {
        NothingMadeNothingRecorded(work.value.recorded, work.value.tunnels, FailOf(op));
      }
    } else {
      Store.ExecTouchesOnlyItsFeed(c, st, op, feedID);
    }
  }

  lemma {:induction false} RecordsStaySince(c: Store.Crypto, st: State, ps: seq<Performed>, k: nat, feedID: string)
    requires !Blank(st.salt) && Carried(c, st, ps) && forall p <- ps :: Store.KeepsId(c, p.op)
    requires k < |ps| && QuietSince(ps, k, feedID)
    ensures RecordedFor(StateAfter(c, st, ps), feedID) == RecordedFor(StateAfter(c, st, ps[..k + 1]), feedID)
    ensures !Blank(StateAfter(c, st, ps).salt)
  {
    var front, p := ps[..|ps| - 1], ps[|ps| - 1];
    SaltKept(c, st, ps);
    SaltKept(c, st, front);
    if k == |ps| - 1 {
      assert ps[..k + 1] == ps;
    } else {
      assert front[..k + 1] == ps[..k + 1];
      RecordsStaySince(c, st, front, k, feedID);
      QuietKeepsRecords(c, StateAfter(c, st, front), p.op, feedID);
    }
  }

  lemma {:induction false} SaltKept(c: Store.Crypto, st: State, ps: seq<Performed>)
    requires !Blank(st.salt)
    ensures StateAfter(c, st, ps).salt == st.salt
  {
    if ps != [] {
      SaltKept(c, st, ps[..|ps| - 1]);
      Store.SaltStays(c, StateAfter(c, st, ps[..|ps| - 1]), ps[|ps| - 1].op);
    }
  }

  lemma KeepsIds(c: Store.Crypto, owner: Owners, ps: seq<Performed>)
    requires RunOwned(c, owner, ps)
    ensures forall p <- ps :: Store.KeepsId(c, p.op)
  {
  }

  lemma StateUpTo(c: Store.Crypto, st: State, ps: seq<Performed>, k: nat)
    requires k < |ps| && ps[k].saved
    ensures StateAfter(c, st, ps[..k + 1]) == Store.Exec(c, StateAfter(c, st, ps[..k]), ps[k].op)
  {
    assert ps[..k + 1][..k] == ps[..k];
  }

  /** What operation `k` recorded without failing is recorded at the end. */
  lemma WorkIsRecorded(c: Store.Crypto, st: State, ps: seq<Performed>, k: nat, feedID: string)
    requires !Blank(st.salt) && Carried(c, st, ps) && forall p <- ps :: Store.KeepsId(c, p.op)
    requires k < |ps| && QuietSince(ps, k, feedID) && ps[k].saved && Store.FeedOf(ps[k].op) == Some(feedID)
    requires WorkAt(c, st, ps, k).Some? && FailOf(ps[k].op).None?
    ensures var work := WorkAt(c, st, ps, k).value; RecordedFor(StateAfter(c, st, ps), feedID) == Reconciled(work.recorded, work.tunnels)
  {
    RecordsStaySince(c, st, ps, k, feedID);
    SaltKept(c, st, ps[..k]);
    StateUpTo(c, st, ps, k);
    assert ps[k] in ps;
    ExecFollowsWork(c, StateAfter(c, st, ps[..k]), ps[k].op, feedID);
  }

  /** After any run of operations of any feeds: what is installed under the names of a feed whose last work succeeded
      and was saved is the configuration of that work's document, with the flag that the state file then records. */
  lemma InstalledAsFiled(c: Store.Crypto, owner: Owners, st: State, dev: Profiles, ps: seq<Performed>, k: nat, feedID: string, i: nat)
    requires StateOwned(owner, st) && !Blank(st.salt) && RunOwned(c, owner, ps) && Carried(c, st, ps)
    requires k < |ps| && Store.FeedOf(ps[k].op) == Some(feedID) && ps[k].saved && QuietSince(ps, k, feedID)
    requires WorkAt(c, st, ps, k).Some? && FailOf(ps[k].op).None?
    requires var work := WorkAt(c, st, ps, k).value;
             DistinctIds(work.tunnels) && DistinctNames(work.tunnels) && i < |work.tunnels| && KeepsName(work.recorded, work.tunnels, i)
    ensures var t, after := WorkAt(c, st, ps, k).value.tunnels[i], StateAfter(c, st, ps);
            && feedID in after.feeds && after.feeds[feedID].tunnels.Some? && t.id in after.feeds[feedID].tunnels.value
            && Lookup(Play(dev, HistoryOf(ps)), t.name) == Some(Entry(t.config, after.feeds[feedID].tunnels.value[t.id].enabled))
  {
    var work := WorkAt(c, st, ps, k).value;
    KeepsIds(c, owner, ps);
    CarriedUpTo(c, st, ps, k);
    HistoryUpTo(dev, ps, k);
    InstalledAsRecorded(Play(dev, HistoryOf(ps[..k])), ps[k].made, work.recorded, work.tunnels, i);
    WorkIsRecorded(c, st, ps, k, feedID);
    NamesStaySince(c, owner, st, dev, ps, k, feedID);
    assert SameNames(Play(dev, HistoryOf(ps[..k + 1])), Play(dev, HistoryOf(ps)), work.tunnels);
  }
}
