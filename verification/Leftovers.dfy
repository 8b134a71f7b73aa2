/** Profiles left behind: installed under a feed's name, and recorded no more. */
module Leftovers {
  import opened Text
  import opened Model
  import opened Device
  import opened Reconcile
  import opened RevisionGate
  import opened Installed
  import opened Agreement
  import Store

  /** Some tunnel is recorded under `name`. */
  ghost predicate NamedIn(tbl: Table, name: string) {
    exists id :: id in tbl && tbl[id].name == name
  }

  ghost predicate RecordedIn(st: State, feedID: string, name: string) {
    NamedIn(Store.TableOf(FeedAt(st, feedID)), name)
  }

  /** Documents are valid, as far as it matters here: no id is listed twice. */
  ghost predicate OpDistinct(c: Store.Crypto, op: Store.Op) {
    match op
    case Remote(u, _, _) => DistinctIds(u.doc.tunnels)
    case FromCache(url, _, _) => forall data, doc :: c.Decrypt(url, data) == Some(doc) ==> DistinctIds(doc.tunnels)
    case Lookup(_, _) => true
  }

  /** Feeds own trimmed, non-blank names only. */
  ghost predicate ProperOwners(owner: Owners) {
    forall name :: Blank(name) || !Trimmed(name) ==> owner(name) == ""
  }

  ghost predicate NoneNames(es: seq<Event>, name: string) {
    forall i :: 0 <= i < |es| ==> es[i].call.name != name
  }

  // ----- one reconciliation

  lemma CallsOfLast(tbl: Table, ts: seq<Tunnel>, n: nat)
    requires DistinctIds(ts) && 0 < n <= |ts|
    ensures forall call <- CallsFor(tbl, ts[n - 1]) :: call in CallsUpTo(tbl, ts, n)
    ensures forall call <- CallsUpTo(tbl, ts, n - 1) :: call in CallsUpTo(tbl, ts, n)
  {
    CallsOneMore(tbl, ts, n);
  }

  lemma {:induction false} CallsInclude(tbl: Table, ts: seq<Tunnel>, n: nat, i: nat)
    requires DistinctIds(ts) && i < n <= |ts|
    ensures forall call <- CallsFor(tbl, ts[i]) :: call in CallsUpTo(tbl, ts, n)
  {
    CallsOfLast(tbl, ts, n);
    if i < n - 1 {
      CallsInclude(tbl, ts, n - 1, i);
    }
  }

  lemma {:induction false} AppliesAreListed(tbl: Table, ts: seq<Tunnel>, n: nat, call: Call)
    requires n <= |ts| && call in CallsUpTo(tbl, ts, n) && call.Apply?
    ensures exists i :: 0 <= i < n && ts[i].name == call.name
  {
    if call in CallsUpTo(tbl, ts, n - 1) {
      AppliesAreListed(tbl, ts, n - 1, call);
    } else {
      assert call in CallsFor(AppliedTo(tbl, ts, n - 1), ts[n - 1]);
    }
  }

  /** The calls for a listed tunnel name what it is called and what it was recorded as. */
  lemma BothNamesCalled(owner: Owners, feedID: string, tbl: Table, t: Tunnel, name: string)
    requires ProperOwners(owner) && feedID != "" && RecordsOwned(owner, feedID, tbl) && owner(t.name) == feedID
    requires name == t.name || (t.id in tbl && tbl[t.id].name == name)
    ensures exists call <- CallsFor(tbl, t) :: call.name == name
  {
    assert CallsFor(tbl, t)[|CallsFor(tbl, t)| - 1].name == t.name;
    if name != t.name {
      assert Trimmed(name) && Trimmed(t.name) && !Blank(name);
      assert CallsFor(tbl, t)[0].name == name;
    }
  }

  lemma CalledByPrefix(es: seq<Event>, n: nat, call: Call, name: string)
    requires n <= |es| && call in Calls(es[..n]) && call.name == name
    ensures !NoneNames(es, name)
  {
    var i :| 0 <= i < n && Calls(es[..n])[i] == call;
    assert es[i].call == call;
  }

  /** A tunnel listed up to `n` is not called by a name that no event mentions, nor was it recorded under one. */
  lemma ListedIsCalled(owner: Owners, feedID: string, es: seq<Event>, tbl: Table, ts: seq<Tunnel>, n: nat, i: nat, name: string)
    requires ProperOwners(owner) && feedID != "" && RecordsOwned(owner, feedID, tbl) && NamesOwned(owner, feedID, ts)
    requires DistinctIds(ts) && i < n <= |ts| && |CallsUpTo(tbl, ts, n)| <= |es|
    requires Calls(es[..|CallsUpTo(tbl, ts, n)|]) == CallsUpTo(tbl, ts, n) && NoneNames(es, name)
    ensures ts[i].name != name && !(ts[i].id in tbl && tbl[ts[i].id].name == name)
  {
    if ts[i].name == name || (ts[i].id in tbl && tbl[ts[i].id].name == name) {
      BothNamesCalled(owner, feedID, tbl, ts[i], name);
      CallsInclude(tbl, ts, n, i);
      var call :| call in CallsFor(tbl, ts[i]) && call.name == name;
      CalledByPrefix(es, |CallsUpTo(tbl, ts, n)|, call, name);
    }
  }

  /** A dropped tunnel was not recorded under a name that the sweep does not mention. */
  lemma SweptIsCalled(es: seq<Event>, tbl: Table, gone: set<string>, id: string, name: string)
    requires gone <= tbl.Keys && Sweeps(es, tbl, gone) && id in gone && NoneNames(es, name)
    ensures tbl[id].name != name
  {
    var order :| SweepsInOrder(es, tbl, gone, order);
    assert id in order;
    var i :| 0 <= i < |order| && order[i] == id;
    assert es[i].call == Remove(tbl[id].name);
  }

  lemma SweepsRemoveOnly(es: seq<Event>, tbl: Table, gone: set<string>)
    requires gone <= tbl.Keys && Sweeps(es, tbl, gone)
    ensures forall i :: 0 <= i < |es| ==> es[i].call.Remove?
  {
    var order :| SweepsInOrder(es, tbl, gone, order);
  }

  lemma DroppedIsCalled(es: seq<Event>, tbl: Table, ts: seq<Tunnel>, id: string, name: string)
    requires DistinctIds(ts) && Succeeds(es, tbl, ts) && NoneNames(es, name) && id in tbl && id !in Ids(ts)
    ensures tbl[id].name != name
  {
    var n, applied := |CallsUpTo(tbl, ts, |ts|)|, AppliedTo(tbl, ts, |ts|);
    KeysAfter(tbl, ts, |ts|);
    UntouchedBefore(tbl, ts, |ts|, id);
    assert forall i :: 0 <= i < |es[n..]| ==> es[n..][i] == es[n + i];
    SweptIsCalled(es[n..], applied, Dropped(applied, ts), id, name);
  }

  /** A successful reconciliation that never names `name` has nothing recorded under it, before or after. */
  lemma SuccessNamesAll(owner: Owners, feedID: string, es: seq<Event>, tbl: Table, ts: seq<Tunnel>, name: string)
    requires ProperOwners(owner) && feedID != "" && RecordsOwned(owner, feedID, tbl) && NamesOwned(owner, feedID, ts)
    requires DistinctIds(ts) && Succeeds(es, tbl, ts) && NoneNames(es, name)
    ensures !NamedIn(tbl, name) && !NamedIn(Reconciled(tbl, ts), name)
  {
    SuccessRecordsDocument(tbl, ts);
    forall i | 0 <= i < |ts| ensures ts[i].name != name && !(ts[i].id in tbl && tbl[ts[i].id].name == name) {
      ListedIsCalled(owner, feedID, es, tbl, ts, |ts|, i, name);
    }
    forall id | id in Reconciled(tbl, ts) ensures Reconciled(tbl, ts)[id].name != name {
      var i :| 0 <= i < |ts| && ts[i].id == id;
    }
    forall id | id in tbl ensures tbl[id].name != name {
      if id in Ids(ts) {
        var i :| 0 <= i < |ts| && ts[i].id == id;
      } else {
        DroppedIsCalled(es, tbl, ts, id, name);
      }
    }
  }

  /** Neither before nor after an interruption is a tunnel that it got to recorded under a name it never names. */
  ghost predicate Avoids(tbl: Table, ts: seq<Tunnel>, k: nat, name: string)
    requires k < |ts|
  {
    forall i :: 0 <= i <= k ==> ts[i].name != name && !(ts[i].id in tbl && tbl[ts[i].id].name == name)
  }

  lemma AvoidedIsKept(tbl: Table, ts: seq<Tunnel>, k: nat, name: string)
    requires DistinctIds(ts) && k < |ts| && Avoids(tbl, ts, k, name)
    ensures NamedIn(Interrupted(tbl, ts, k), name) <==> NamedIn(tbl, name)
  {
    var after := Interrupted(tbl, ts, k);
    InterruptedAt(tbl, ts, k);
    if NamedIn(after, name) {
      var id :| id in after && after[id].name == name;
      assert id in tbl && tbl[id] == after[id];
    }
    if NamedIn(tbl, name) {
      var id :| id in tbl && tbl[id].name == name;
      assert id in after && after[id] == tbl[id];
    }
  }

  /** An interrupted one leaves the records under a name it never names as they were. */
  lemma InterruptionNamesAll(owner: Owners, feedID: string, es: seq<Event>, tbl: Table, ts: seq<Tunnel>, k: nat, name: string)
    requires ProperOwners(owner) && feedID != "" && RecordsOwned(owner, feedID, tbl) && NamesOwned(owner, feedID, ts)
    requires DistinctIds(ts) && StopsAt(es, tbl, ts, k) && NoneNames(es, name)
    ensures NamedIn(Interrupted(tbl, ts, k), name) <==> NamedIn(tbl, name)
  {
    assert Calls(es) == CallsUpTo(tbl, ts, k + 1) && es[..|es|] == es;
    forall i | 0 <= i <= k ensures ts[i].name != name && !(ts[i].id in tbl && tbl[ts[i].id].name == name) {
      ListedIsCalled(owner, feedID, es, tbl, ts, k + 1, i, name);
    }
    AvoidedIsKept(tbl, ts, k, name);
  }

  /** A name that was applied for good is recorded afterwards, if there was a table to begin with or all went well. */
  lemma AppliedIsRecorded(es: seq<Event>, tbl: Table, ts: seq<Tunnel>, fail: Option<nat>, e: Event)
    requires DistinctIds(ts) && Made(es, tbl, ts, fail) && e in es && e.call.Apply? && e.outcome.Done?
    ensures NamedIn(if fail.Some? then Interrupted(tbl, ts, fail.value) else Reconciled(tbl, ts), e.call.name)
  {
    var j :| 0 <= j < |es| && es[j] == e;
    if fail.Some? {
      var k := fail.value;
      assert Calls(es)[j] == e.call;
      assert Calls(es) == CallsUpTo(tbl, ts, k) + CallsFor(AppliedTo(tbl, ts, k), ts[k]);
      assert j < |es| - 1;
      assert e.call in CallsUpTo(tbl, ts, k);
      AppliesAreListed(tbl, ts, k, e.call);
      InterruptedAt(tbl, ts, k);
      var i :| 0 <= i < k && ts[i].name == e.call.name;
      assert ts[i].id in Interrupted(tbl, ts, k);
    } else {
      var n := |CallsUpTo(tbl, ts, |ts|)|;
      var applied := AppliedTo(tbl, ts, |ts|);
      SweepsRemoveOnly(es[n..], applied, Dropped(applied, ts));
      assert forall i :: 0 <= i < |es[n..]| ==> es[n..][i] == es[n + i];
      assert Calls(es[..n])[j] == e.call;
      AppliesAreListed(tbl, ts, |ts|, e.call);
      SuccessRecordsDocument(tbl, ts);
      var i :| 0 <= i < |ts| && ts[i].name == e.call.name;
      assert ts[i].id in Reconciled(tbl, ts);
    }
  }

  ghost predicate ListsName(ts: seq<Tunnel>, name: string) {
    exists i :: 0 <= i < |ts| && ts[i].name == name
  }

  lemma ReconciledNames(tbl: Table, ts: seq<Tunnel>, name: string)
    requires DistinctIds(ts) && NamedIn(Reconciled(tbl, ts), name)
    ensures ListsName(ts, name)
  {
    SuccessRecordsDocument(tbl, ts);
    var id :| id in Reconciled(tbl, ts) && Reconciled(tbl, ts)[id].name == name;
    var i :| 0 <= i < |ts| && ts[i].id == id;
  }

  lemma ListedIsRecorded(tbl: Table, ts: seq<Tunnel>, name: string)
    requires DistinctIds(ts) && ListsName(ts, name)
    ensures NamedIn(Reconciled(tbl, ts), name)
  {
    SuccessRecordsDocument(tbl, ts);
    var i :| 0 <= i < |ts| && ts[i].name == name;
    assert ts[i].id in Reconciled(tbl, ts);
  }

  /** A record under `name` outlives an interruption at tunnel `k`: the tunnels before did not get to it, and it is not
      the one that was being renamed. */
  ghost predicate Survives(tbl: Table, ts: seq<Tunnel>, k: nat, name: string)
    requires k < |ts|
  {
    exists id :: id in tbl && tbl[id].name == name && id !in Ids(ts[..k]) && !(id == ts[k].id && Renamed(tbl, ts[k]))
  }

  lemma InIds(ts: seq<Tunnel>, k: nat, id: string)
    requires k <= |ts|
    ensures id in Ids(ts[..k]) <==> exists i :: 0 <= i < k && ts[i].id == id
  {
    if id in Ids(ts[..k]) {
      var i :| 0 <= i < |ts[..k]| && ts[..k][i].id == id;
      assert ts[i].id == id;
    }
    if i :| 0 <= i < k && ts[i].id == id {
      assert ts[..k][i].id == id;
    }
  }

  lemma InterruptedNamesOnly(tbl: Table, ts: seq<Tunnel>, k: nat, name: string)
    requires DistinctIds(ts) && k < |ts| && NamedIn(Interrupted(tbl, ts, k), name)
    ensures ListsName(ts[..k], name) || Survives(tbl, ts, k, name)
  {
    var after := Interrupted(tbl, ts, k);
    InterruptedAt(tbl, ts, k);
    var id :| id in after && after[id].name == name;
    InIds(ts, k, id);
    if id in Ids(ts[..k]) {
      var i :| 0 <= i < k && ts[i].id == id;
      assert ts[..k][i].name == name;
    } else {
      assert id in tbl && tbl[id] == after[id];
    }
  }

  /** The names recorded after an interruption: those of the tunnels before, and those that survive. */
  lemma InterruptedNames(tbl: Table, ts: seq<Tunnel>, k: nat, name: string)
    requires DistinctIds(ts) && k < |ts|
    ensures NamedIn(Interrupted(tbl, ts, k), name) <==> ListsName(ts[..k], name) || Survives(tbl, ts, k, name)
  {
    var after := Interrupted(tbl, ts, k);
    InterruptedAt(tbl, ts, k);
    if NamedIn(after, name) {
      InterruptedNamesOnly(tbl, ts, k, name);
    }
    if ListsName(ts[..k], name) {
      var i :| 0 <= i < |ts[..k]| && ts[..k][i].name == name;
      assert ts[i].id in after && after[ts[i].id].name == name;
    }
    if Survives(tbl, ts, k, name) {
      var id :| id in tbl && tbl[id].name == name && id !in Ids(ts[..k]) && !(id == ts[k].id && Renamed(tbl, ts[k]));
      InIds(ts, k, id);
      assert id in after && after[id] == tbl[id];
    }
  }

  // ----- one operation

  function TableAt(st: State, feedID: string): Table {
    Store.TableOf(FeedAt(st, feedID))
  }

  predicate HasTableAt(st: State, feedID: string) {
    FeedAt(st, feedID).tunnels.Some?
  }

  /** What work makes of the feed's table. A table that was only being made is lost when a tunnel fails. */
  function TableAfter(work: Store.Work, had: bool, fail: Option<nat>): Table
    requires fail.Some? ==> fail.value < |work.tunnels|
  {
    if fail.None? then Reconciled(work.recorded, work.tunnels)
    else if had then Interrupted(work.recorded, work.tunnels, fail.value)
    else work.recorded
  }

  lemma ReconcileEntryTable(entry: Option<FeedState>, ts: seq<Tunnel>, fail: Option<nat>)
    requires fail.Some? ==> fail.value < |ts|
    ensures Store.TableOf(Store.OrZero(Store.ReconcileEntry(entry, ts, fail).0)) ==
            TableAfter(Store.Work(Store.TableOf(Store.OrZero(entry)), ts), Store.OrZero(entry).tunnels.Some?, fail)
  {
  }

  lemma EntryIsFeedAt(st: State, feedID: string)
    ensures FeedAt(st, feedID) == Store.OrZero(Store.FeedEntry(st, feedID))
  {
  }

  lemma UpdateMakesTable(c: Store.Crypto, salt: string, entry: Option<FeedState>, u: Store.Update, fail: Option<nat>)
    requires fail.Some? ==> fail.value < |u.doc.tunnels|
    requires !Store.Gated(Store.OrZero(entry), u.revision)
    ensures Store.TableOf(Store.OrZero(Store.UpdateEntry(c, salt, entry, u, fail).0)) ==
            TableAfter(Store.Work(Store.TableOf(Store.OrZero(entry)), u.doc.tunnels), Store.OrZero(entry).tunnels.Some?, fail)
  {
    ReconcileEntryTable(Some(Store.NoteEntry(c, salt, entry, u)), u.doc.tunnels, fail);
  }

  /** The table after an operation with work to do. */
  lemma WorkMakesTable(c: Store.Crypto, st: State, op: Store.Op)
    requires Store.KeepsId(c, op) && !Blank(st.salt) && Store.WorkOf(c, st, op).Some?
    requires FailOf(op).Some? ==> FailOf(op).value < |Store.WorkOf(c, st, op).value.tunnels|
    ensures Store.FeedOf(op).Some? && Store.FeedOf(op).value != ""
    ensures TableAt(Store.Exec(c, st, op), Store.FeedOf(op).value) ==
            TableAfter(Store.WorkOf(c, st, op).value, HasTableAt(st, Store.FeedOf(op).value), FailOf(op))
    ensures Store.WorkOf(c, st, op).value.recorded == TableAt(st, Store.FeedOf(op).value)
  {
    var feedID := Store.FeedOf(op).value;
    EntryIsFeedAt(st, feedID);
    EntryIsFeedAt(Store.Exec(c, st, op), feedID);
    var entry := Store.FeedEntry(st, feedID);
    Store.ExecReadsOnlyItsFeed(c, st, op, feedID);
    match op
    case Remote(u, fail, _) => UpdateMakesTable(c, st.salt, entry, u, fail);
    case FromCache(url, _, fail) =>
      ReconcileEntryTable(entry, c.Decrypt(url, entry.value.cached).value.tunnels, fail);
  }

  lemma NoWorkKeepsTable(c: Store.Crypto, st: State, op: Store.Op, feedID: string)
    requires Store.KeepsId(c, op) && !Blank(st.salt) && Store.WorkOf(c, st, op).None?
    ensures TableAt(Store.Exec(c, st, op), feedID) == TableAt(st, feedID)
  {
    EntryIsFeedAt(st, feedID);
    EntryIsFeedAt(Store.Exec(c, st, op), feedID);
    if Store.FeedOf(op) == Some(feedID) {
      Store.ExecReadsOnlyItsFeed(c, st, op, feedID);
    } else {
      Store.ExecTouchesOnlyItsFeed(c, st, op, feedID);
    }
  }

  lemma OtherFeedKeepsTable(c: Store.Crypto, st: State, op: Store.Op, feedID: string)
    requires Store.KeepsId(c, op) && !Blank(st.salt) && Store.FeedOf(op) != Some(feedID)
    ensures TableAt(Store.Exec(c, st, op), feedID) == TableAt(st, feedID)
  {
    EntryIsFeedAt(st, feedID);
    EntryIsFeedAt(Store.Exec(c, st, op), feedID);
    Store.ExecTouchesOnlyItsFeed(c, st, op, feedID);
  }

  /** What an operation was asked to do, listed without repetitions. */
  lemma WorkDistinct(c: Store.Crypto, st: State, op: Store.Op)
    requires OpDistinct(c, op) && Store.WorkOf(c, st, op).Some?
    ensures DistinctIds(Store.WorkOf(c, st, op).value.tunnels)
  {
    if op.FromCache? {
      var id := TrimSpace(op.feedID);
      var doc := c.Decrypt(op.setupURL, st.feeds[id].cached);
      assert doc.Some? && DistinctIds(doc.value.tunnels);
    }
  }

  lemma OwnedKeepsId(c: Store.Crypto, owner: Owners, op: Store.Op)
    requires OpOwned(c, owner, op)
    ensures Store.KeepsId(c, op)
  {
  }

  /** An operation that never names `name` at the backend leaves it recorded or unrecorded as it was. */
  lemma RecordingKept(c: Store.Crypto, owner: Owners, st: State, op: Store.Op, es: seq<Event>, name: string)
    requires ProperOwners(owner) && StateOwned(owner, st) && !Blank(st.salt) && OpOwned(c, owner, op) && OpDistinct(c, op)
    requires Store.Did(Store.WorkOf(c, st, op), FailOf(op), es) && NoneNames(es, name)
    ensures RecordedIn(Store.Exec(c, st, op), owner(name), name) <==> RecordedIn(st, owner(name), name)
  {
    var work, feedID := Store.WorkOf(c, st, op), owner(name);
    OwnedKeepsId(c, owner, op);
    if Store.FeedOf(op) != Some(feedID) {
      OtherFeedKeepsTable(c, st, op, feedID);
    } else if work.None? {
      NoWorkKeepsTable(c, st, op, feedID);
    } else {
      WorkOwned(c, owner, st, op);
      WorkDistinct(c, st, op);
      WorkMakesTable(c, st, op);
      if FailOf(op).None? {
        SuccessNamesAll(owner, feedID, es, work.value.recorded, work.value.tunnels, name);
      } else {
        InterruptionNamesAll(owner, feedID, es, work.value.recorded, work.value.tunnels, FailOf(op).value, name);
      }
    }
  }

  // ----- over whole runs

  ghost predicate RunDistinct(c: Store.Crypto, ps: seq<Performed>) {
    forall k :: 0 <= k < |ps| ==> OpDistinct(c, ps[k].op)
  }

  /** Installed under one of a feed's names, and not recorded by that feed. */
  ghost predicate LeftOver(owner: Owners, st: State, dev: Profiles, name: string) {
    name in dev && !RecordedIn(st, owner(name), name)
  }

  /** Work of a feed that had a table or not, and that could be saved or not, leaves `name` unrecorded: judged by the
      records before, the document and the point of failure. */
  ghost predicate Unrecords(work: Store.Work, had: bool, fail: Option<nat>, saved: bool, name: string)
    requires fail.Some? ==> fail.value < |work.tunnels|
  {
    if !saved then !NamedIn(work.recorded, name)
    else if fail.None? then !ListsName(work.tunnels, name)
    else !had || (!ListsName(work.tunnels[..fail.value], name) && !Survives(work.recorded, work.tunnels, fail.value, name))
  }

  /** The operation's last call under `name` left something there, and its work leaves the name unrecorded. */
  ghost predicate Abandons(c: Store.Crypto, before: State, p: Performed, name: string) {
    var last, work := LastEvent(p.made, name), Store.WorkOf(c, before, p.op);
    && last.Some? && Left(last.value).Some?
    && work.Some? && (FailOf(p.op).Some? ==> FailOf(p.op).value < |work.value.tunnels|)
    && Unrecords(work.value, HasTableAt(before, Store.FeedOf(p.op).value), FailOf(p.op), p.saved, name)
  }

  /** The guard is exact: a name that the operation called is unrecorded afterwards if and only if its work says so. */
  lemma UnrecordsExactly(c: Store.Crypto, owner: Owners, st: State, p: Performed, name: string)
    requires StateOwned(owner, st) && !Blank(st.salt) && OpOwned(c, owner, p.op) && OpDistinct(c, p.op)
    requires Store.Did(Store.WorkOf(c, st, p.op), FailOf(p.op), p.made) && LastEvent(p.made, name).Some?
    ensures var work := Store.WorkOf(c, st, p.op);
            && work.Some? && (FailOf(p.op).Some? ==> FailOf(p.op).value < |work.value.tunnels|)
            && Store.FeedOf(p.op) == Some(owner(name))
            && (RecordedIn(if p.saved then Store.Exec(c, st, p.op) else st, owner(name), name) <==>
                !Unrecords(work.value, HasTableAt(st, owner(name)), FailOf(p.op), p.saved, name))
  {
    var work, fail := Store.WorkOf(c, st, p.op).value, FailOf(p.op);
    OwnedKeepsId(c, owner, p.op);
    WorkDistinct(c, st, p.op);
    WorkMakesTable(c, st, p.op);
    DidOwned(c, owner, st, p.op, p.made);
    var i :| 0 <= i < |p.made| && p.made[i] == LastEvent(p.made, name).value;
    assert Calls(p.made)[i].name == name;
    if p.saved {
      if fail.None? {
        if ListsName(work.tunnels, name) { ListedIsRecorded(work.recorded, work.tunnels, name); }
        if NamedIn(Reconciled(work.recorded, work.tunnels), name) { ReconciledNames(work.recorded, work.tunnels, name); }
      } else {
        InterruptedNames(work.recorded, work.tunnels, fail.value, name);
      }
    }
  }

  ghost predicate AbandonedAt(c: Store.Crypto, st: State, ps: seq<Performed>, k: nat, name: string)
    requires k < |ps|
  {
    Abandons(c, StateAfter(c, st, ps[..k]), ps[k], name) && NoneSince(ps, k, name)
  }

  ghost predicate NoneSince(ps: seq<Performed>, k: nat, name: string) {
    forall j :: k < j < |ps| ==> NoneNames(ps[j].made, name)
  }

  lemma NoneSinceLast(ps: seq<Performed>, k: nat, name: string)
    requires k < |ps| - 1
    ensures NoneSince(ps, k, name) <==> NoneSince(ps[..|ps| - 1], k, name) && NoneNames(ps[|ps| - 1].made, name)
  {
    assert forall j :: 0 <= j < |ps| - 1 ==> ps[..|ps| - 1][j] == ps[j];
  }

  lemma LastNamesOrNot(dev: Profiles, es: seq<Event>, name: string)
    ensures LastEvent(es, name).None? <==> NoneNames(es, name)
    ensures LastEvent(es, name).Some? ==> Lookup(Play(dev, es), name) == Left(LastEvent(es, name).value)
    ensures LastEvent(es, name).None? ==> Lookup(Play(dev, es), name) == Lookup(dev, name)
  {
    LastCallDecides(dev, es, name);
    if LastEvent(es, name).Some? {
      var i :| 0 <= i < |es| && es[i] == LastEvent(es, name).value;
    }
  }

  lemma AbandonedEarlier(c: Store.Crypto, st: State, ps: seq<Performed>, k: nat, name: string)
    requires k < |ps| - 1
    ensures AbandonedAt(c, st, ps, k, name) <==> AbandonedAt(c, st, ps[..|ps| - 1], k, name) && NoneNames(ps[|ps| - 1].made, name)
  {
    assert ps[..|ps| - 1][..k] == ps[..k] && ps[..|ps| - 1][k] == ps[k];
    NoneSinceLast(ps, k, name);
  }

  ghost predicate SomeAbandons(c: Store.Crypto, st: State, ps: seq<Performed>, name: string) {
    exists k: nat :: k < |ps| && AbandonedAt(c, st, ps, k, name)
  }

  lemma AbandonedNow(c: Store.Crypto, st: State, ps: seq<Performed>, name: string)
    requires ps != [] && Abandons(c, StateAfter(c, st, ps[..|ps| - 1]), ps[|ps| - 1], name)
    ensures SomeAbandons(c, st, ps, name)
  {
    assert AbandonedAt(c, st, ps, |ps| - 1, name);
  }

  lemma AbandonedStill(c: Store.Crypto, st: State, ps: seq<Performed>, name: string)
    requires ps != [] && NoneNames(ps[|ps| - 1].made, name) && SomeAbandons(c, st, ps[..|ps| - 1], name)
    ensures SomeAbandons(c, st, ps, name)
  {
    var k: nat :| k < |ps| - 1 && AbandonedAt(c, st, ps[..|ps| - 1], k, name);
    AbandonedEarlier(c, st, ps, k, name);
  }

  lemma AbandonedBefore(c: Store.Crypto, st: State, ps: seq<Performed>, k: nat, name: string)
    requires k < |ps| - 1 && AbandonedAt(c, st, ps, k, name)
    ensures NoneNames(ps[|ps| - 1].made, name) && SomeAbandons(c, st, ps[..|ps| - 1], name)
  {
    AbandonedEarlier(c, st, ps, k, name);
  }

  /** One more operation: it abandons the profile, or leaves alone one abandoned before. */
  lemma SomeAbandonsLast(c: Store.Crypto, st: State, ps: seq<Performed>, name: string)
    requires ps != []
    ensures SomeAbandons(c, st, ps, name) <==>
            || Abandons(c, StateAfter(c, st, ps[..|ps| - 1]), ps[|ps| - 1], name)
            || (NoneNames(ps[|ps| - 1].made, name) && SomeAbandons(c, st, ps[..|ps| - 1], name))
  {
    if Abandons(c, StateAfter(c, st, ps[..|ps| - 1]), ps[|ps| - 1], name) {
      AbandonedNow(c, st, ps, name);
    } else if NoneNames(ps[|ps| - 1].made, name) && SomeAbandons(c, st, ps[..|ps| - 1], name) {
      AbandonedStill(c, st, ps, name);
    } else if SomeAbandons(c, st, ps, name) {
      var k: nat :| k < |ps| && AbandonedAt(c, st, ps, k, name);
      if k < |ps| - 1 { AbandonedBefore(c, st, ps, k, name); }
    }
  }

  /** What one operation does to a left-over profile. */
  lemma LeftOverLast(c: Store.Crypto, owner: Owners, st: State, dev: Profiles, p: Performed, name: string)
    requires ProperOwners(owner) && StateOwned(owner, st) && !Blank(st.salt) && OpOwned(c, owner, p.op) && OpDistinct(c, p.op)
    requires Store.Did(Store.WorkOf(c, st, p.op), FailOf(p.op), p.made)
    ensures var after := if p.saved then Store.Exec(c, st, p.op) else st;
            LeftOver(owner, after, Play(dev, p.made), name) <==>
            Abandons(c, st, p, name) || (NoneNames(p.made, name) && LeftOver(owner, st, dev, name))
  {
    LastNamesOrNot(dev, p.made, name);
    if NoneNames(p.made, name) {
      RecordingKept(c, owner, st, p.op, p.made, name);
    } else {
      UnrecordsExactly(c, owner, st, p, name);
    }
  }

  /** Over whole runs: a profile is left over if and only if the last operation that named it at the backend left
      something there and unrecorded the name, as its document, its records and the point where it failed tell. */
  lemma {:induction false} LeftOverExactly(c: Store.Crypto, owner: Owners, st: State, dev: Profiles, ps: seq<Performed>, name: string)
    requires ProperOwners(owner) && StateOwned(owner, st) && !Blank(st.salt)
    requires RunOwned(c, owner, ps) && RunDistinct(c, ps) && Carried(c, st, ps)
    requires !LeftOver(owner, st, dev, name)
    ensures LeftOver(owner, StateAfter(c, st, ps), Play(dev, HistoryOf(ps)), name) <==> SomeAbandons(c, st, ps, name)
  {
    if ps != [] {
      var front, p := ps[..|ps| - 1], ps[|ps| - 1];
      LeftOverExactly(c, owner, st, dev, front, name);
      RunStaysOwned(c, owner, st, front);
      PlayConcat(dev, HistoryOf(front), p.made);
      LeftOverLast(c, owner, StateAfter(c, st, front), Play(dev, HistoryOf(front)), p, name);
      SomeAbandonsLast(c, st, ps, name);
    }
  }

  // ----- why profiles are abandoned

  /** The ways to abandon a profile: a state that could not be saved, a failure before there was a table, a removal
      that failed and left the profile, and an Apply that failed and left something. */
  ghost predicate Careless(st: State, p: Performed) {
    || !p.saved
    || (FailOf(p.op).Some? && Store.FeedOf(p.op).Some? && !HasTableAt(st, Store.FeedOf(p.op).value))
    || exists e <- p.made :: e.outcome.Failed? && Left(e).Some?
  }

  /** There is no other way. */
  lemma CarefulAbandonsNothing(c: Store.Crypto, owner: Owners, st: State, p: Performed, name: string)
    requires StateOwned(owner, st) && !Blank(st.salt) && OpOwned(c, owner, p.op) && OpDistinct(c, p.op)
    requires Store.Did(Store.WorkOf(c, st, p.op), FailOf(p.op), p.made) && !Careless(st, p)
    ensures !Abandons(c, st, p, name)
  {
    var last, work := LastEvent(p.made, name), Store.WorkOf(c, st, p.op);
    if last.Some? && Left(last.value).Some? {
      assert last.value.outcome.Done? && last.value.call.Apply?;
      OwnedKeepsId(c, owner, p.op);
      WorkDistinct(c, st, p.op);
      WorkMakesTable(c, st, p.op);
      UnrecordsExactly(c, owner, st, p, name);
      AppliedIsRecorded(p.made, work.value.recorded, work.value.tunnels, FailOf(p.op), last.value);
    }
  }

  ghost predicate AllCareful(c: Store.Crypto, st: State, ps: seq<Performed>) {
    forall k :: 0 <= k < |ps| ==> CarefulAt(c, st, ps, k)
  }

  ghost predicate CarefulAt(c: Store.Crypto, st: State, ps: seq<Performed>, k: nat)
    requires k < |ps|
  {
    !Careless(StateAfter(c, st, ps[..k]), ps[k])
  }

  lemma CarefulStep(c: Store.Crypto, owner: Owners, st: State, ps: seq<Performed>, k: nat, name: string)
    requires StateOwned(owner, st) && !Blank(st.salt) && RunOwned(c, owner, ps) && RunDistinct(c, ps) && Carried(c, st, ps)
    requires k < |ps| && CarefulAt(c, st, ps, k)
    ensures !AbandonedAt(c, st, ps, k, name)
  {
    CarriedUpTo(c, st, ps, k);
    RunStaysOwned(c, owner, st, ps[..k]);
    CarefulAbandonsNothing(c, owner, StateAfter(c, st, ps[..k]), ps[k], name);
  }

  /** If nothing careless ever happens no profile is ever left over: what is installed under a feed's name is recorded. */
  lemma NothingLeftOver(c: Store.Crypto, owner: Owners, st: State, dev: Profiles, ps: seq<Performed>, name: string)
    requires ProperOwners(owner) && StateOwned(owner, st) && !Blank(st.salt)
    requires RunOwned(c, owner, ps) && RunDistinct(c, ps) && Carried(c, st, ps) && AllCareful(c, st, ps)
    requires !LeftOver(owner, st, dev, name)
    ensures !LeftOver(owner, StateAfter(c, st, ps), Play(dev, HistoryOf(ps)), name)
  {
    LeftOverExactly(c, owner, st, dev, ps, name);
    forall k: nat | k < |ps| ensures !AbandonedAt(c, st, ps, k, name) {
      assert CarefulAt(c, st, ps, k);
      CarefulStep(c, owner, st, ps, k, name);
    }
  }

  /** So right after a feed was reconciled successfully, and nothing careless happened ever, none of its names is
      installed that its document does not list. */
  lemma OnlyListedInstalled(c: Store.Crypto, owner: Owners, st: State, dev: Profiles, ps: seq<Performed>, name: string)
    requires ProperOwners(owner) && StateOwned(owner, st) && !Blank(st.salt)
    requires RunOwned(c, owner, ps) && RunDistinct(c, ps) && Carried(c, st, ps) && AllCareful(c, st, ps)
    requires !LeftOver(owner, st, dev, name) && name in Play(dev, HistoryOf(ps))
    requires ps != [] && FailOf(ps[|ps| - 1].op).None? && Store.FeedOf(ps[|ps| - 1].op) == Some(owner(name))
    requires WorkAt(c, st, ps, |ps| - 1).Some?
    ensures ListsName(WorkAt(c, st, ps, |ps| - 1).value.tunnels, name)
  {
    var front, p := ps[..|ps| - 1], ps[|ps| - 1];
    var work := WorkAt(c, st, ps, |ps| - 1).value;
    NothingLeftOver(c, owner, st, dev, ps, name);
    RunStaysOwned(c, owner, st, front);
    OwnedKeepsId(c, owner, p.op);
    WorkDistinct(c, StateAfter(c, st, front), p.op);
    WorkMakesTable(c, StateAfter(c, st, front), p.op);
    assert CarefulAt(c, st, ps, |ps| - 1);
    ReconciledNames(work.recorded, work.tunnels, name);
  }
}
