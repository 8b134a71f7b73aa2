/** The backend over whole runs: operations of any feeds, each with the calls it made. */
module Installed {
  import opened Text
  import opened Model
  import opened Device
  import opened Reconcile
  import opened Agreement
  import Store

  /** An operation, whether its state could be saved, and what it did at the backend. */
  datatype Performed = Performed(op: Store.Op, saved: bool, made: seq<Event>)

  function StateAfter(c: Store.Crypto, st: State, ps: seq<Performed>): State {
    if ps == [] then st
    else
      var before, p := StateAfter(c, st, ps[..|ps| - 1]), ps[|ps| - 1];
      if p.saved then Store.Exec(c, before, p.op) else before
  }

  function HistoryOf(ps: seq<Performed>): seq<Event> {
    if ps == [] then [] else HistoryOf(ps[..|ps| - 1]) + ps[|ps| - 1].made
  }

  function FailOf(op: Store.Op): Option<nat> {
    match op
    case Remote(_, fail, _) => fail
    case FromCache(_, _, fail) => fail
    case Lookup(_, _) => None
  }

  /** Every operation did at the backend what its work called for. */
  ghost predicate Carried(c: Store.Crypto, st: State, ps: seq<Performed>) {
    if ps == [] then true
    else
      var front, p := ps[..|ps| - 1], ps[|ps| - 1];
      && Carried(c, st, front)
      && Store.Did(Store.WorkOf(c, StateAfter(c, st, front), p.op), FailOf(p.op), p.made)
  }

  lemma OneMorePerformed(c: Store.Crypto, st: State, dev: Profiles, ps: seq<Performed>, p: Performed)
    requires Carried(c, st, ps)
    requires Store.Did(Store.WorkOf(c, StateAfter(c, st, ps), p.op), FailOf(p.op), p.made)
    ensures Carried(c, st, ps + [p])
    ensures StateAfter(c, st, ps + [p]) ==
            if p.saved then Store.Exec(c, StateAfter(c, st, ps), p.op) else StateAfter(c, st, ps)
    ensures Play(dev, HistoryOf(ps + [p])) == Play(Play(dev, HistoryOf(ps)), p.made)
  {
    assert (ps + [p])[..|ps + [p]| - 1] == ps;
    PlayConcat(dev, HistoryOf(ps), p.made);
  }

  // ----- names that belong to feeds

  /** The feed that a profile name belongs to. */
  type Owners = string -> string

  ghost predicate NamesOwned(owner: Owners, feedID: string, ts: seq<Tunnel>) {
    forall i :: 0 <= i < |ts| ==> owner(ts[i].name) == feedID
  }

  ghost predicate RecordsOwned(owner: Owners, feedID: string, tbl: Table) {
    forall id <- tbl :: owner(tbl[id].name) == feedID
  }

  ghost predicate StateOwned(owner: Owners, st: State) {
    forall f <- st.feeds :: RecordsOwned(owner, f, Store.TableOf(st.feeds[f]))
  }

  /** The operation's documents are its own feed's, and use that feed's names only. */
  ghost predicate OpOwned(c: Store.Crypto, owner: Owners, op: Store.Op) {
    match op
    case Remote(u, _, _) => NamesOwned(owner, TrimSpace(u.doc.id), u.doc.tunnels)
    case FromCache(url, feedID, _) =>
      forall data, doc :: c.Decrypt(url, data) == Some(doc) ==>
        TrimSpace(doc.id) == TrimSpace(feedID) && NamesOwned(owner, TrimSpace(feedID), doc.tunnels)
    case Lookup(_, _) => true
  }

  ghost predicate RunOwned(c: Store.Crypto, owner: Owners, ps: seq<Performed>) {
    forall k :: 0 <= k < |ps| ==> OpOwned(c, owner, ps[k].op)
  }

  lemma {:induction false} AppliedOwned(owner: Owners, feedID: string, tbl: Table, ts: seq<Tunnel>, n: nat)
    requires n <= |ts| && RecordsOwned(owner, feedID, tbl) && NamesOwned(owner, feedID, ts)
    ensures RecordsOwned(owner, feedID, AppliedTo(tbl, ts, n))
  {
    if n > 0 {
      AppliedOwned(owner, feedID, tbl, ts, n - 1);
    }
  }

  lemma ReconcileEntryOwned(owner: Owners, feedID: string, entry: Option<FeedState>, ts: seq<Tunnel>, fail: Option<nat>)
    requires RecordsOwned(owner, feedID, Store.TableOf(Store.OrZero(entry))) && NamesOwned(owner, feedID, ts)
    ensures RecordsOwned(owner, feedID, Store.TableOf(Store.OrZero(Store.ReconcileEntry(entry, ts, fail).0)))
  {
    var tbl := Store.TableOf(Store.OrZero(entry));
    AppliedOwned(owner, feedID, tbl, ts, |ts|);
    if fail.Some? && fail.value < |ts| {
      AppliedOwned(owner, feedID, tbl, ts, fail.value);
    }
  }

  lemma OwnedAt(owner: Owners, st: State, feedID: string)
    requires StateOwned(owner, st)
    ensures RecordsOwned(owner, feedID, Store.TableOf(FeedAt(st, feedID)))
    ensures RecordsOwned(owner, feedID, Store.TableOf(Store.OrZero(Store.FeedEntry(st, feedID))))
  {
  }

  lemma CacheEntryOwned(c: Store.Crypto, owner: Owners, entry: Option<FeedState>, url: string, feedID: string, fail: Option<nat>)
    requires RecordsOwned(owner, TrimSpace(feedID), Store.TableOf(Store.OrZero(entry))) && OpOwned(c, owner, Store.FromCache(url, feedID, fail))
    ensures RecordsOwned(owner, TrimSpace(feedID), Store.TableOf(Store.OrZero(Store.FromCacheEntry(c, entry, url, feedID, fail))))
  {
    if entry.Some? && c.Decrypt(url, entry.value.cached).Some? {
      ReconcileEntryOwned(owner, TrimSpace(feedID), entry, c.Decrypt(url, entry.value.cached).value.tunnels, fail);
    }
  }

  lemma UpdateEntryOwned(c: Store.Crypto, owner: Owners, salt: string, entry: Option<FeedState>, u: Store.Update, fail: Option<nat>)
    requires RecordsOwned(owner, TrimSpace(u.doc.id), Store.TableOf(Store.OrZero(entry))) && NamesOwned(owner, TrimSpace(u.doc.id), u.doc.tunnels)
    ensures RecordsOwned(owner, TrimSpace(u.doc.id), Store.TableOf(Store.OrZero(Store.UpdateEntry(c, salt, entry, u, fail).0)))
  {
    ReconcileEntryOwned(owner, TrimSpace(u.doc.id), Some(Store.NoteEntry(c, salt, entry, u)), u.doc.tunnels, fail);
  }

  /** An operation leaves every feed's records under that feed's names. */
  lemma EntryStaysOwned(c: Store.Crypto, owner: Owners, st: State, op: Store.Op, feedID: string)
    requires StateOwned(owner, st) && OpOwned(c, owner, op) && !Blank(st.salt)
    ensures RecordsOwned(owner, feedID, Store.TableOf(Store.OrZero(Store.FeedEntry(Store.Exec(c, st, op), feedID))))
  {
    OwnedAt(owner, st, feedID);
    if Store.FeedOf(op) != Some(feedID) {
      Store.ExecTouchesOnlyItsFeed(c, st, op, feedID);
    } else {
      Store.ExecReadsOnlyItsFeed(c, st, op, feedID);
      match op
      case Remote(u, fail, _) => UpdateEntryOwned(c, owner, st.salt, Store.FeedEntry(st, feedID), u, fail);
      case FromCache(url, id, fail) => CacheEntryOwned(c, owner, Store.FeedEntry(st, feedID), url, id, fail);
    }
  }

  lemma ExecStaysOwned(c: Store.Crypto, owner: Owners, st: State, op: Store.Op)
    requires StateOwned(owner, st) && OpOwned(c, owner, op) && !Blank(st.salt)
    ensures StateOwned(owner, Store.Exec(c, st, op))
  {
    forall f | f in Store.Exec(c, st, op).feeds
      ensures RecordsOwned(owner, f, Store.TableOf(Store.Exec(c, st, op).feeds[f]))
    {
      EntryStaysOwned(c, owner, st, op, f);
    }
  }

  lemma {:induction false} RunStaysOwned(c: Store.Crypto, owner: Owners, st: State, ps: seq<Performed>)
    requires StateOwned(owner, st) && RunOwned(c, owner, ps) && !Blank(st.salt)
    ensures StateOwned(owner, StateAfter(c, st, ps)) && !Blank(StateAfter(c, st, ps).salt)
  {
    if ps != [] {
      var front, p := ps[..|ps| - 1], ps[|ps| - 1];
      RunStaysOwned(c, owner, st, front);
      Store.SaltStays(c, StateAfter(c, st, front), p.op);
      ExecStaysOwned(c, owner, StateAfter(c, st, front), p.op);
    }
  }

  // ----- the names an operation calls

  ghost predicate CallsOwned(owner: Owners, feedID: string, cs: seq<Call>) {
    forall i :: 0 <= i < |cs| ==> owner(cs[i].name) == feedID
  }

  lemma CallsForOwned(owner: Owners, feedID: string, tbl: Table, t: Tunnel)
    requires RecordsOwned(owner, feedID, tbl) && owner(t.name) == feedID
    ensures CallsOwned(owner, feedID, CallsFor(tbl, t))
  {
  }

  lemma {:induction false} CallsUpToOwned(owner: Owners, feedID: string, tbl: Table, ts: seq<Tunnel>, n: nat)
    requires n <= |ts| && RecordsOwned(owner, feedID, tbl) && NamesOwned(owner, feedID, ts)
    ensures CallsOwned(owner, feedID, CallsUpTo(tbl, ts, n))
  {
    if n > 0 {
      CallsUpToOwned(owner, feedID, tbl, ts, n - 1);
      AppliedOwned(owner, feedID, tbl, ts, n - 1);
      CallsForOwned(owner, feedID, AppliedTo(tbl, ts, n - 1), ts[n - 1]);
    }
  }

  lemma MadeOwned(owner: Owners, feedID: string, es: seq<Event>, tbl: Table, ts: seq<Tunnel>, fail: Option<nat>)
    requires RecordsOwned(owner, feedID, tbl) && NamesOwned(owner, feedID, ts) && Made(es, tbl, ts, fail)
    ensures CallsOwned(owner, feedID, Calls(es))
  {
    if fail.Some? {
      CallsUpToOwned(owner, feedID, tbl, ts, fail.value + 1);
    } else {
      var applied, n := AppliedTo(tbl, ts, |ts|), |CallsUpTo(tbl, ts, |ts|)|;
      CallsUpToOwned(owner, feedID, tbl, ts, |ts|);
      AppliedOwned(owner, feedID, tbl, ts, |ts|);
      var order :| SweepsInOrder(es[n..], applied, Dropped(applied, ts), order);
      forall i | 0 <= i < |es| ensures owner(Calls(es)[i].name) == feedID {
        if i < n {
          assert Calls(es)[i] == Calls(es[..n])[i];
        } else {
          assert es[i] == es[n..][i - n];
        }
      }
    }
  }

  /** An operation's work is its own feed's. */
  lemma WorkOwned(c: Store.Crypto, owner: Owners, st: State, op: Store.Op)
    requires StateOwned(owner, st) && OpOwned(c, owner, op) && Store.WorkOf(c, st, op).Some?
    ensures Store.FeedOf(op).Some?
    ensures var work := Store.WorkOf(c, st, op).value;
            RecordsOwned(owner, Store.FeedOf(op).value, work.recorded) && NamesOwned(owner, Store.FeedOf(op).value, work.tunnels)
  {
    OwnedAt(owner, st, Store.FeedOf(op).value);
    if op.FromCache? {
      var id := TrimSpace(op.feedID);
      var doc := c.Decrypt(op.setupURL, st.feeds[id].cached).value;
      assert TrimSpace(doc.id) == id && NamesOwned(owner, id, doc.tunnels);
    }
  }

  /** An operation of one feed calls the backend under that feed's names only. */
  lemma DidOwned(c: Store.Crypto, owner: Owners, st: State, op: Store.Op, es: seq<Event>)
    requires StateOwned(owner, st) && OpOwned(c, owner, op)
    requires Store.Did(Store.WorkOf(c, st, op), FailOf(op), es)
    ensures Store.FeedOf(op).None? ==> es == []
    ensures Store.FeedOf(op).Some? ==> CallsOwned(owner, Store.FeedOf(op).value, Calls(es))
  {
    var work := Store.WorkOf(c, st, op);
    if work.Some? {
      WorkOwned(c, owner, st, op);
      MadeOwned(owner, Store.FeedOf(op).value, es, work.value.recorded, work.value.tunnels, FailOf(op));
    }
  }

  // ----- one feed's part of the backend

  function Own(ps: seq<Performed>, feedID: string): seq<Performed> {
    if ps == [] then []
    else if Store.FeedOf(ps[|ps| - 1].op) == Some(feedID) then Own(ps[..|ps| - 1], feedID) + [ps[|ps| - 1]]
    else Own(ps[..|ps| - 1], feedID)
  }

  /** What is under a name depends only on what was there and on the events that name it. */
  lemma {:induction false} NameDepends(dev: Profiles, dev': Profiles, es: seq<Event>, name: string)
    requires Lookup(dev, name) == Lookup(dev', name)
    ensures Lookup(Play(dev, es), name) == Lookup(Play(dev', es), name)
    ensures (forall i :: 0 <= i < |es| ==> es[i].call.name != name) ==> Lookup(Play(dev, es), name) == Lookup(dev, name)
  {
    if es != [] {
      NameDepends(dev, dev', es[..|es| - 1], name);
    }
  }

  /** Non-interference at the backend: what is installed under a feed's name is what that feed's own operations
      alone would have installed, whatever the other feeds did in between. */
  lemma {:induction false} NameIsItsFeedsAlone(c: Store.Crypto, owner: Owners, st: State, dev: Profiles, ps: seq<Performed>, name: string)
    requires StateOwned(owner, st) && !Blank(st.salt) && RunOwned(c, owner, ps) && Carried(c, st, ps)
    ensures Lookup(Play(dev, HistoryOf(ps)), name) == Lookup(Play(dev, HistoryOf(Own(ps, owner(name)))), name)
  {
    if ps != [] {
      var front, p, feedID := ps[..|ps| - 1], ps[|ps| - 1], owner(name);
      NameIsItsFeedsAlone(c, owner, st, dev, front, name);
      RunStaysOwned(c, owner, st, front);
      DidOwned(c, owner, StateAfter(c, st, front), p.op, p.made);
      PlayConcat(dev, HistoryOf(front), p.made);
      if Store.FeedOf(p.op) == Some(feedID) {
        var own := Own(ps, feedID);
        assert own[..|own| - 1] == Own(front, feedID);
        PlayConcat(dev, HistoryOf(Own(front, feedID)), p.made);
        NameDepends(Play(dev, HistoryOf(front)), Play(dev, HistoryOf(Own(front, feedID))), p.made, name);
      } else {
        forall i | 0 <= i < |p.made| ensures p.made[i].call.name != name {
          assert Calls(p.made)[i] == p.made[i].call;
        }
        NameDepends(Play(dev, HistoryOf(front)), Play(dev, HistoryOf(front)), p.made, name);
      }
    }
  }

  /** After operation `k`, the feed of `name` did nothing more at the backend. */
  ghost predicate QuietSince(ps: seq<Performed>, k: nat, feedID: string) {
    forall j :: k < j < |ps| && Store.FeedOf(ps[j].op) == Some(feedID) ==> ps[j].made == []
  }

  lemma {:induction false} NameStaysSince(c: Store.Crypto, owner: Owners, st: State, dev: Profiles, ps: seq<Performed>, k: nat, name: string)
    requires StateOwned(owner, st) && !Blank(st.salt) && RunOwned(c, owner, ps) && Carried(c, st, ps)
    requires k < |ps| && QuietSince(ps, k, owner(name))
    ensures Lookup(Play(dev, HistoryOf(ps)), name) == Lookup(Play(dev, HistoryOf(ps[..k + 1])), name)
  {
    if k == |ps| - 1 {
      assert ps[..k + 1] == ps;
    } else {
      var front, p := ps[..|ps| - 1], ps[|ps| - 1];
      assert front[..k + 1] == ps[..k + 1];
      NameStaysSince(c, owner, st, dev, front, k, name);
      RunStaysOwned(c, owner, st, front);
      DidOwned(c, owner, StateAfter(c, st, front), p.op, p.made);
      PlayConcat(dev, HistoryOf(front), p.made);
      forall i | 0 <= i < |p.made| ensures p.made[i].call.name != name {
        assert Calls(p.made)[i] == p.made[i].call;
      }
      NameDepends(Play(dev, HistoryOf(front)), Play(dev, HistoryOf(front)), p.made, name);
    }
  }

  lemma {:induction false} CarriedUpTo(c: Store.Crypto, st: State, ps: seq<Performed>, k: nat)
    requires k < |ps| && Carried(c, st, ps)
    ensures Carried(c, st, ps[..k])
    ensures Store.Did(Store.WorkOf(c, StateAfter(c, st, ps[..k]), ps[k].op), FailOf(ps[k].op), ps[k].made)
  {
    if k < |ps| - 1 {
      assert ps[..|ps| - 1][..k] == ps[..k];
      CarriedUpTo(c, st, ps[..|ps| - 1], k);
    }
  }

  lemma HistoryUpTo(dev: Profiles, ps: seq<Performed>, k: nat)
    requires k < |ps|
    ensures Play(dev, HistoryOf(ps[..k + 1])) == Play(Play(dev, HistoryOf(ps[..k])), ps[k].made)
  {
    assert ps[..k + 1][..k] == ps[..k];
    PlayConcat(dev, HistoryOf(ps[..k]), ps[k].made);
  }

  /** What operation `k` was asked to do. */
  function WorkAt(c: Store.Crypto, st: State, ps: seq<Performed>, k: nat): Option<Store.Work>
    requires k < |ps|
  {
    Store.WorkOf(c, StateAfter(c, st, ps[..k]), ps[k].op)
  }

  /** Agreement over whole runs: after a feed's last reconciliation at the backend succeeded, and however the other
      feeds were reconciled since, all its document's tunnels are installed with their configuration and effective
      flag, if and only if its own names did not clash. */
  lemma FeedStaysInstalled(c: Store.Crypto, owner: Owners, st: State, dev: Profiles, ps: seq<Performed>, k: nat, feedID: string)
    requires StateOwned(owner, st) && !Blank(st.salt) && RunOwned(c, owner, ps) && Carried(c, st, ps)
    requires k < |ps| && Store.FeedOf(ps[k].op) == Some(feedID) && WorkAt(c, st, ps, k).Some? && FailOf(ps[k].op).None?
    requires RemovesDone(ps[k].made) && QuietSince(ps, k, feedID)
    requires DistinctIds(WorkAt(c, st, ps, k).value.tunnels) && DistinctNames(WorkAt(c, st, ps, k).value.tunnels)
    ensures var work := WorkAt(c, st, ps, k).value;
            Installed(Play(dev, HistoryOf(ps)), work) <==> NamesDoNotClash(work.recorded, work.tunnels)
  {
    AgreedAt(c, st, dev, ps, k);
    NamesStaySince(c, owner, st, dev, ps, k, feedID);
    SameNamesSamePresence(Play(dev, HistoryOf(ps[..k + 1])), Play(dev, HistoryOf(ps)), WorkAt(c, st, ps, k).value);
  }

  /** All the document's tunnels are installed as the feed wants them. */
  ghost predicate Installed(dev: Profiles, work: Store.Work) {
    AllPresent(dev, work.recorded, work.tunnels)
  }

  lemma AgreedAt(c: Store.Crypto, st: State, dev: Profiles, ps: seq<Performed>, k: nat)
    requires Carried(c, st, ps) && k < |ps| && WorkAt(c, st, ps, k).Some? && FailOf(ps[k].op).None? && RemovesDone(ps[k].made)
    requires DistinctIds(WorkAt(c, st, ps, k).value.tunnels) && DistinctNames(WorkAt(c, st, ps, k).value.tunnels)
    ensures var work := WorkAt(c, st, ps, k).value;
            Installed(Play(dev, HistoryOf(ps[..k + 1])), work) <==> NamesDoNotClash(work.recorded, work.tunnels)
  {
    var work := WorkAt(c, st, ps, k).value;
    CarriedUpTo(c, st, ps, k);
    HistoryUpTo(dev, ps, k);
    AgreesExactlyWithoutClashes(Play(dev, HistoryOf(ps[..k])), ps[k].made, work.recorded, work.tunnels);
  }

  lemma NamesStaySince(c: Store.Crypto, owner: Owners, st: State, dev: Profiles, ps: seq<Performed>, k: nat, feedID: string)
    requires StateOwned(owner, st) && !Blank(st.salt) && RunOwned(c, owner, ps) && Carried(c, st, ps)
    requires k < |ps| && Store.FeedOf(ps[k].op) == Some(feedID) && WorkAt(c, st, ps, k).Some?
    requires QuietSince(ps, k, feedID)
    ensures SameNames(Play(dev, HistoryOf(ps[..k + 1])), Play(dev, HistoryOf(ps)), WorkAt(c, st, ps, k).value.tunnels)
  {
    var ts := WorkAt(c, st, ps, k).value.tunnels;
    RunStaysOwned(c, owner, st, ps[..k]);
    WorkOwned(c, owner, StateAfter(c, st, ps[..k]), ps[k].op);
    forall i | 0 <= i < |ts|
      ensures Lookup(Play(dev, HistoryOf(ps[..k + 1])), ts[i].name) == Lookup(Play(dev, HistoryOf(ps)), ts[i].name)
    {
      NameStaysSince(c, owner, st, dev, ps, k, ts[i].name);
    }
  }

  /** The same profiles under the document's names. */
  ghost predicate SameNames(dev: Profiles, dev': Profiles, ts: seq<Tunnel>) {
    forall i :: 0 <= i < |ts| ==> Lookup(dev, ts[i].name) == Lookup(dev', ts[i].name)
  }

  lemma SameNamesSamePresence(dev: Profiles, dev': Profiles, work: Store.Work)
    requires SameNames(dev, dev', work.tunnels)
    ensures Installed(dev, work) <==> Installed(dev', work)
  {
    assert forall i :: 0 <= i < |work.tunnels| ==>
      (Present(dev, work.recorded, work.tunnels, i) <==> Present(dev', work.recorded, work.tunnels, i));
  }
}
