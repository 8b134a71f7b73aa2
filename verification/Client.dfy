/** The reconciler as the client runs it: over a loaded state whose tunnel maps are shared references. */
module Client {
  import opened Text
  import opened Model
  import opened Device
  import opened Reconcile
  import Store
  import EndpointOrder

  /** What the disk does in one load and save of the state file. */
  datatype Disk = Disk(loads: bool, saves: bool)

  /** An allocated tunnel map. Copies of a feed's record share it. */
  class TunnelTable {
    var entries: Table

    constructor (entries: Table)
      ensures this.entries == entries
    {
      this.entries := entries;
    }
  }

  /** A feed's record in a loaded state. A map that was never allocated is null. */
  datatype FeedRecord = FeedRecord(
    lastReconciledRevision: string,
    ttl: Option<int>,
    cached: string,
    endpointOrder: seq<string>,
    tunnels: TunnelTable?)

  const NO_RECORD := FeedRecord("", None, "", [], null)

  function ValueOf(fr: FeedRecord): FeedState
    reads fr.tunnels
  {
    FeedState(fr.lastReconciledRevision, fr.ttl, fr.cached, fr.endpointOrder,
              if fr.tunnels == null then None else Some(fr.tunnels.entries))
  }

  /** The state file, loaded. `value` is what it says. */
  class LoadedState {
    var salt: string
    var setupURLMap: map<string, string>
    var feeds: map<string, FeedRecord>
    ghost var value: State

    ghost function Tables(): set<TunnelTable>
      reads this
    {
      set f | f in feeds && feeds[f].tunnels != null :: feeds[f].tunnels
    }

    /** No two feeds share a tunnel map. */
    ghost predicate Separate()
      reads this
    {
      forall f, g :: f in feeds && g in feeds && f != g && feeds[f].tunnels != null ==> feeds[f].tunnels != feeds[g].tunnels
    }

    ghost predicate Valid()
      reads this, set f | f in feeds :: feeds[f].tunnels
    {
      && Separate()
      && value.salt == salt && value.setupURLMap == setupURLMap
      && (forall f :: f in feeds <==> f in value.feeds)
      && forall f <- feeds :: ValueOf(feeds[f]) == value.feeds[f]
    }

    /** Valid but for what `value` says of one feed. */
    ghost predicate ValidBut(feedID: string)
      reads this, set f | f in feeds :: feeds[f].tunnels
    {
      && Separate()
      && value.salt == salt && value.setupURLMap == setupURLMap
      && (forall f :: f in feeds <==> f in value.feeds)
      && forall f <- feeds :: f != feedID ==> ValueOf(feeds[f]) == value.feeds[f]
    }

    constructor (file: State)
      ensures Valid() && fresh(Tables())
      ensures value == file
    {
      salt, setupURLMap, feeds, value := file.salt, file.setupURLMap, map[], file;
      new;
      var left := file.feeds.Keys;
      ghost var made: set<TunnelTable> := {};
      while left != {}
        invariant left <= file.feeds.Keys
        invariant salt == file.salt && setupURLMap == file.setupURLMap && value == file
        invariant feeds.Keys == file.feeds.Keys - left
        invariant Separate() && fresh(made)
        invariant forall f <- feeds :: feeds[f].tunnels != null ==> feeds[f].tunnels in made
        invariant forall f <- feeds :: ValueOf(feeds[f]) == file.feeds[f]
      {
        var f :| f in left;
        var fs := file.feeds[f];
        var table: TunnelTable? := null;
        if fs.tunnels.Some? {
          table := new TunnelTable(fs.tunnels.value);
          made := made + {table};
        }
        feeds := feeds[f := FeedRecord(fs.lastReconciledRevision, fs.ttl, fs.cached, fs.endpointOrder, table)];
        left := left - {f};
      }
      assert Tables() <= made;
    }

    /** What is written to the state file. */
    method Snapshot() returns (file: State)
      requires Valid()
      ensures file == value
    {
      file := State(salt, setupURLMap, map f | f in feeds :: ValueOf(feeds[f]));
      assert file.feeds == value.feeds;
    }

    /** The record, or the zero value for a missing feed. */
    function At(feedID: string): (fr: FeedRecord)
      reads this
      ensures fr.tunnels != null ==> fr.tunnels in Tables()
    {
      if feedID in feeds then feeds[feedID] else NO_RECORD
    }

    method Put(feedID: string, fr: FeedRecord)
      requires ValidBut(feedID)
      requires fr.tunnels != null ==> forall g <- feeds :: g != feedID ==> feeds[g].tunnels != fr.tunnels
      modifies this`feeds, this`value
      ensures feeds == old(feeds)[feedID := fr]
      ensures Valid() && Tables() <= old(Tables()) + {fr.tunnels}
      ensures value == Store.PutEntry(old(value), feedID, Some(ValueOf(fr)))
    {
      feeds := feeds[feedID := fr];
      value := Store.PutEntry(value, feedID, Some(ValueOf(fr)));
    }

    /** The salted key of a URL, drawing a salt first if there is none. */
    method SubscriptionURLKey(crypto: Store.Crypto, rawURL: string, newSalt: string) returns (key: Option<string>)
      requires Valid()
      modifies this`salt, this`value
      ensures Valid() && value == Store.WithSalt(old(value), newSalt)
      ensures key == crypto.key(salt, rawURL)
    {
      if TrimSpace(salt) == "" {
        salt := newSalt;
        value := value.(salt := newSalt);
      }
      key := crypto.key(salt, rawURL);
    }

    method MapSetupURL(key: string, feedID: string)
      requires Valid()
      modifies this`setupURLMap, this`value
      ensures Valid() && value == old(value).(setupURLMap := old(value).setupURLMap[key := feedID])
    {
      setupURLMap := setupURLMap[key := feedID];
      value := value.(setupURLMap := setupURLMap);
    }

    method OrderEndpoints(crypto: Store.Crypto, feedID: string, endpoints: seq<string>) returns (out: seq<string>)
      requires Valid()
      ensures out == Store.OrderEndpoints(crypto, value, feedID, endpoints)
    {
      var id := TrimSpace(feedID);
      if id == "" || id !in feeds { return endpoints; }
      out := EndpointOrder.OrderEndpointsByHashes(endpoints, feeds[id].endpointOrder, Store.HashWith(crypto, salt));
    }

    /** Moves the promoted endpoint to the front of the feed's preferences. */
    method ReconcileEndpointOrder(crypto: Store.Crypto, feedID: string, endpoints: seq<string>, promotedEndpoint: string)
      requires Valid()
      modifies this`feeds, this`value
      ensures Valid() && Tables() <= old(Tables())
      ensures var fs := FeedAt(old(value), TrimSpace(feedID));
              value == if Blank(feedID) then old(value) else
                Store.PutEntry(old(value), TrimSpace(feedID), Some(fs.(endpointOrder :=
                  EndpointOrder.Reconciled(fs.endpointOrder, endpoints, promotedEndpoint, Store.HashWith(crypto, value.salt)))))
    {
      var id := TrimSpace(feedID);
      if id == "" { return; }
      var fs := At(id);
      var order := EndpointOrder.ReconcileEndpointOrderHashes(fs.endpointOrder, endpoints, promotedEndpoint, Store.HashWith(crypto, salt));
      Put(id, fs.(endpointOrder := order));
    }
  }

  // ----- one tunnel

  /** Calls the backend. */
  method Call(b: Backend, call: Call) returns (ok: bool, ghost e: Event)
    modifies b
    ensures e.call == call && ok == e.outcome.Done?
    ensures Followed(old(b.history), old(b.profiles), b.history, b.profiles, [e])
  {
    ok := b.Run(call);
    e := b.history[|old(b.history)|];
    assert b.history[|old(b.history)|..] == [e];
  }

  /** From one history and its profiles to another, by the events in `made`. */
  ghost predicate Followed(history: seq<Event>, dev: Profiles, history': seq<Event>, dev': Profiles, made: seq<Event>) {
    history' == history + made && dev' == Play(dev, made)
  }

  lemma FollowedBoth(h: seq<Event>, dev: Profiles, h': seq<Event>, dev': Profiles, h'': seq<Event>, dev'': Profiles, made: seq<Event>, more: seq<Event>)
    requires Followed(h, dev, h', dev', made) && Followed(h', dev', h'', dev'', more)
    ensures Followed(h, dev, h'', dev'', made + more)
  {
    PlayConcat(dev, made, more);
  }

  /** Removes the profile of a tunnel that is about to change its name, and forgets its record. */
  method Rename(b: Backend, prev: TunnelTable, t: Tunnel) returns (ghost made: seq<Event>)
    modifies b, prev
    ensures prev.entries == Abandoned(old(prev.entries), t)
    ensures Followed(old(b.history), old(b.profiles), b.history, b.profiles, made)
    ensures Calls(made) == if Renamed(old(prev.entries), t) then [Remove(old(prev.entries)[t.id].name)] else []
    ensures AppliesDone(made)
  {
    made := [];
    assert b.history + [] == b.history;
    if t.id in prev.entries && !Blank(prev.entries[t.id].name) && TrimSpace(prev.entries[t.id].name) != TrimSpace(t.name) {
      var _, e := Call(b, Remove(prev.entries[t.id].name));
      made := [e];
      prev.entries := prev.entries - {t.id};
    }
  }

  /** The history of one round, which ended well or not. */
  ghost predicate Round(tbl: Table, t: Tunnel, es: seq<Event>, ok: bool) {
    && es != []
    && Calls(es) == CallsFor(tbl, t)
    && AppliesDone(es[..|es| - 1])
    && ok == es[|es| - 1].outcome.Done?
  }

  lemma RoundMade(tbl: Table, t: Tunnel, removed: seq<Event>, e: Event)
    requires Calls(removed) == if Renamed(tbl, t) then [Remove(tbl[t.id].name)] else []
    requires AppliesDone(removed) && e.call == Apply(t.name, Wanted(tbl, t))
    ensures Round(tbl, t, removed + [e], e.outcome.Done?)
  {
    assert (removed + [e])[..|removed + [e]| - 1] == removed;
  }

  lemma AbandonedThenRecorded(tbl: Table, t: Tunnel)
    ensures Abandoned(tbl, t)[t.id := TunnelState(t.name, Effective(tbl, t))] == Recorded(tbl, t)
  {
  }

  /** The calls of one round of the loop over the document's tunnels. */
  method Recreate(b: Backend, prev: TunnelTable, t: Tunnel, enabled: bool) returns (ok: bool, ghost made: seq<Event>)
    requires enabled == Effective(prev.entries, t)
    modifies b, prev
    ensures prev.entries == Abandoned(old(prev.entries), t)
    ensures Followed(old(b.history), old(b.profiles), b.history, b.profiles, made)
    ensures Round(old(prev.entries), t, made, ok)
  {
    var removed := Rename(b, prev, t);
    ghost var h, dev := b.history, b.profiles;
    var done, e := Call(b, Apply(t.name, Entry(t.config, enabled)));
    RoundMade(old(prev.entries), t, removed, e);
    FollowedBoth(old(b.history), old(b.profiles), h, dev, b.history, b.profiles, removed, [e]);
    ok, made := done, removed + [e];
  }

  /** One round of the loop over the document's tunnels. */
  method ApplyTunnel(b: Backend, prev: TunnelTable, t: Tunnel) returns (ok: bool, ghost made: seq<Event>)
    modifies b, prev
    ensures prev.entries == if ok then Recorded(old(prev.entries), t) else Abandoned(old(prev.entries), t)
    ensures Followed(old(b.history), old(b.profiles), b.history, b.profiles, made)
    ensures Round(old(prev.entries), t, made, ok)
  {
    var enabled := t.enabled;
    if t.id in prev.entries && !t.forced {
      enabled := prev.entries[t.id].enabled;
    }
    ok, made := Recreate(b, prev, t, enabled);
    if ok {
      AbandonedThenRecorded(old(prev.entries), t);
      prev.entries := prev.entries[t.id := TunnelState(t.name, enabled)];
    }
  }

  /** Removes what the document no longer lists, in whatever order the map is walked. */
  method SweepTunnels(b: Backend, prev: TunnelTable, current: set<string>) returns (ghost made: seq<Event>)
    modifies b, prev
    ensures prev.entries == old(prev.entries) - (old(prev.entries).Keys - current)
    ensures Followed(old(b.history), old(b.profiles), b.history, b.profiles, made)
    ensures Sweeps(made, old(prev.entries), old(prev.entries).Keys - current)
  {
    ghost var tbl := prev.entries;
    ghost var order: seq<string> := [];
    made := [];
    assert b.history + [] == b.history;
    var left := prev.entries.Keys - current;
    while left != {}
      invariant left <= tbl.Keys - current
      invariant prev.entries == tbl - (tbl.Keys - current - left)
      invariant Followed(old(b.history), old(b.profiles), b.history, b.profiles, made)
      invariant SweepsInOrder(made, tbl, tbl.Keys - current - left, order)
    {
      var id :| id in left;
      ghost var h, dev := b.history, b.profiles;
      var _, e := Call(b, Remove(prev.entries[id].name));
      FollowedBoth(old(b.history), old(b.profiles), h, dev, b.history, b.profiles, made, [e]);
      made := made + [e];
      order := order + [id];
      prev.entries := prev.entries - {id};
      left := left - {id};
    }
    assert tbl.Keys - current - left == tbl.Keys - current;
    assert SweepsInOrder(made, tbl, tbl.Keys - current, order);
  }

  /** Tunnel `n` was applied, or not, after the tunnels before it were. */
  lemma OneMore(es: seq<Event>, more: seq<Event>, tbl: Table, ts: seq<Tunnel>, n: nat, ok: bool)
    requires n < |ts|
    requires Calls(es) == CallsUpTo(tbl, ts, n) && AppliesDone(es)
    requires Round(AppliedTo(tbl, ts, n), ts[n], more, ok)
    ensures if ok then Calls(es + more) == CallsUpTo(tbl, ts, n + 1) && AppliesDone(es + more)
            else StopsAt(es + more, tbl, ts, n)
  {
    assert Calls(es + more) == Calls(es) + Calls(more);
    Split(es, more);
  }

  lemma Split(es: seq<Event>, more: seq<Event>)
    requires more != []
    ensures more == more[..|more| - 1] + [more[|more| - 1]]
    ensures (es + more)[..|es + more| - 1] == es + more[..|more| - 1]
    ensures (es + more)[|es + more| - 1] == more[|more| - 1]
  {
  }

  lemma AllApplied(es: seq<Event>, swept: seq<Event>, tbl: Table, ts: seq<Tunnel>)
    requires Calls(es) == CallsUpTo(tbl, ts, |ts|) && AppliesDone(es)
    requires Sweeps(swept, AppliedTo(tbl, ts, |ts|), Dropped(AppliedTo(tbl, ts, |ts|), ts))
    ensures Succeeds(es + swept, tbl, ts)
  {
    var order :| SweepsInOrder(swept, AppliedTo(tbl, ts, |ts|), Dropped(AppliedTo(tbl, ts, |ts|), ts), order);
    assert (es + swept)[..|es|] == es && (es + swept)[|es|..] == swept;
    forall e | e in swept ensures e.call.Remove? {
      var i :| 0 <= i < |swept| && swept[i] == e;
    }
  }

  /** Applies the document's tunnels in order, up to the first that cannot be applied. */
  method ApplyTunnels(b: Backend, prev: TunnelTable, ts: seq<Tunnel>)
    returns (currentTunnelIDs: set<string>, fail: Option<nat>, ghost made: seq<Event>)
    modifies b, prev
    ensures Followed(old(b.history), old(b.profiles), b.history, b.profiles, made)
    ensures fail.None? ==>
              && currentTunnelIDs == Ids(ts)
              && prev.entries == AppliedTo(old(prev.entries), ts, |ts|)
              && Calls(made) == CallsUpTo(old(prev.entries), ts, |ts|) && AppliesDone(made)
    ensures fail.Some? ==>
              && StopsAt(made, old(prev.entries), ts, fail.value)
              && prev.entries == Interrupted(old(prev.entries), ts, fail.value)
  {
    ghost var tbl := prev.entries;
    currentTunnelIDs, fail, made := {}, None, [];
    assert b.history + [] == b.history;
    for i := 0 to |ts|
      invariant currentTunnelIDs == Ids(ts[..i])
      invariant prev.entries == AppliedTo(tbl, ts, i)
      invariant Followed(old(b.history), old(b.profiles), b.history, b.profiles, made)
      invariant Calls(made) == CallsUpTo(tbl, ts, i) && AppliesDone(made)
    {
      IdsSnoc(ts, i);
      currentTunnelIDs := currentTunnelIDs + {ts[i].id};
      ghost var h, dev := b.history, b.profiles;
      var ok, more := ApplyTunnel(b, prev, ts[i]);
      OneMore(made, more, tbl, ts, i, ok);
      FollowedBoth(old(b.history), old(b.profiles), h, dev, b.history, b.profiles, made, more);
      made := made + more;
      if !ok { return currentTunnelIDs, Some(i), made; }
    }
    assert ts[..|ts|] == ts;
  }

  lemma IdsSnoc(ts: seq<Tunnel>, n: nat)
    requires n < |ts|
    ensures Ids(ts[..n + 1]) == Ids(ts[..n]) + {ts[n].id}
  {
    KeysAfter(map[], ts, n + 1);
    KeysAfter(map[], ts, n);
  }

  /** Applies what the document lists and then removes what it does not. */
  method ReconcileTable(b: Backend, prev: TunnelTable, ts: seq<Tunnel>) returns (fail: Option<nat>, ghost made: seq<Event>)
    modifies b, prev
    ensures Followed(old(b.history), old(b.profiles), b.history, b.profiles, made)
    ensures Made(made, old(prev.entries), ts, fail)
    ensures prev.entries == if fail.Some? then Interrupted(old(prev.entries), ts, fail.value) else Reconciled(old(prev.entries), ts)
  {
    ghost var tbl := prev.entries;
    var currentTunnelIDs;
    currentTunnelIDs, fail, made := ApplyTunnels(b, prev, ts);
    if fail.None? {
      ghost var h, dev := b.history, b.profiles;
      var swept := SweepTunnels(b, prev, currentTunnelIDs);
      AllApplied(made, swept, tbl, ts);
      FollowedBoth(old(b.history), old(b.profiles), h, dev, b.history, b.profiles, made, swept);
      made := made + swept;
    }
  }

  /** A copy of the feed's record with a table to work on: its own, or a new one. */
  method Copy(st: LoadedState, feedID: string) returns (prev: FeedRecord)
    requires st.Valid()
    ensures prev.tunnels != null && (prev.tunnels in st.Tables() || fresh(prev.tunnels))
    ensures forall g <- st.feeds :: g != feedID ==> st.feeds[g].tunnels != prev.tunnels
    ensures feedID in st.feeds && FeedAt(st.value, feedID).tunnels.Some? ==> st.feeds[feedID].tunnels == prev.tunnels
    ensures ValueOf(prev) == var fs := FeedAt(st.value, feedID); fs.(tunnels := Some(Store.TableOf(fs)))
  {
    prev := st.At(feedID);
    if prev.tunnels == null {
      var table := new TunnelTable(map[]);
      prev := prev.(tunnels := table);
    }
  }

  /** Reconciles the copy of a feed's record, and puts it back unless a tunnel cannot be applied. */
  method ReconcileRecord(b: Backend, st: LoadedState, feedID: string, prev: FeedRecord, ts: seq<Tunnel>)
    returns (fail: Option<nat>, ghost made: seq<Event>)
    requires st.Valid() && prev.tunnels != null
    requires forall g <- st.feeds :: g != feedID ==> st.feeds[g].tunnels != prev.tunnels
    modifies b, st`feeds, st`value, prev.tunnels
    ensures st.Valid() && st.Tables() <= old(st.Tables()) + {prev.tunnels}
    ensures Followed(old(b.history), old(b.profiles), b.history, b.profiles, made)
    ensures Made(made, old(prev.tunnels.entries), ts, fail)
    ensures prev.tunnels.entries ==
            if fail.Some? then Interrupted(old(prev.tunnels.entries), ts, fail.value) else Reconciled(old(prev.tunnels.entries), ts)
    ensures st.feeds == if fail.Some? then old(st.feeds) else old(st.feeds)[feedID := prev]
    ensures st.value ==
            if fail.None? then Store.PutEntry(old(st.value), feedID, Some(ValueOf(prev)))
            else if Shared(st, feedID, prev) then Store.PutEntry(old(st.value), feedID, Some(ValueOf(st.feeds[feedID])))
            else old(st.value)
  {
    fail, made := ReconcileTable(b, prev.tunnels, ts);
    assert st.ValidBut(feedID);
    WriteBack(st, feedID, prev, fail.None?);
  }

  /** The record goes back only if all went well; the table it shares has changed in any case. */
  method WriteBack(st: LoadedState, feedID: string, prev: FeedRecord, done: bool)
    requires st.ValidBut(feedID) && prev.tunnels != null
    requires forall g <- st.feeds :: g != feedID ==> st.feeds[g].tunnels != prev.tunnels
    requires !done && feedID in st.feeds && !Shared(st, feedID, prev) ==> ValueOf(st.feeds[feedID]) == st.value.feeds[feedID]
    modifies st`feeds, st`value
    ensures st.Valid() && st.Tables() <= old(st.Tables()) + {prev.tunnels}
    ensures st.feeds == if done then old(st.feeds)[feedID := prev] else old(st.feeds)
    ensures st.value ==
            if done then Store.PutEntry(old(st.value), feedID, Some(ValueOf(prev)))
            else if Shared(st, feedID, prev) then Store.PutEntry(old(st.value), feedID, Some(ValueOf(st.feeds[feedID])))
            else old(st.value)
  {
    if done {
      st.Put(feedID, prev);
    } else if Shared(st, feedID, prev) {
      st.value := Store.PutEntry(st.value, feedID, Some(ValueOf(st.feeds[feedID])));
    }
  }

  ghost predicate Shared(st: LoadedState, feedID: string, prev: FeedRecord)
    reads st
  {
    feedID in st.feeds && st.feeds[feedID].tunnels == prev.tunnels
  }

  /** Reconciles the recorded tunnels with the document, calling the backend as needed. The changes to a recorded
      table show even if a tunnel cannot be applied; the table of a feed that had none is then lost. */
  method ApplyFeed(b: Backend, st: LoadedState, doc: FeedDocument)
    returns (err: Option<Store.Error>, ghost fail: Option<nat>, ghost made: seq<Event>)
    requires st.Valid()
    modifies b, st`feeds, st`value, st.Tables()
    ensures st.Valid() && fresh(st.Tables() - old(st.Tables()))
    ensures st.value == Store.ApplyFeed(old(st.value), doc, fail).0
    ensures err == Store.ApplyFeed(old(st.value), doc, fail).1
    ensures Followed(old(b.history), old(b.profiles), b.history, b.profiles, made)
    ensures Store.Did(Store.FeedWork(old(st.value), doc), fail, made)
  {
    var feedID := TrimSpace(doc.id);
    if feedID == "" {
      assert b.history + [] == b.history;
      return Some(Store.MissingFeedId), None, [];
    }
    var prev := Copy(st, feedID);
    Store.PutSame(st.value, feedID);
    var failed, did := ReconcileRecord(b, st, feedID, prev, doc.tunnels);
    fail, made := failed, did;
    err := if failed.Some? then Some(Store.BackendFailed(failed.value)) else None;
  }

  /** Reconciles, and remembers the revision if that succeeded. */
  method ReconcileRevision(b: Backend, st: LoadedState, feedID: string, doc: FeedDocument, revision: string)
    returns (err: Option<Store.Error>, ghost fail: Option<nat>, ghost made: seq<Event>)
    requires st.Valid() && feedID != "" && feedID == TrimSpace(doc.id)
    modifies st`feeds, st`value, st.Tables(), b
    ensures st.Valid() && fresh(st.Tables() - old(st.Tables()))
    ensures var (entry, e) := Store.ReconcileEntry(Store.FeedEntry(old(st.value), feedID), doc.tunnels, fail);
            && err == e
            && st.value == Store.PutEntry(old(st.value), feedID,
                 if e.Some? then entry else Some(entry.value.(lastReconciledRevision := TrimSpace(revision))))
    ensures Followed(old(b.history), old(b.profiles), b.history, b.profiles, made)
    ensures Store.Did(Store.FeedWork(old(st.value), doc), fail, made)
  {
    err, fail, made := ApplyFeed(b, st, doc);
    if err.None? {
      ghost var entry := Store.FeedEntry(st.value, feedID);
      st.Put(feedID, st.feeds[feedID].(lastReconciledRevision := TrimSpace(revision)));
      Store.PutTwice(old(st.value), feedID, entry, Store.FeedEntry(st.value, feedID));
    }
  }
}
