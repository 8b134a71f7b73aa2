/** The daemon's own methods: each loads the state file, changes what it loaded, and saves it, even after an error. */
module DaemonMethods {
  import opened Text
  import opened Model
  import opened Device
  import opened Client
  import opened Installed
  import Store

  datatype Problem = Throttled | Unloadable | Unsaved | Refused(error: Store.Error)

  function ProblemOf(disk: Disk, err: Option<Store.Error>): (p: Option<Problem>)
    ensures p.None? <==> disk.loads && disk.saves && err.None?
    ensures disk.loads && disk.saves && err.Some? ==> p == Some(Refused(err.value))
  {
    if !disk.loads then Some(Unloadable)
    else if !disk.saves then Some(Unsaved)
    else if err.Some? then Some(Refused(err.value))
    else None
  }

  /** The state file afterwards. */
  function Saved(disk: Disk, file: State, changed: State): (after: State)
    ensures disk.loads && disk.saves ==> after == changed
    ensures !disk.loads || !disk.saves ==> after == file
  {
    if disk.loads && disk.saves then changed else file
  }

  /** `performed` is history: the operations since the start, each with what it did at the backend. */
  class Daemon {
    const crypto: Store.Crypto
    const b: Backend
    var file: State
    var claimed: map<string, string>
    ghost const startFile: State
    ghost const startProfiles: Profiles
    ghost var performed: seq<Performed>

    /** The state file and the backend are what the operations so far made them. */
    ghost predicate Valid()
      reads this, b
    {
      && Carried(crypto, startFile, performed)
      && file == StateAfter(crypto, startFile, performed)
      && b.profiles == Play(startProfiles, HistoryOf(performed))
    }

    constructor (crypto: Store.Crypto, b: Backend, file: State)
      ensures Valid() && performed == []
      ensures this.crypto == crypto && this.b == b && this.file == file && claimed == map[]
    {
      this.crypto, this.b, this.file, claimed := crypto, b, file, map[];
      startFile, startProfiles, performed := file, b.profiles, [];
    }

    /** Records an operation that has just been carried out on a valid daemon. */
    ghost method Log(p: Performed)
      requires Carried(crypto, startFile, performed)
      requires Store.Did(Store.WorkOf(crypto, StateAfter(crypto, startFile, performed), p.op), FailOf(p.op), p.made)
      requires file == var before := StateAfter(crypto, startFile, performed); if p.saved then Store.Exec(crypto, before, p.op) else before
      requires b.profiles == Play(Play(startProfiles, HistoryOf(performed)), p.made)
      modifies this`performed
      ensures Valid() && performed == old(performed) + [p]
    {
      OneMorePerformed(crypto, startFile, startProfiles, performed, p);
      performed := performed + [p];
    }

    method ClaimFeedID(feedID: string, setupURL: string) returns (granted: bool)
      modifies this`claimed
      ensures granted == (feedID !in old(claimed))
      ensures claimed == if granted then old(claimed)[feedID := setupURL] else old(claimed)
    {
      if feedID in claimed { return false; }
      claimed := claimed[feedID := setupURL];
      return true;
    }

    /** Records what came with the update. */
    method NoteUpdate(st: LoadedState, feedID: string, u: Store.Update)
      requires st.Valid() && feedID != "" && Trimmed(feedID)
      modifies st`feeds, st`value
      ensures st.Valid() && st.Tables() <= old(st.Tables()) && feedID in st.feeds
      ensures st.value == Store.PutEntry(old(st.value), feedID,
                Some(Store.NoteEntry(crypto, old(st.value).salt, Store.FeedEntry(old(st.value), feedID), u)))
    {
      ghost var before := st.value;
      st.ReconcileEndpointOrder(crypto, feedID, u.doc.endpoints, u.requestURL);
      ghost var entry := Store.FeedEntry(st.value, feedID);
      var fs := st.feeds[feedID].(ttl := Some(u.ttl), cached := TrimSpace(u.cached));
      st.Put(feedID, fs);
      Store.PutTwice(before, feedID, entry, Store.FeedEntry(st.value, feedID));
    }

    /** Records the update, and reconciles if its revision is not the one last reconciled. */
    method UpdateFeed(st: LoadedState, feedID: string, u: Store.Update)
      returns (err: Option<Store.Error>, ghost fail: Option<nat>, ghost made: seq<Event>)
      requires st.Valid() && feedID != "" && feedID == TrimSpace(u.doc.id)
      modifies st`feeds, st`value, st.Tables(), b
      ensures st.Valid()
      ensures var (entry, e) := Store.UpdateEntry(crypto, old(st.value).salt, Store.FeedEntry(old(st.value), feedID), u, fail);
              err == e && st.value == Store.PutEntry(old(st.value), feedID, entry)
      ensures Followed(old(b.history), old(b.profiles), b.history, b.profiles, made)
      ensures Store.Did(if Store.Gated(FeedAt(old(st.value), feedID), u.revision) then None else Store.FeedWork(old(st.value), u.doc), fail, made)
    {
      fail, made := None, [];
      assert b.history + [] == b.history;
      NoteUpdate(st, feedID, u);
      ghost var noted := st.value;
      if Store.Gated(ValueOf(st.feeds[feedID]), u.revision) { return None, fail, made; }
      err, fail, made := ReconcileRevision(b, st, feedID, u.doc, u.revision);
      Store.PutTwice(old(st.value), feedID, Store.FeedEntry(noted, feedID), Store.FeedEntry(st.value, feedID));
    }

    /** The change an update makes to a loaded state. */
    method Update(st: LoadedState, u: Store.Update, newSalt: string)
      returns (err: Option<Store.Error>, ghost fail: Option<nat>, ghost made: seq<Event>)
      requires st.Valid() && !Blank(u.doc.id)
      modifies st, st.Tables(), b
      ensures st.Valid()
      ensures st.value == Store.ApplyRemoteUpdate(crypto, old(st.value), u, fail, newSalt).0
      ensures err == Store.ApplyRemoteUpdate(crypto, old(st.value), u, fail, newSalt).1
      ensures Followed(old(b.history), old(b.profiles), b.history, b.profiles, made)
      ensures Store.Did(Store.UpdateWork(crypto, old(st.value), u, newSalt), fail, made)
    {
      var key := st.SubscriptionURLKey(crypto, u.setupURL, newSalt);
      if key.None? {
        assert b.history + [] == b.history;
        return Some(Store.NoKey), None, [];
      }
      st.MapSetupURL(key.value, TrimSpace(u.doc.id));
      err, fail, made := UpdateFeed(st, TrimSpace(u.doc.id), u);
    }

    method ApplyRemoteUpdate(disk: Disk, u: Store.Update, newSalt: string)
      returns (err: Option<Problem>, ghost fail: Option<nat>, ghost made: seq<Event>)
      requires Valid()
      modifies this`file, this`performed, b
      ensures Valid()
      ensures performed == if Blank(u.doc.id) || !disk.loads then old(performed)
                           else old(performed) + [Performed(Store.Remote(u, fail, newSalt), disk.saves, made)]
      ensures var (changed, e) := Store.ApplyRemoteUpdate(crypto, old(file), u, fail, newSalt);
              && file == Saved(disk, old(file), changed)
              && err == if Blank(u.doc.id) then Some(Refused(Store.MissingFeedId)) else ProblemOf(disk, e)
      ensures Followed(old(b.history), old(b.profiles), b.history, b.profiles, made)
    {
      fail, made := None, [];
      assert b.history + [] == b.history;
      if TrimSpace(u.doc.id) == "" { return Some(Refused(Store.MissingFeedId)), fail, made; }
      if !disk.loads { return Some(Unloadable), fail, made; }
      var st := new LoadedState(file);
      var e;
      e, fail, made := Update(st, u, newSalt);
      var changed := st.Snapshot();
      if disk.saves { file := changed; }
      err := ProblemOf(disk, e);
      Log(Performed(Store.Remote(u, fail, newSalt), disk.saves, made));
    }

    /** The change an offline reconciliation makes to a loaded state. */
    method FromCache(st: LoadedState, setupURL: string, feedID: string)
      returns (err: Option<Store.Error>, ghost fail: Option<nat>, ghost made: seq<Event>)
      requires st.Valid() && feedID != "" && Trimmed(feedID)
      modifies st, st.Tables(), b
      ensures st.Valid()
      ensures st.value == Store.ReconcileFromCache(crypto, old(st.value), setupURL, feedID, fail).0
      ensures err == Store.ReconcileFromCache(crypto, old(st.value), setupURL, feedID, fail).1
      ensures Followed(old(b.history), old(b.profiles), b.history, b.profiles, made)
      ensures Store.Did(Store.CacheWork(crypto, old(st.value), setupURL, feedID), fail, made)
    {
      fail, made := None, [];
      assert b.history + [] == b.history;
      if feedID !in st.feeds || TrimSpace(st.feeds[feedID].cached) == "" {
        return Some(Store.NotCached), fail, made;
      }
      var doc := crypto.Decrypt(setupURL, st.feeds[feedID].cached);
      if doc.None? { return Some(Store.NotDecrypted), fail, made; }
      err, fail, made := ApplyFeed(b, st, doc.value);
    }

    /** Not before `notBefore`, if that is set. */
    method MaybeReconcileFromCache(disk: Disk, setupURL: string, feedID: string, notBefore: Option<int>, now: int)
      returns (err: Option<Problem>, ghost fail: Option<nat>, ghost made: seq<Event>)
      requires Valid()
      modifies this`file, this`performed, b
      ensures Valid()
      ensures notBefore.Some? && now < notBefore.value ==> err == Some(Throttled) && file == old(file) && performed == old(performed) && made == []
      ensures notBefore.None? || now >= notBefore.value ==>
                performed == if Blank(feedID) || !disk.loads then old(performed)
                             else old(performed) + [Performed(Store.FromCache(setupURL, TrimSpace(feedID), fail), disk.saves, made)]
      ensures notBefore.None? || now >= notBefore.value ==>
                var (changed, e) := Store.ReconcileFromCache(crypto, old(file), setupURL, feedID, fail);
                && file == Saved(disk, old(file), changed)
                && err == if Blank(feedID) then Some(Refused(Store.NotCached)) else ProblemOf(disk, e)
      ensures Followed(old(b.history), old(b.profiles), b.history, b.profiles, made)
    {
      if notBefore.Some? && now < notBefore.value {
        assert b.history + [] == b.history;
        return Some(Throttled), None, [];
      }
      err, fail, made := ReconcileOffline(disk, setupURL, feedID);
    }

    method ReconcileOffline(disk: Disk, setupURL: string, feedID: string)
      returns (err: Option<Problem>, ghost fail: Option<nat>, ghost made: seq<Event>)
      requires Valid()
      modifies this`file, this`performed, b
      ensures Valid()
      ensures performed == if Blank(feedID) || !disk.loads then old(performed)
                           else old(performed) + [Performed(Store.FromCache(setupURL, TrimSpace(feedID), fail), disk.saves, made)]
      ensures var (changed, e) := Store.ReconcileFromCache(crypto, old(file), setupURL, feedID, fail);
              && file == Saved(disk, old(file), changed)
              && err == if Blank(feedID) then Some(Refused(Store.NotCached)) else ProblemOf(disk, e)
      ensures Followed(old(b.history), old(b.profiles), b.history, b.profiles, made)
    {
      fail, made := None, [];
      assert b.history + [] == b.history;
      var id := TrimSpace(feedID);
      if id == "" { return Some(Refused(Store.NotCached)), fail, made; }
      if !disk.loads { return Some(Unloadable), fail, made; }
      var st := new LoadedState(file);
      var e;
      e, fail, made := FromCache(st, setupURL, id);
      var changed := st.Snapshot();
      if disk.saves { file := changed; }
      err := ProblemOf(disk, e);
      Log(Performed(Store.FromCache(setupURL, id, fail), disk.saves, made));
    }

    /** What a loaded state knows about the setup URL with this key. */
    method ResolveKey(st: LoadedState, setupURL: string, key: string) returns (resolution: Store.Resolution)
      requires st.Valid()
      modifies st`setupURLMap, st`value
      ensures st.Valid()
      ensures (st.value, resolution) == Store.ResolveKey(crypto, old(st.value), setupURL, key)
    {
      var feedID := if key in st.setupURLMap then TrimSpace(st.setupURLMap[key]) else "";
      if feedID == "" || feedID !in st.feeds || TrimSpace(st.feeds[feedID].cached) == "" {
        return Store.Resolved(feedID, []);
      }
      var doc := crypto.Decrypt(setupURL, st.feeds[feedID].cached);
      if doc.None? { return Store.Unresolved(Store.NotDecrypted); }
      var endpoints := st.OrderEndpoints(crypto, feedID, doc.value.endpoints);
      var cachedID := TrimSpace(doc.value.id);
      if cachedID != "" && cachedID != feedID {
        endpoints := st.OrderEndpoints(crypto, cachedID, doc.value.endpoints);
        st.MapSetupURL(key, cachedID);
        feedID := cachedID;
      }
      return Store.Resolved(feedID, endpoints);
    }

    method Resolve(st: LoadedState, setupURL: string, newSalt: string) returns (resolution: Store.Resolution)
      requires st.Valid()
      modifies st`salt, st`setupURLMap, st`value
      ensures st.Valid()
      ensures st.value == Store.Resolve(crypto, old(st.value), setupURL, newSalt).0
      ensures resolution == Store.Resolve(crypto, old(st.value), setupURL, newSalt).1
    {
      var key := st.SubscriptionURLKey(crypto, TrimSpace(setupURL), newSalt);
      if key.None? { return Store.Unresolved(Store.NoKey); }
      resolution := ResolveKey(st, TrimSpace(setupURL), key.value);
    }

    method ResolveFromStateCache(disk: Disk, setupURL: string, newSalt: string)
      returns (resolution: Option<Store.Resolution>)
      requires Valid()
      modifies this`file, this`performed
      ensures Valid()
      ensures performed == if disk.loads then old(performed) + [Performed(Store.Lookup(setupURL, newSalt), disk.saves, [])] else old(performed)
      ensures var (changed, r) := Store.Resolve(crypto, old(file), setupURL, newSalt);
              && file == Saved(disk, old(file), changed)
              && resolution == if disk.loads && disk.saves then Some(r) else None
    {
      if !disk.loads { return None; }
      var st := new LoadedState(file);
      var r := Resolve(st, setupURL, newSalt);
      var changed := st.Snapshot();
      if disk.saves { file := changed; }
      resolution := if disk.saves then Some(r) else None;
      assert Play(b.profiles, []) == b.profiles;
      Log(Performed(Store.Lookup(setupURL, newSalt), disk.saves, []));
    }
  }
}
