/** The one-shot path: every subscription is fetched and reconciled once, and the state is saved if all went well. */
module OneShot {
  import opened Text
  import opened Model
  import opened Device
  import opened Failover
  import opened Client
  import opened RevisionGate
  import Store
  import EndpointOrder
  import Daemon

  /** One setup URL, and what the network, the backend and the random source do for it. */
  datatype Request = Request(
    url: string,
    direct: Failover.Outcome<Daemon.Response>,
    replies: string -> Failover.Outcome<Daemon.Response>,
    fail: Option<nat>,
    newSalt: string)

  datatype Stop = Refused(error: Store.Error) | NotFetched | Unloadable | Unsaved

  /** The loaded state and the feeds seen so far, or why the run stopped. */
  datatype Progress = Progress(st: State, seen: map<string, string>, stop: Option<Stop>)

  // ----- specification

  /** The feed that a setup URL is mapped to, if any. */
  function MappedFeed(st: State, key: string): string {
    if key in st.setupURLMap then TrimSpace(st.setupURLMap[key]) else ""
  }

  /** The endpoints learned from the cached document. */
  function KnownEndpoints(c: Store.Crypto, st: State, url: string, key: string): Option<seq<string>> {
    var feedID := MappedFeed(st, key);
    if feedID == "" || feedID !in st.feeds || Blank(st.feeds[feedID].cached) then Some([])
    else match c.Decrypt(url, st.feeds[feedID].cached)
      case None => None
      case Some(doc) => Some(Store.OrderEndpoints(c, st, feedID, doc.endpoints))
  }

  function Promote(c: Store.Crypto, st: State, feedID: string, endpoints: seq<string>, used: string): State {
    if Blank(feedID) then st
    else
      var fs := FeedAt(st, TrimSpace(feedID));
      Store.PutEntry(st, TrimSpace(feedID), Some(fs.(endpointOrder :=
        EndpointOrder.Reconciled(fs.endpointOrder, endpoints, used, Store.HashWith(c, st.salt)))))
  }

  /** The response for a request, and the state after its endpoint was promoted. */
  function Receive(c: Store.Crypto, st: State, q: Request, feedID: string, endpoints: seq<string>): (State, Option<Daemon.Response>) {
    if endpoints != [] then
      var pass := PassOver(Normalized(endpoints), q.replies);
      if pass.Found? then (Promote(c, st, feedID, pass.result.doc.endpoints, pass.endpoint), Some(pass.result)) else (st, None)
    else if q.direct.Success? then (st, Some(q.direct.result))
    else (st, None)
  }

  function Noted(fs: FeedState, r: Daemon.Response): FeedState {
    fs.(tunnels := Some(Store.TableOf(fs)), ttl := Some(r.ttl), cached := if r.sealed.Some? then TrimSpace(r.sealed.value) else "")
  }

  /** Records and reconciles a response. It is not gated. */
  function File(st: State, key: string, r: Daemon.Response, fail: Option<nat>): (State, Option<Store.Error>) {
    var feedID := TrimSpace(r.doc.id);
    var mapped := st.(setupURLMap := st.setupURLMap[key := feedID]);
    var (entry, err) := Store.ReconcileEntry(Some(Noted(FeedAt(st, feedID), r)), r.doc.tunnels, fail);
    (Store.PutEntry(mapped, feedID, if err.Some? then entry else Some(entry.value.(lastReconciledRevision := TrimSpace(r.revision)))), err)
  }

  /** What request `q` receives in this state: the key of its URL, the state after promotion and the response. */
  datatype Receipt = Receipt(key: string, st: State, response: Daemon.Response)

  function Requested(c: Store.Crypto, st: State, q: Request): (State, Option<Receipt>, Stop) {
    var st1, url := Store.WithSalt(st, q.newSalt), TrimSpace(q.url);
    var key := c.key(st1.salt, url);
    if key.None? then (st1, None, Refused(Store.NoKey))
    else
      var endpoints := KnownEndpoints(c, st1, url, key.value);
      if endpoints.None? then (st1, None, Refused(Store.NotDecrypted))
      else
        var (st2, r) := Receive(c, st1, q, MappedFeed(st1, key.value), endpoints.value);
        if r.None? then (st2, None, NotFetched) else (st2, Some(Receipt(key.value, st2, r.value)), NotFetched)
  }

  /** What becomes of a receipt: feeds already seen are ignored. */
  function Settle(seen: map<string, string>, receipt: Receipt, url: string, fail: Option<nat>): Progress {
    var feedID := TrimSpace(receipt.response.doc.id);
    if feedID == "" then Progress(receipt.st, seen, Some(Refused(Store.MissingFeedId)))
    else if feedID in seen then Progress(receipt.st, seen, None)
    else
      var (after, err) := File(receipt.st, receipt.key, receipt.response, fail);
      Progress(after, seen[feedID := url], if err.Some? then Some(Refused(err.value)) else None)
  }

  function AfterOne(c: Store.Crypto, p: Progress, q: Request): Progress {
    var (st, receipt, stop) := Requested(c, p.st, q);
    if receipt.None? then Progress(st, p.seen, Some(stop)) else Settle(p.seen, receipt.value, TrimSpace(q.url), q.fail)
  }

  /** The requests one after the other, up to the first that stops the run. */
  function AfterAll(c: Store.Crypto, st: State, qs: seq<Request>): Progress {
    if qs == [] then Progress(st, map[], None)
    else
      var before := AfterAll(c, st, qs[..|qs| - 1]);
      if before.stop.Some? then before else AfterOne(c, before, qs[|qs| - 1])
  }

  // ----- what a run promises

  /** Everything but the endpoint order. */
  function Essence(fs: FeedState): FeedState {
    fs.(endpointOrder := [])
  }

  lemma PromotionKeepsEssence(c: Store.Crypto, st: State, feedID: string, endpoints: seq<string>, used: string, other: string)
    ensures Essence(FeedAt(Promote(c, st, feedID, endpoints, used), other)) == Essence(FeedAt(st, other))
  {
  }

  lemma RequestKeepsEssence(c: Store.Crypto, st: State, q: Request, other: string)
    ensures Essence(FeedAt(Requested(c, st, q).0, other)) == Essence(FeedAt(st, other))
  {
    var st1, url := Store.WithSalt(st, q.newSalt), TrimSpace(q.url);
    var key := c.key(st1.salt, url);
    if key.Some? && KnownEndpoints(c, st1, url, key.value).Some? {
      var endpoints := KnownEndpoints(c, st1, url, key.value).value;
      var pass := PassOver(Normalized(endpoints), q.replies);
      if pass.Found? {
        PromotionKeepsEssence(c, st1, MappedFeed(st1, key.value), pass.result.doc.endpoints, pass.endpoint, other);
      }
    }
  }

  lemma FilingKeepsOthers(st: State, key: string, r: Daemon.Response, fail: Option<nat>, other: string)
    requires other != TrimSpace(r.doc.id)
    ensures FeedAt(File(st, key, r, fail).0, other) == FeedAt(st, other)
  {
  }

  lemma SettlingKeepsSeen(seen: map<string, string>, receipt: Receipt, url: string, fail: Option<nat>, feedID: string)
    requires feedID in seen
    ensures var after := Settle(seen, receipt, url, fail);
            feedID in after.seen && after.seen[feedID] == seen[feedID] && FeedAt(after.st, feedID) == FeedAt(receipt.st, feedID)
  {
    if feedID != TrimSpace(receipt.response.doc.id) {
      FilingKeepsOthers(receipt.st, receipt.key, receipt.response, fail, feedID);
    }
  }

  /** A feed already seen is not reconciled again. */
  lemma SeenStays(c: Store.Crypto, p: Progress, q: Request, feedID: string)
    requires feedID in p.seen
    ensures var after := AfterOne(c, p, q);
            feedID in after.seen && after.seen[feedID] == p.seen[feedID] && Essence(FeedAt(after.st, feedID)) == Essence(FeedAt(p.st, feedID))
  {
    RequestKeepsEssence(c, p.st, q, feedID);
    var receipt := Requested(c, p.st, q).1;
    if receipt.Some? {
      SettlingKeepsSeen(p.seen, receipt.value, TrimSpace(q.url), q.fail, feedID);
    }
  }

  /** The feed's entry says that exactly this response was reconciled. */
  ghost predicate Holds(fs: FeedState, r: Daemon.Response) {
    && fs.lastReconciledRevision == TrimSpace(r.revision) && fs.ttl == Some(r.ttl)
    && fs.cached == (if r.sealed.Some? then TrimSpace(r.sealed.value) else "")
    && fs.tunnels.Some? && Records(fs.tunnels.value, r.doc.tunnels)
  }

  lemma FiledHolds(st: State, key: string, r: Daemon.Response, fail: Option<nat>)
    requires File(st, key, r, fail).1.None? && DistinctIds(r.doc.tunnels)
    ensures Holds(FeedAt(File(st, key, r, fail).0, TrimSpace(r.doc.id)), r)
  {
    ReconciledRecords(Store.TableOf(FeedAt(st, TrimSpace(r.doc.id))), r.doc.tunnels);
  }

  lemma SettledHolds(seen: map<string, string>, receipt: Receipt, url: string, fail: Option<nat>)
    requires Settle(seen, receipt, url, fail).stop.None? && TrimSpace(receipt.response.doc.id) !in seen
    requires DistinctIds(receipt.response.doc.tunnels)
    ensures var after, feedID := Settle(seen, receipt, url, fail), TrimSpace(receipt.response.doc.id);
            feedID in after.seen && after.seen[feedID] == url && Holds(FeedAt(after.st, feedID), receipt.response)
  {
    FiledHolds(receipt.st, receipt.key, receipt.response, fail);
  }

  /** Request `k` of a run that did not stop received a feed that no earlier request had. */
  ghost predicate First(c: Store.Crypto, st: State, qs: seq<Request>, k: nat, r: Daemon.Response)
    requires k < |qs|
  {
    var before := AfterAll(c, st, qs[..k]);
    var receipt := Requested(c, before.st, qs[k]).1;
    receipt.Some? && receipt.value.response == r && TrimSpace(r.doc.id) !in before.seen
  }

  lemma FirstEarlier(c: Store.Crypto, st: State, qs: seq<Request>, k: nat, r: Daemon.Response)
    requires k < |qs| - 1 && First(c, st, qs, k, r)
    ensures First(c, st, qs[..|qs| - 1], k, r) && qs[..|qs| - 1][k] == qs[k]
  {
    assert qs[..|qs| - 1][..k] == qs[..k];
  }

  lemma AfterLast(c: Store.Crypto, st: State, qs: seq<Request>)
    requires qs != [] && AfterAll(c, st, qs).stop.None?
    ensures AfterAll(c, st, qs) == AfterOne(c, AfterAll(c, st, qs[..|qs| - 1]), qs[|qs| - 1])
    ensures AfterAll(c, st, qs[..|qs| - 1]).stop.None?
  {
  }

  /** The feed of `r` was seen under this URL, and its entry says that `r` was reconciled. */
  ghost predicate Settled(p: Progress, url: string, r: Daemon.Response) {
    var feedID := TrimSpace(r.doc.id);
    feedID in p.seen && p.seen[feedID] == url && Holds(FeedAt(p.st, feedID), r)
  }

  lemma FirstSettles(c: Store.Crypto, p: Progress, q: Request)
    requires AfterOne(c, p, q).stop.None? && Requested(c, p.st, q).1.Some?
    requires var r := Requested(c, p.st, q).1.value.response; TrimSpace(r.doc.id) !in p.seen && DistinctIds(r.doc.tunnels)
    ensures Settled(AfterOne(c, p, q), TrimSpace(q.url), Requested(c, p.st, q).1.value.response)
  {
    SettledHolds(p.seen, Requested(c, p.st, q).1.value, TrimSpace(q.url), q.fail);
  }

  lemma LaterKeepsSettled(c: Store.Crypto, p: Progress, q: Request, url: string, r: Daemon.Response)
    requires Settled(p, url, r)
    ensures Settled(AfterOne(c, p, q), url, r)
  {
    SeenStays(c, p, q, TrimSpace(r.doc.id));
  }

  /** A run that did not stop leaves every feed with exactly the response first received for it: later setup URLs of
      the same feed are ignored, and other feeds do not disturb it. */
  lemma {:induction false} FirstResponseHolds(c: Store.Crypto, st: State, qs: seq<Request>, k: nat, r: Daemon.Response)
    requires k < |qs| && AfterAll(c, st, qs).stop.None? && First(c, st, qs, k, r) && DistinctIds(r.doc.tunnels)
    ensures Settled(AfterAll(c, st, qs), TrimSpace(qs[k].url), r)
  {
    AfterLast(c, st, qs);
    var before, q := AfterAll(c, st, qs[..|qs| - 1]), qs[|qs| - 1];
    if k < |qs| - 1 {
      FirstEarlier(c, st, qs, k, r);
      FirstResponseHolds(c, st, qs[..|qs| - 1], k, r);
      LaterKeepsSettled(c, before, q, TrimSpace(qs[k].url), r);
    } else {
      FirstSettles(c, before, q);
    }
  }

  // ----- implementation

  method Fetch(crypto: Store.Crypto, st: LoadedState, q: Request, cachedFeedID: string, endpoints: seq<string>)
    returns (r: Option<Daemon.Response>)
    requires st.Valid()
    modifies st`feeds, st`value
    ensures st.Valid() && st.Tables() <= old(st.Tables())
    ensures st.value == Receive(crypto, old(st.value), q, cachedFeedID, endpoints).0
    ensures r == Receive(crypto, old(st.value), q, cachedFeedID, endpoints).1
  {
    if |endpoints| == 0 {
      return if q.direct.Success? then Some(q.direct.result) else None;
    }
    var pass, _ := FetchAnyEndpoints(endpoints, q.replies);
    PassOverDecides(Normalized(endpoints), q.replies);
    OneDecision(Normalized(endpoints), q.replies, pass, PassOver(Normalized(endpoints), q.replies));
    if !pass.Found? { return None; }
    st.ReconcileEndpointOrder(crypto, cachedFeedID, pass.result.doc.endpoints, pass.endpoint);
    return Some(pass.result);
  }

  method RequestOne(crypto: Store.Crypto, st: LoadedState, q: Request)
    returns (key: string, r: Option<Daemon.Response>, stop: Stop)
    requires st.Valid()
    modifies st`salt, st`feeds, st`value
    ensures st.Valid() && st.Tables() <= old(st.Tables())
    ensures var (after, receipt, why) := Requested(crypto, old(st.value), q);
            && st.value == after && (r.Some? <==> receipt.Some?)
            && (if r.Some? then receipt.value == Receipt(key, after, r.value) else stop == why)
  {
    var url := TrimSpace(q.url);
    var k := st.SubscriptionURLKey(crypto, url, q.newSalt);
    if k.None? { return "", None, Refused(Store.NoKey); }
    key, stop := k.value, NotFetched;
    var cachedFeedID := if key in st.setupURLMap then TrimSpace(st.setupURLMap[key]) else "";
    var endpoints: seq<string> := [];
    if cachedFeedID != "" && cachedFeedID in st.feeds && TrimSpace(st.feeds[cachedFeedID].cached) != "" {
      var doc := crypto.Decrypt(url, st.feeds[cachedFeedID].cached);
      if doc.None? { return key, None, Refused(Store.NotDecrypted); }
      endpoints := st.OrderEndpoints(crypto, cachedFeedID, doc.value.endpoints);
    }
    r := Fetch(crypto, st, q, cachedFeedID, endpoints);
  }

  /** Records what came with a response. Here the new table of a feed that had none is kept. */
  method NoteResponse(st: LoadedState, feedID: string, r: Daemon.Response)
    requires st.Valid()
    modifies st`feeds, st`value
    ensures st.Valid() && fresh(st.Tables() - old(st.Tables()))
    ensures st.value == Store.PutEntry(old(st.value), feedID, Some(Noted(FeedAt(old(st.value), feedID), r)))
  {
    var fs := Copy(st, feedID);
    st.Put(feedID, fs.(ttl := Some(r.ttl), cached := if r.sealed.Some? then TrimSpace(r.sealed.value) else ""));
  }

  method FileResponse(b: Backend, st: LoadedState, key: string, r: Daemon.Response)
    returns (err: Option<Store.Error>, ghost fail: Option<nat>, ghost made: seq<Event>)
    requires st.Valid() && !Blank(r.doc.id)
    modifies st, st.Tables(), b
    ensures st.Valid() && fresh(st.Tables() - old(st.Tables()))
    ensures st.value == File(old(st.value), key, r, fail).0 && err == File(old(st.value), key, r, fail).1
    ensures Followed(old(b.history), old(b.profiles), b.history, b.profiles, made)
    ensures Store.Did(Store.FeedWork(old(st.value), r.doc), fail, made)
  {
    var feedID := TrimSpace(r.doc.id);
    st.MapSetupURL(key, feedID);
    NoteResponse(st, feedID, r);
    ghost var noted, tables := st.value, st.Tables();
    err, fail, made := ReconcileRevision(b, st, feedID, r.doc, r.revision);
    assert st.Tables() <= (st.Tables() - tables) + (tables - old(st.Tables())) + old(st.Tables());
    FiledInSteps(old(st.value), noted, key, r, fail);
  }

  lemma FiledInSteps(st: State, noted: State, key: string, r: Daemon.Response, fail: Option<nat>)
    requires var feedID := TrimSpace(r.doc.id);
             var mapped := st.(setupURLMap := st.setupURLMap[key := feedID]);
             noted == Store.PutEntry(mapped, feedID, Some(Noted(FeedAt(mapped, feedID), r)))
    ensures var feedID := TrimSpace(r.doc.id);
            var result := Store.ReconcileEntry(Store.FeedEntry(noted, feedID), r.doc.tunnels, fail);
            && File(st, key, r, fail).1 == result.1
            && File(st, key, r, fail).0 == Store.PutEntry(noted, feedID,
                 if result.1.Some? then result.0 else Some(result.0.value.(lastReconciledRevision := TrimSpace(r.revision))))
            && Store.FeedWork(noted, r.doc) == Store.FeedWork(st, r.doc)
  {
    var feedID := TrimSpace(r.doc.id);
    var mapped := st.(setupURLMap := st.setupURLMap[key := feedID]);
    var entry := Some(Noted(FeedAt(mapped, feedID), r));
    var result := Store.ReconcileEntry(entry, r.doc.tunnels, fail);
    Store.PutTwice(mapped, feedID, entry, if result.1.Some? then result.0 else Some(result.0.value.(lastReconciledRevision := TrimSpace(r.revision))));
  }

  /** Files a response, unless its feed has been seen. */
  method SettleOne(b: Backend, st: LoadedState, seen: map<string, string>, key: string, r: Daemon.Response, url: string)
    returns (seen': map<string, string>, stop: Option<Stop>, ghost fail: Option<nat>, ghost made: seq<Event>)
    requires st.Valid()
    modifies st, st.Tables(), b
    ensures st.Valid() && fresh(st.Tables() - old(st.Tables()))
    ensures Progress(st.value, seen', stop) == Settle(seen, Receipt(key, old(st.value), r), url, fail)
    ensures Followed(old(b.history), old(b.profiles), b.history, b.profiles, made)
  {
    fail, made := None, [];
    assert b.history + [] == b.history;
    var feedID := TrimSpace(r.doc.id);
    if feedID == "" { return seen, Some(Refused(Store.MissingFeedId)), fail, made; }
    if feedID in seen { return seen, None, fail, made; }
    seen' := seen[feedID := url];
    var err;
    err, fail, made := FileResponse(b, st, key, r);
    stop := if err.Some? then Some(Refused(err.value)) else None;
  }

  method ApplyOne(crypto: Store.Crypto, b: Backend, st: LoadedState, seen: map<string, string>, q: Request)
    returns (seen': map<string, string>, stop: Option<Stop>, ghost fail: Option<nat>, ghost made: seq<Event>)
    requires st.Valid()
    modifies st, st.Tables(), b
    ensures st.Valid() && fresh(st.Tables() - old(st.Tables()))
    ensures Progress(st.value, seen', stop) == AfterOne(crypto, Progress(old(st.value), seen, None), q.(fail := fail))
    ensures Followed(old(b.history), old(b.profiles), b.history, b.profiles, made)
  {
    var key, r, why := RequestOne(crypto, st, q);
    if r.None? {
      RequestedBeforeReconciling(crypto, old(st.value), q, None);
      assert b.history + [] == b.history;
      return seen, Some(why), None, [];
    }
    seen', stop, fail, made := SettleOne(b, st, seen, key, r.value, TrimSpace(q.url));
    RequestedBeforeReconciling(crypto, old(st.value), q, fail);
  }

  lemma RequestedBeforeReconciling(c: Store.Crypto, st: State, q: Request, fail: Option<nat>)
    ensures Requested(c, st, q.(fail := fail)) == Requested(c, st, q)
  {
  }

  /** The requests as they went: `fails` tells which tunnel of each could not be applied. */
  function AsTheyWent(qs: seq<Request>, fails: seq<Option<nat>>): seq<Request>
    requires |fails| == |qs|
  {
    seq(|qs|, i requires 0 <= i < |qs| => qs[i].(fail := fails[i]))
  }

  /** The requests in turn, up to the first that stops the run, and the state they lead to if none does. `fails` covers
      the requests that were made. */
  method RunAll(crypto: Store.Crypto, b: Backend, file: State, qs: seq<Request>)
    returns (file': State, stop: Option<Stop>, ghost fails: seq<Option<nat>>)
    modifies b
    ensures |fails| <= |qs| && (stop.None? ==> |fails| == |qs|)
    ensures var p := AfterAll(crypto, file, AsTheyWent(qs[..|fails|], fails));
            stop == p.stop && file' == if p.stop.None? then p.st else file
  {
    var st := new LoadedState(file);
    var seen: map<string, string> := map[];
    fails := [];
    for i := 0 to |qs|
      invariant st.Valid() && fresh(st) && fresh(st.Tables())
      invariant |fails| == i
      invariant AfterAll(crypto, file, AsTheyWent(qs[..i], fails)) == Progress(st.value, seen, None)
    {
      ghost var before, tables := fails, st.Tables();
      ghost var fail, made;
      seen, stop, fail, made := ApplyOne(crypto, b, st, seen, qs[i]);
      assert st.Tables() <= (st.Tables() - tables) + tables;
      fails := before + [fail];
      OneMoreRequest(crypto, file, qs, before, i, fail);
      if stop.Some? { return file, stop, fails; }
    }
    assert qs[..|qs|] == qs;
    file' := st.Snapshot();
    stop := None;
  }

  /** The state file afterwards, and why the run stopped, if it did. Unless everything went well the file is not
      written at all, whatever was already changed at the backend. */
  method RunOnce(crypto: Store.Crypto, b: Backend, disk: Disk, file: State, qs: seq<Request>)
    returns (file': State, stop: Option<Stop>, ghost fails: seq<Option<nat>>)
    modifies b
    ensures |fails| <= |qs| && (stop.None? ==> |fails| == |qs|)
    ensures !disk.loads ==> stop == Some(Unloadable) && file' == file && b.history == old(b.history) && b.profiles == old(b.profiles)
    ensures disk.loads ==>
              var p := AfterAll(crypto, file, AsTheyWent(qs[..|fails|], fails));
              && stop == (if p.stop.Some? then p.stop else if disk.saves then None else Some(Unsaved))
              && file' == if stop.None? then p.st else file
  {
    if !disk.loads { return file, Some(Unloadable), []; }
    file', stop, fails := RunAll(crypto, b, file, qs);
    if stop.None? && !disk.saves { return file, Some(Unsaved), fails; }
  }

  lemma OneMoreRequest(c: Store.Crypto, st: State, qs: seq<Request>, fails: seq<Option<nat>>, i: nat, fail: Option<nat>)
    requires i < |qs| && |fails| == i && AfterAll(c, st, AsTheyWent(qs[..i], fails)).stop.None?
    ensures AfterAll(c, st, AsTheyWent(qs[..i + 1], fails + [fail])) ==
            AfterOne(c, AfterAll(c, st, AsTheyWent(qs[..i], fails)), qs[i].(fail := fail))
  {
    var all := AsTheyWent(qs[..i + 1], fails + [fail]);
    assert all[..|all| - 1] == AsTheyWent(qs[..i], fails);
  }
}
