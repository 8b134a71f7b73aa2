/** What becomes of an update, and of a reconciliation from the cache, by what came and what was recorded before. */
module UpdateOutcome {
  import opened Text
  import opened Model
  import opened Reconcile
  import opened Store
  import opened Lists
  import EndpointOrder
  import Recency

  /** The salt in use: the stored one, or the one drawn if that is blank. */
  function SaltOf(st: State, newSalt: string): string {
    if Blank(st.salt) then newSalt else st.salt
  }

  function EntryOf(st: State, feedID: string): FeedState {
    if feedID in st.feeds then st.feeds[feedID] else FeedState("", None, "", [], None)
  }

  /** The tunnels recorded in an entry, if any. */
  function RecordsOf(fs: FeedState): Table {
    match fs.tunnels
    case None => map[]
    case Some(tbl) => tbl
  }

  /** Exactly when an update calls for work at the backend: it names a feed, its setup URL has a key, and its revision is
      blank or not the one that its feed reconciled last. The work is then its own tunnels and what was recorded. */
  lemma WorkExactly(c: Crypto, st: State, u: Update, newSalt: string)
    ensures var fs := EntryOf(st, TrimSpace(u.doc.id));
            UpdateWork(c, st, u, newSalt) ==
            if Blank(u.doc.id) || c.key(SaltOf(st, newSalt), u.setupURL).None? then None
            else if TrimSpace(u.revision) != "" && TrimSpace(u.revision) == TrimSpace(fs.lastReconciledRevision) then None
            else Some(Work(RecordsOf(fs), u.doc.tunnels))
  {
  }

  /** An update that names no feed changes nothing; one whose URL has no key leaves at most a salt. */
  lemma RefusedUpdate(c: Crypto, st: State, u: Update, fail: Option<nat>, newSalt: string)
    ensures Blank(u.doc.id) ==> ApplyRemoteUpdate(c, st, u, fail, newSalt) == (st, Some(MissingFeedId))
    ensures !Blank(u.doc.id) && c.key(SaltOf(st, newSalt), u.setupURL).None? ==>
              ApplyRemoteUpdate(c, st, u, fail, newSalt) == (st.(salt := SaltOf(st, newSalt)), Some(NoKey))
  {
  }

  /** The update names a feed and its setup URL has a key. */
  predicate Reaches(c: Crypto, st: State, u: Update, newSalt: string) {
    !Blank(u.doc.id) && c.key(SaltOf(st, newSalt), u.setupURL).Some?
  }

  /** Any other update is filed: its URL is mapped to its feed, and everything but the tunnels and the revision is its
      own. The entries of other feeds stay. */
  lemma UpdateIsNoted(c: Crypto, st: State, u: Update, fail: Option<nat>, newSalt: string)
    requires Reaches(c, st, u, newSalt)
    ensures var after, feedID, salt := ApplyRemoteUpdate(c, st, u, fail, newSalt).0, TrimSpace(u.doc.id), SaltOf(st, newSalt);
            && after.salt == salt && after.setupURLMap == st.setupURLMap[c.key(salt, u.setupURL).value := feedID]
            && feedID in after.feeds && after.feeds.Keys == st.feeds.Keys + {feedID}
            && after.feeds[feedID].ttl == Some(u.ttl) && after.feeds[feedID].cached == TrimSpace(u.cached)
            && forall other <- st.feeds :: other != feedID ==> after.feeds[other] == st.feeds[other]
  {
    var feedID, salt := TrimSpace(u.doc.id), SaltOf(st, newSalt);
    EntryIsNoted(c, salt, FeedEntry(st, feedID), u, fail);
  }

  lemma EntryIsNoted(c: Crypto, salt: string, entry: Option<FeedState>, u: Update, fail: Option<nat>)
    ensures var after := UpdateEntry(c, salt, entry, u, fail).0;
            after.Some? && after.value.ttl == Some(u.ttl) && after.value.cached == TrimSpace(u.cached)
  {
  }

  /** The entry after an update that reaches it, and its error. */
  lemma ReachedEntry(c: Crypto, st: State, u: Update, fail: Option<nat>, newSalt: string)
    requires Reaches(c, st, u, newSalt)
    ensures var (after, err) := ApplyRemoteUpdate(c, st, u, fail, newSalt);
            var feedID := TrimSpace(u.doc.id);
            UpdateEntry(c, SaltOf(st, newSalt), FeedEntry(st, feedID), u, fail) == (FeedEntry(after, feedID), err)
  {
  }

  /** An update of the revision last reconciled changes no record, and is no error. */
  lemma SameRevisionKeepsRecords(c: Crypto, st: State, u: Update, fail: Option<nat>, newSalt: string)
    requires Reaches(c, st, u, newSalt) && TrimSpace(u.revision) != ""
    requires TrimSpace(u.revision) == TrimSpace(EntryOf(st, TrimSpace(u.doc.id)).lastReconciledRevision)
    ensures var (after, err) := ApplyRemoteUpdate(c, st, u, fail, newSalt);
            var before, now := EntryOf(st, TrimSpace(u.doc.id)), EntryOf(after, TrimSpace(u.doc.id));
            err == None && now.tunnels == before.tunnels && now.lastReconciledRevision == before.lastReconciledRevision
  {
    ReachedEntry(c, st, u, fail, newSalt);
  }

  /** The update's revision is blank or not the one its feed reconciled last. */
  predicate BringsNews(st: State, u: Update) {
    TrimSpace(u.revision) == "" || TrimSpace(u.revision) != TrimSpace(EntryOf(st, TrimSpace(u.doc.id)).lastReconciledRevision)
  }

  /** Any other update, if all its tunnels can be applied, leaves exactly them recorded, under their names and with the
      flags recorded before unless they are new or forced, and its revision as the one last reconciled. */
  lemma NewsIsRecorded(c: Crypto, st: State, u: Update, fail: Option<nat>, newSalt: string)
    requires Reaches(c, st, u, newSalt) && BringsNews(st, u) && DistinctIds(u.doc.tunnels)
    requires fail.Some? ==> fail.value >= |u.doc.tunnels|
    ensures var (after, err) := ApplyRemoteUpdate(c, st, u, fail, newSalt);
            var was, now := RecordsOf(EntryOf(st, TrimSpace(u.doc.id))), EntryOf(after, TrimSpace(u.doc.id));
            && err == None && now.lastReconciledRevision == TrimSpace(u.revision) && now.tunnels.Some?
            && now.tunnels.value.Keys == Ids(u.doc.tunnels)
            && forall i :: 0 <= i < |u.doc.tunnels| ==>
                 var t := u.doc.tunnels[i];
                 t.id in now.tunnels.value &&
                 now.tunnels.value[t.id] == TunnelState(t.name, if t.id in was && !t.forced then was[t.id].enabled else t.enabled)
  {
    ReachedEntry(c, st, u, fail, newSalt);
    SuccessRecordsDocument(RecordsOf(EntryOf(st, TrimSpace(u.doc.id))), u.doc.tunnels);
  }

  /** If one of its tunnels cannot be applied, that is the error, and the revision last reconciled stays. */
  lemma FailureKeepsRevision(c: Crypto, st: State, u: Update, k: nat, newSalt: string)
    requires Reaches(c, st, u, newSalt) && BringsNews(st, u) && k < |u.doc.tunnels|
    ensures var (after, err) := ApplyRemoteUpdate(c, st, u, Some(k), newSalt);
            var before, now := EntryOf(st, TrimSpace(u.doc.id)), EntryOf(after, TrimSpace(u.doc.id));
            && err == Some(BackendFailed(k)) && now.lastReconciledRevision == before.lastReconciledRevision
            && (before.tunnels.None? <==> now.tunnels.None?)
  {
    ReachedEntry(c, st, u, Some(k), newSalt);
  }

  /** So an update is retried until it succeeds: the same update is reconciled again after a failure, and not after a
      success. */
  lemma RetriedUntilDone(c: Crypto, st: State, u: Update, fail: Option<nat>, newSalt: string, again: string)
    requires Reaches(c, st, u, newSalt) && !Blank(u.revision) && BringsNews(st, u) && DistinctIds(u.doc.tunnels) && !Blank(SaltOf(st, newSalt))
    ensures UpdateWork(c, ApplyRemoteUpdate(c, st, u, fail, newSalt).0, u, again).Some? <==>
            fail.Some? && fail.value < |u.doc.tunnels|
  {
    var after := ApplyRemoteUpdate(c, st, u, fail, newSalt).0;
    UpdateIsNoted(c, st, u, fail, newSalt);
    WorkExactly(c, after, u, again);
    if fail.Some? && fail.value < |u.doc.tunnels| {
      FailureKeepsRevision(c, st, u, fail.value, newSalt);
    } else {
      NewsIsRecorded(c, st, u, fail, newSalt);
    }
  }

  // ----- from the cache

  /** Reconciling from the cache: refused without a cached document that opens; otherwise that document is reconciled
      with what is recorded for the feed it names, whatever was reconciled last. */
  lemma CacheOutcome(c: Crypto, st: State, setupURL: string, feedID: string, fail: Option<nat>)
    ensures var (after, err) := ReconcileFromCache(c, st, setupURL, feedID, fail);
            var id, work := TrimSpace(feedID), CacheWork(c, st, setupURL, feedID);
            if id == "" || id !in st.feeds || Blank(st.feeds[id].cached) then after == st && err == Some(NotCached) && work == None
            else match c.open(setupURL, st.feeds[id].cached)
              case Unopened(_) => after == st && err == Some(NotDecrypted) && work == None
              case Opened(doc) =>
                if Blank(doc.id) then after == st && err == Some(MissingFeedId) && work == None
                else
                  && work == Some(Work(RecordsOf(EntryOf(st, TrimSpace(doc.id))), doc.tunnels))
                  && err == (if fail.Some? && fail.value < |doc.tunnels| then Some(BackendFailed(fail.value)) else None)
                  && after.salt == st.salt && after.setupURLMap == st.setupURLMap
                  && var before, now := EntryOf(st, TrimSpace(doc.id)), EntryOf(after, TrimSpace(doc.id));
                     now.(tunnels := None) == before.(tunnels := None)
  {
  }

  /** If all its tunnels can be applied, exactly they are recorded then. */
  lemma CacheIsRecorded(c: Crypto, st: State, setupURL: string, feedID: string, fail: Option<nat>, doc: FeedDocument)
    requires var id := TrimSpace(feedID);
             id != "" && id in st.feeds && !Blank(st.feeds[id].cached) && c.open(setupURL, st.feeds[id].cached) == Opened(doc)
    requires !Blank(doc.id) && DistinctIds(doc.tunnels) && (fail.Some? ==> fail.value >= |doc.tunnels|)
    ensures var was, now := RecordsOf(EntryOf(st, TrimSpace(doc.id))), EntryOf(ReconcileFromCache(c, st, setupURL, feedID, fail).0, TrimSpace(doc.id));
            && now.tunnels.Some? && now.tunnels.value.Keys == Ids(doc.tunnels)
            && forall i :: 0 <= i < |doc.tunnels| ==>
                 var t := doc.tunnels[i];
                 t.id in now.tunnels.value &&
                 now.tunnels.value[t.id] == TunnelState(t.name, if t.id in was && !t.forced then was[t.id].enabled else t.enabled)
  {
    SuccessRecordsDocument(RecordsOf(EntryOf(st, TrimSpace(doc.id))), doc.tunnels);
  }

  // ----- the setup URL and the endpoint order

  lemma KeyOutcome(c: Crypto, st: State, url: string, key: string)
    ensures var (after, r), mapped := ResolveKey(c, st, url, key), if key in st.setupURLMap then TrimSpace(st.setupURLMap[key]) else "";
            if mapped == "" || mapped !in st.feeds || Blank(st.feeds[mapped].cached) then after == st && r == Resolved(mapped, [])
            else match c.open(url, st.feeds[mapped].cached)
              case Unopened(_) => after == st && r == Unresolved(NotDecrypted)
              case Opened(doc) =>
                var feedID := if Blank(doc.id) then mapped else TrimSpace(doc.id);
                && after == (if feedID == mapped then st else st.(setupURLMap := st.setupURLMap[key := feedID]))
                && r == Resolved(feedID, OrderEndpoints(c, st, feedID, doc.endpoints))
  {
  }

  /** Resolving a setup URL: an error without a key or if the cached document does not open; otherwise the feed it is
      mapped to, unless the cached document names another one, which the URL is mapped to from then on. */
  lemma LookupOutcome(c: Crypto, st: State, setupURL: string, newSalt: string)
    ensures var (after, r), salt, url := Resolve(c, st, setupURL, newSalt), SaltOf(st, newSalt), TrimSpace(setupURL);
            var kept := st.(salt := salt);
            match c.key(salt, url)
            case None => after == kept && r == Unresolved(NoKey)
            case Some(key) =>
              var mapped := if key in st.setupURLMap then TrimSpace(st.setupURLMap[key]) else "";
              if mapped == "" || mapped !in st.feeds || Blank(st.feeds[mapped].cached) then after == kept && r == Resolved(mapped, [])
              else match c.open(url, st.feeds[mapped].cached)
                case Unopened(_) => after == kept && r == Unresolved(NotDecrypted)
                case Opened(doc) =>
                  var feedID := if Blank(doc.id) then mapped else TrimSpace(doc.id);
                  && after == (if feedID == mapped then kept else kept.(setupURLMap := st.setupURLMap[key := feedID]))
                  && r == Resolved(feedID, OrderEndpoints(c, kept, feedID, doc.endpoints))
  {
    var kept, url := st.(salt := SaltOf(st, newSalt)), TrimSpace(setupURL);
    assert kept == WithSalt(st, newSalt);
    if c.key(kept.salt, url).Some? {
      KeyOutcome(c, kept, url, c.key(kept.salt, url).value);
    }
  }

  /** Known feeds' endpoints come in stored preference order, those of unknown feeds as they are. */
  lemma OrderedByStore(c: Crypto, st: State, feedID: string, endpoints: seq<string>)
    ensures var id := TrimSpace(feedID);
            OrderEndpoints(c, st, feedID, endpoints) ==
            if id != "" && id in st.feeds then EndpointOrder.Ordered(endpoints, st.feeds[id].endpointOrder, HashWith(c, st.salt)) else endpoints
  {
  }

  /** The state file maps the URL to this feed, which has a cached document that opens. */
  predicate Caches(c: Crypto, st: State, url: string, newSalt: string, feedID: string, doc: FeedDocument) {
    var key := c.key(SaltOf(st, newSalt), url);
    && key.Some? && key.value in st.setupURLMap && TrimSpace(st.setupURLMap[key.value]) == feedID
    && feedID != "" && feedID in st.feeds && !Blank(st.feeds[feedID].cached)
    && c.open(url, st.feeds[feedID].cached) == Opened(doc)
  }

  /** The cached document's endpoints in the order stored for the feed. */
  function StoredOrder(c: Crypto, st: State, newSalt: string, feedID: string, doc: FeedDocument): seq<string>
    requires feedID in st.feeds
  {
    EndpointOrder.Ordered(doc.endpoints, st.feeds[feedID].endpointOrder, HashWith(c, SaltOf(st, newSalt)))
  }

  /** `h` is the salted key of one of the endpoints. */
  ghost predicate IsKeyOf(c: Crypto, salt: string, endpoints: seq<string>, h: string) {
    exists e <- endpoints :: c.key(salt, e).Some? && TrimSpace(c.key(salt, e).value) == h
  }

  lemma TrimmedHashes(c: Crypto, salt: string, es: seq<string>, h: string)
    ensures h != "" && IsKeyOf(c, salt, es, h) <==> h in EndpointOrder.Added(EndpointOrder.HashesOf(es, HashWith(c, salt)))
  {
    var hs := EndpointOrder.HashesOf(es, HashWith(c, salt));
    EndpointOrder.HashContents(es, HashWith(c, salt));
    AddedMentions(hs, h);
    if IsKeyOf(c, salt, es, h) {
      var e :| e in es && c.key(salt, e).Some? && TrimSpace(c.key(salt, e).value) == h;
      assert HashWith(c, salt)(e) == c.key(salt, e);
      var i :| 0 <= i < |hs| && hs[i] == c.key(salt, e).value;
    }
    if EndpointOrder.Mentions(hs, h) {
      var i :| 0 <= i < |hs| && TrimSpace(hs[i]) == h;
      assert hs[i] in hs;
      var e :| e in es && HashWith(c, salt)(e) == Some(hs[i]);
    }
  }

  /** After an update, the stored order has exactly the salted keys of the document's endpoints, and so no URL. */
  lemma StoredOrderIsOfKeys(c: Crypto, st: State, u: Update, fail: Option<nat>, newSalt: string, h: string)
    requires Reaches(c, st, u, newSalt)
    ensures var after, feedID := ApplyRemoteUpdate(c, st, u, fail, newSalt).0, TrimSpace(u.doc.id);
            feedID in after.feeds &&
            (h in after.feeds[feedID].endpointOrder <==>
               h != "" && IsKeyOf(c, SaltOf(st, newSalt), EndpointOrder.Clean(u.doc.endpoints), h))
  {
    var feedID, salt := TrimSpace(u.doc.id), SaltOf(st, newSalt);
    UpdateIsNoted(c, st, u, fail, newSalt);
    ReachedEntry(c, st, u, fail, newSalt);
    OrderIsNoted(c, salt, FeedEntry(st, feedID), u, fail);
    TrimmedHashes(c, salt, EndpointOrder.Clean(u.doc.endpoints), h);
    SameHashes(OrZero(FeedEntry(st, feedID)).endpointOrder, u.doc.endpoints, u.requestURL, HashWith(c, salt), h);
  }

  lemma OrderIsNoted(c: Crypto, salt: string, entry: Option<FeedState>, u: Update, fail: Option<nat>)
    ensures var after := UpdateEntry(c, salt, entry, u, fail).0;
            after.Some? && after.value.endpointOrder ==
              EndpointOrder.Reconciled(OrZero(entry).endpointOrder, u.doc.endpoints, u.requestURL, HashWith(c, salt))
  {
  }

  lemma SameHashes(existing: seq<string>, endpoints: seq<string>, promoted: string, hash: EndpointOrder.Hash, h: string)
    ensures h in EndpointOrder.Reconciled(existing, endpoints, promoted, hash) <==>
            h in EndpointOrder.Added(EndpointOrder.HashesOf(EndpointOrder.Clean(endpoints), hash))
  {
    var doc := EndpointOrder.HashesOf(EndpointOrder.Clean(endpoints), hash);
    var before := EndpointOrder.Kept(EndpointOrder.PromotedHash(doc, promoted, hash), existing, doc);
    Recency.KeptInDocument(EndpointOrder.PromotedHash(doc, promoted, hash), existing, doc);
    AddedMentions(before + doc, h);
    AddedMentions(doc, h);
    MentionsRest(before, doc, h);
  }

  lemma MentionsRest(before: seq<string>, doc: seq<string>, h: string)
    requires forall x <- before :: x in doc
    ensures EndpointOrder.Mentions(before + doc, h) <==> EndpointOrder.Mentions(doc, h)
  {
    if EndpointOrder.Mentions(doc, h) {
      var i :| 0 <= i < |doc| && TrimSpace(doc[i]) == h;
      assert (before + doc)[|before| + i] == doc[i];
    }
    if EndpointOrder.Mentions(before + doc, h) {
      var i :| 0 <= i < |before + doc| && TrimSpace((before + doc)[i]) == h;
      assert (before + doc)[i] in doc;
    }
  }

  lemma AddedMentions(hs: seq<string>, h: string)
    ensures h in EndpointOrder.Added(hs) <==> h != "" && EndpointOrder.Mentions(hs, h)
  {
    EndpointOrder.AddedIsDedup(hs);
    InDedup(EndpointOrder.Clean(hs), h);
    EndpointOrder.InClean(hs, h);
  }
}
