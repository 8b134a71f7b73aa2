/** What an update leaves behind for the next start and for the time offline. */
module Restart {
  import opened Text
  import opened Model
  import opened Lists
  import opened Store
  import EndpointOrder
  import Recency

  /** The update got as far as its feed's entry: it names a feed, and its setup URL has a key. */
  predicate Filed(c: Crypto, st: State, u: Update, newSalt: string) {
    && !Blank(u.doc.id)
    && !Blank(WithSalt(st, newSalt).salt) && c.key(WithSalt(st, newSalt).salt, u.setupURL).Some?
  }

  /** The ciphertext the update came in opens to its document. */
  predicate Opens(c: Crypto, u: Update) {
    !Blank(u.cached) && c.Decrypt(u.setupURL, TrimSpace(u.cached)) == Some(u.doc)
  }

  lemma ReconcilingKeepsNotes(entry: FeedState, ts: seq<Tunnel>, fail: Option<nat>)
    ensures var after := ReconcileEntry(Some(entry), ts, fail).0;
            after.Some? && after.value.cached == entry.cached && after.value.ttl == entry.ttl && after.value.endpointOrder == entry.endpointOrder
  {
  }

  /** Whether or not its tunnels could be applied, a filed update is in its feed's entry. */
  lemma UpdateIsFiled(c: Crypto, st: State, u: Update, fail: Option<nat>, newSalt: string)
    requires Filed(c, st, u, newSalt)
    ensures var after, feedID := ApplyRemoteUpdate(c, st, u, fail, newSalt).0, TrimSpace(u.doc.id);
            && after.salt == WithSalt(st, newSalt).salt
            && c.key(after.salt, u.setupURL).value in after.setupURLMap
            && after.setupURLMap[c.key(after.salt, u.setupURL).value] == feedID
            && feedID in after.feeds
            && after.feeds[feedID].cached == TrimSpace(u.cached) && after.feeds[feedID].ttl == Some(u.ttl)
            && after.feeds[feedID].endpointOrder ==
               EndpointOrder.Reconciled(FeedAt(st, feedID).endpointOrder, u.doc.endpoints, u.requestURL, HashWith(c, after.salt))
  {
    var st1, feedID := WithSalt(st, newSalt), TrimSpace(u.doc.id);
    var noted := NoteEntry(c, st1.salt, FeedEntry(st1, feedID), u);
    ReconcilingKeepsNotes(noted, u.doc.tunnels, fail);
  }

  lemma FiledResolves(c: Crypto, st: State, url: string, otherSalt: string, feedID: string)
    requires !Blank(st.salt) && Trimmed(url) && c.key(st.salt, url).Some? && c.key(st.salt, url).value in st.setupURLMap
    requires st.setupURLMap[c.key(st.salt, url).value] == feedID && feedID != "" && Trimmed(feedID) && feedID in st.feeds
    ensures Blank(st.feeds[feedID].cached) ==> Resolve(c, st, url, otherSalt) == (st, Resolved(feedID, []))
    ensures !Blank(st.feeds[feedID].cached) ==>
              var doc := c.Decrypt(url, st.feeds[feedID].cached);
              doc.Some? && TrimSpace(doc.value.id) == feedID ==>
                Resolve(c, st, url, otherSalt) == (st, Resolved(feedID, OrderEndpoints(c, st, feedID, doc.value.endpoints)))
  {
    assert Resolve(c, st, url, otherSalt) == ResolveKey(c, st, url, c.key(st.salt, url).value);
  }

  /** After a restart the setup URL resolves to the updated feed and to the endpoints of the updated document, in
      preference order, without any request. Feeds that came unencrypted leave no endpoints to resume with. */
  lemma RestartResumes(c: Crypto, st: State, u: Update, fail: Option<nat>, newSalt: string, otherSalt: string)
    requires Filed(c, st, u, newSalt) && Trimmed(u.setupURL)
    ensures var after, feedID := ApplyRemoteUpdate(c, st, u, fail, newSalt).0, TrimSpace(u.doc.id);
            && (Blank(u.cached) ==> Resolve(c, after, u.setupURL, otherSalt) == (after, Resolved(feedID, [])))
            && (Opens(c, u) ==>
                  Resolve(c, after, u.setupURL, otherSalt) == (after, Resolved(feedID, OrderEndpoints(c, after, feedID, u.doc.endpoints))))
  {
    UpdateIsFiled(c, st, u, fail, newSalt);
    FiledResolves(c, ApplyRemoteUpdate(c, st, u, fail, newSalt).0, u.setupURL, otherSalt, TrimSpace(u.doc.id));
  }

  /** The endpoint that brought the update is the first to be tried then. */
  lemma LastSuccessIsTriedFirst(c: Crypto, st: State, u: Update, fail: Option<nat>, newSalt: string, otherSalt: string)
    requires Filed(c, st, u, newSalt) && Trimmed(u.setupURL) && Opens(c, u)
    requires NoDup(EndpointOrder.Clean(u.doc.endpoints)) && u.requestURL in EndpointOrder.Clean(u.doc.endpoints)
    requires Recency.HashWorks(EndpointOrder.Clean(u.doc.endpoints), HashWith(c, WithSalt(st, newSalt).salt))
    ensures var r := Resolve(c, ApplyRemoteUpdate(c, st, u, fail, newSalt).0, u.setupURL, otherSalt).1;
            r.Resolved? && r.endpoints != [] && r.endpoints[0] == u.requestURL
  {
    UpdateIsFiled(c, st, u, fail, newSalt);
    RestartResumes(c, st, u, fail, newSalt, otherSalt);
    var hash := HashWith(c, WithSalt(st, newSalt).salt);
    Recency.PromotedIsTriedFirst(FeedAt(st, TrimSpace(u.doc.id)).endpointOrder, u.doc.endpoints, u.requestURL, hash);
  }

  /** While offline it is the updated document that is reconciled. */
  lemma OfflineReconcilesTheUpdate(c: Crypto, st: State, u: Update, fail: Option<nat>, newSalt: string, later: Option<nat>)
    requires Filed(c, st, u, newSalt) && Opens(c, u)
    ensures var after := ApplyRemoteUpdate(c, st, u, fail, newSalt).0;
            && ReconcileFromCache(c, after, u.setupURL, u.doc.id, later) == ApplyFeed(after, u.doc, later)
            && CacheWork(c, after, u.setupURL, u.doc.id) == FeedWork(after, u.doc)
  {
    UpdateIsFiled(c, st, u, fail, newSalt);
  }
}
