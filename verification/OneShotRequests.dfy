/** Whom a one-shot run contacts, and what it makes of the answer. */
module OneShotRequests {
  import opened Text
  import opened Lists
  import opened Model
  import opened Failover
  import opened OneShot
  import opened UpdateOutcome
  import Daemon
  import EndpointOrder
  import Recency
  import Store

  function KeyFor(c: Store.Crypto, st: State, q: Request): Option<string> {
    c.key(SaltOf(st, q.newSalt), TrimSpace(q.url))
  }

  /** The setup URL's feed has a cached document that opens. */
  predicate Knows(c: Store.Crypto, st: State, q: Request, feedID: string, doc: FeedDocument) {
    Caches(c, st, TrimSpace(q.url), q.newSalt, feedID, doc)
  }

  lemma KnownInOrder(c: Store.Crypto, st: State, q: Request, feedID: string, doc: FeedDocument)
    requires Knows(c, st, q, feedID, doc) && ValidDocument(doc)
    ensures var salted, order := Store.WithSalt(st, q.newSalt), StoredOrder(c, st, q.newSalt, feedID, doc);
            && salted == st.(salt := SaltOf(st, q.newSalt)) && MappedFeed(salted, KeyFor(c, st, q).value) == feedID
            && KnownEndpoints(c, salted, TrimSpace(q.url), KeyFor(c, st, q).value) == Some(order)
            && order != [] && forall e <- order :: e != "" && Trimmed(e)
  {
    var salted, order := Store.WithSalt(st, q.newSalt), StoredOrder(c, st, q.newSalt, feedID, doc);
    OrderedByStore(c, salted, feedID, doc.endpoints);
    StoredIsClean(c, st, q.newSalt, feedID, doc);
  }

  lemma StoredIsClean(c: Store.Crypto, st: State, newSalt: string, feedID: string, doc: FeedDocument)
    requires feedID in st.feeds && ValidDocument(doc)
    ensures var order := StoredOrder(c, st, newSalt, feedID, doc); order != [] && forall e <- order :: e != "" && Trimmed(e)
  {
    Recency.OrderKeepsEndpoints(doc.endpoints, st.feeds[feedID].endpointOrder, Store.HashWith(c, SaltOf(st, newSalt)));
    EndpointOrder.CleanIsClean(doc.endpoints);
    assert doc.endpoints[0] in doc.endpoints;
    EndpointOrder.InClean(doc.endpoints, TrimSpace(doc.endpoints[0]));
    assert TrimSpace(doc.endpoints[0]) in StoredOrder(c, st, newSalt, feedID, doc);
  }

  /** Once endpoints are known, the setup URL is not asked: what it would answer makes no difference. */
  lemma SetupURLIsNotAsked(c: Store.Crypto, p: Progress, q: Request, feedID: string, doc: FeedDocument, direct: Failover.Outcome<Daemon.Response>)
    requires Knows(c, p.st, q, feedID, doc) && ValidDocument(doc)
    ensures AfterOne(c, p, q.(direct := direct)) == AfterOne(c, p, q)
  {
    KnownInOrder(c, p.st, q, feedID, doc);
    KnownInOrder(c, p.st, q.(direct := direct), feedID, doc);
  }

  /** Nothing is cached for the setup URL's feed. */
  predicate NothingKnown(c: Store.Crypto, st: State, q: Request) {
    var key := KeyFor(c, st, q);
    && key.Some?
    && (key.value in st.setupURLMap ==>
          var feedID := TrimSpace(st.setupURLMap[key.value]);
          feedID == "" || feedID !in st.feeds || Blank(st.feeds[feedID].cached))
  }

  lemma DirectRequest(c: Store.Crypto, st: State, q: Request)
    requires NothingKnown(c, st, q)
    ensures var salted := st.(salt := SaltOf(st, q.newSalt));
            Requested(c, st, q) ==
            if q.direct.Success? then (salted, Some(Receipt(KeyFor(c, st, q).value, salted, q.direct.result)), NotFetched) else (salted, None, NotFetched)
  {
    var salted := st.(salt := SaltOf(st, q.newSalt));
    assert salted == Store.WithSalt(st, q.newSalt);
    assert KnownEndpoints(c, salted, TrimSpace(q.url), KeyFor(c, st, q).value) == Some([]);
  }

  /** Without known endpoints only the setup URL is asked: what any endpoint would answer makes no difference. */
  lemma OnlySetupURLIsAsked(c: Store.Crypto, p: Progress, q: Request, replies: string -> Failover.Outcome<Daemon.Response>)
    requires NothingKnown(c, p.st, q)
    ensures AfterOne(c, p, q.(replies := replies)) == AfterOne(c, p, q)
  {
    DirectRequest(c, p.st, q);
    DirectRequest(c, p.st, q.(replies := replies));
  }

  // ----- what becomes of the answer

  /** The answer `r` was dealt with: its feed ignored if it was seen before, and otherwise mapped and reconciled. */
  ghost predicate Dealt(c: Store.Crypto, p: Progress, q: Request, r: Daemon.Response, after: Progress) {
    var feedID := TrimSpace(r.doc.id);
    if feedID == "" then after.stop == Some(Refused(Store.MissingFeedId)) && after.seen == p.seen
    else if feedID in p.seen then after.stop == None && after.seen == p.seen
    else
      && after.seen == p.seen[feedID := TrimSpace(q.url)]
      && KeyFor(c, p.st, q).Some? && after.st.setupURLMap == p.st.setupURLMap[KeyFor(c, p.st, q).value := feedID]
      && if q.fail.Some? && q.fail.value < |r.doc.tunnels| then after.stop == Some(Refused(Store.BackendFailed(q.fail.value)))
         else after.stop == None && (DistinctIds(r.doc.tunnels) ==> Holds(FeedAt(after.st, feedID), r))
  }

  lemma SettledIsDealt(c: Store.Crypto, p: Progress, q: Request, receipt: Receipt)
    requires KeyFor(c, p.st, q) == Some(receipt.key) && receipt.st.setupURLMap == p.st.setupURLMap
    ensures Dealt(c, p, q, receipt.response, Settle(p.seen, receipt, TrimSpace(q.url), q.fail))
  {
    if DistinctIds(receipt.response.doc.tunnels) && File(receipt.st, receipt.key, receipt.response, q.fail).1.None? {
      FiledHolds(receipt.st, receipt.key, receipt.response, q.fail);
    }
  }

  /** Endpoint `i` of the stored order is the first that answers. */
  ghost predicate AnswersFirst(q: Request, order: seq<string>, i: nat, r: Daemon.Response) {
    i < |order| && q.replies(order[i]) == Success(r) && forall j :: 0 <= j < i ==> q.replies(order[j]).Error?
  }

  lemma FirstAnswerIsFound(q: Request, order: seq<string>, i: nat, r: Daemon.Response)
    requires AnswersFirst(q, order, i, r) && forall e <- order :: e != "" && Trimmed(e)
    ensures PassOver(Normalized(order), q.replies) == Found(r, order[i])
  {
    assert order[i] in order && TrimSpace(order[i]) == order[i];
    forall j | 0 <= j < i ensures PassedOver(order, q.replies, j) {
      assert order[j] in order && TrimSpace(order[j]) == order[j];
    }
    assert SucceedsAt(order, q.replies, i, r, order[i]);
    DecidedInOrder(order, q.replies, Found(r, order[i]));
    PassOverDecides(Normalized(order), q.replies);
    OneDecision(Normalized(order), q.replies, Found(r, order[i]), PassOver(Normalized(order), q.replies));
  }

  lemma AnswerIsReceived(c: Store.Crypto, st: State, q: Request, feedID: string, doc: FeedDocument, i: nat, r: Daemon.Response)
    requires Knows(c, st, q, feedID, doc) && ValidDocument(doc)
    requires AnswersFirst(q, StoredOrder(c, st, q.newSalt, feedID, doc), i, r)
    ensures var st', used := st.(salt := SaltOf(st, q.newSalt)), StoredOrder(c, st, q.newSalt, feedID, doc)[i];
            var promoted := Promote(c, st', feedID, r.doc.endpoints, used);
            Requested(c, st, q).0 == promoted && Requested(c, st, q).1 == Some(Receipt(KeyFor(c, st, q).value, promoted, r))
  {
    KnownInOrder(c, st, q, feedID, doc);
    FirstAnswerIsFound(q, StoredOrder(c, st, q.newSalt, feedID, doc), i, r);
  }

  /** The known endpoints are asked in stored preference order, and the first answer is the one that is dealt with. */
  lemma FirstAnswerIsDealt(c: Store.Crypto, p: Progress, q: Request, feedID: string, doc: FeedDocument, i: nat, r: Daemon.Response)
    requires Knows(c, p.st, q, feedID, doc) && ValidDocument(doc)
    requires AnswersFirst(q, StoredOrder(c, p.st, q.newSalt, feedID, doc), i, r)
    ensures Dealt(c, p, q, r, AfterOne(c, p, q))
  {
    AnswerIsReceived(c, p.st, q, feedID, doc, i, r);
    SettledIsDealt(c, p, q, Requested(c, p.st, q).1.value);
  }

  /** If none of them answers, the run stops, and nothing but a missing salt changes. */
  lemma NoAnswerStops(c: Store.Crypto, p: Progress, q: Request, feedID: string, doc: FeedDocument)
    requires Knows(c, p.st, q, feedID, doc) && ValidDocument(doc)
    requires forall e <- StoredOrder(c, p.st, q.newSalt, feedID, doc) :: q.replies(e).Error?
    ensures AfterOne(c, p, q) == Progress(p.st.(salt := SaltOf(p.st, q.newSalt)), p.seen, Some(NotFetched))
  {
    var order := StoredOrder(c, p.st, q.newSalt, feedID, doc);
    KnownInOrder(c, p.st, q, feedID, doc);
    NormalizedIsClean(order);
    EndpointOrder.CleanOfClean(order);
    PassOverDecides(Normalized(order), q.replies);
    assert !PassOver(Normalized(order), q.replies).Found?;
  }

  /** Without known endpoints the setup URL's own answer is dealt with, and without an answer the run stops. */
  lemma DirectAnswerIsDealt(c: Store.Crypto, p: Progress, q: Request)
    requires NothingKnown(c, p.st, q)
    ensures match q.direct
            case Success(r) => Dealt(c, p, q, r, AfterOne(c, p, q))
            case Error(_) => AfterOne(c, p, q) == Progress(p.st.(salt := SaltOf(p.st, q.newSalt)), p.seen, Some(NotFetched))
  {
    DirectRequest(c, p.st, q);
    if q.direct.Success? {
      SettledIsDealt(c, p, q, Requested(c, p.st, q).1.value);
    }
  }

  lemma RefusedWithoutKey(c: Store.Crypto, p: Progress, q: Request)
    requires KeyFor(c, p.st, q).None?
    ensures AfterOne(c, p, q) == Progress(p.st.(salt := SaltOf(p.st, q.newSalt)), p.seen, Some(Refused(Store.NoKey)))
  {
  }

  lemma RefusedUnopened(c: Store.Crypto, p: Progress, q: Request)
    requires KeyFor(c, p.st, q).Some? && !NothingKnown(c, p.st, q)
    requires c.open(TrimSpace(q.url), p.st.feeds[TrimSpace(p.st.setupURLMap[KeyFor(c, p.st, q).value])].cached).Unopened?
    ensures AfterOne(c, p, q) == Progress(p.st.(salt := SaltOf(p.st, q.newSalt)), p.seen, Some(Refused(Store.NotDecrypted)))
  {
    var salted := p.st.(salt := SaltOf(p.st, q.newSalt));
    assert salted == Store.WithSalt(p.st, q.newSalt);
    assert KnownEndpoints(c, salted, TrimSpace(q.url), KeyFor(c, p.st, q).value) == None;
  }

  /** A URL without a key, or a cached document that does not open, stops the run before any request. */
  lemma RefusedBeforeAsking(c: Store.Crypto, p: Progress, q: Request)
    ensures var salted := p.st.(salt := SaltOf(p.st, q.newSalt));
            match KeyFor(c, p.st, q)
            case None => AfterOne(c, p, q) == Progress(salted, p.seen, Some(Refused(Store.NoKey)))
            case Some(key) =>
              !NothingKnown(c, p.st, q) && c.open(TrimSpace(q.url), p.st.feeds[TrimSpace(p.st.setupURLMap[key])].cached).Unopened? ==>
                AfterOne(c, p, q) == Progress(salted, p.seen, Some(Refused(Store.NotDecrypted)))
  {
    var key := KeyFor(c, p.st, q);
    if key.None? {
      RefusedWithoutKey(c, p, q);
    } else if !NothingKnown(c, p.st, q) && c.open(TrimSpace(q.url), p.st.feeds[TrimSpace(p.st.setupURLMap[key.value])].cached).Unopened? {
      RefusedUnopened(c, p, q);
    }
  }

  // ----- preference

  lemma PromotionShows(c: Store.Crypto, st: State, feedID: string, endpoints: seq<string>, used: string)
    requires feedID != "" && Trimmed(feedID)
    requires NoDup(EndpointOrder.Clean(endpoints)) && used in EndpointOrder.Clean(endpoints)
    requires Recency.HashWorks(EndpointOrder.Clean(endpoints), Store.HashWith(c, st.salt))
    ensures var after := Promote(c, st, feedID, endpoints, used);
            && feedID in after.feeds
            && var order := EndpointOrder.Ordered(endpoints, after.feeds[feedID].endpointOrder, Store.HashWith(c, st.salt));
               order != [] && order[0] == used
  {
    Recency.PromotedIsTriedFirst(FeedAt(st, feedID).endpointOrder, endpoints, used, Store.HashWith(c, st.salt));
  }

  lemma SettlingKeepsOrder(seen: map<string, string>, receipt: Receipt, url: string, fail: Option<nat>, feedID: string)
    requires feedID in receipt.st.feeds
    ensures var after := Settle(seen, receipt, url, fail).st;
            feedID in after.feeds && after.feeds[feedID].endpointOrder == receipt.st.feeds[feedID].endpointOrder
  {
  }

  /** The endpoint that answered is the first of the stored order afterwards. */
  lemma AnsweringEndpointIsPreferred(c: Store.Crypto, p: Progress, q: Request, feedID: string, doc: FeedDocument, i: nat, r: Daemon.Response)
    requires Knows(c, p.st, q, feedID, doc) && ValidDocument(doc)
    requires AnswersFirst(q, StoredOrder(c, p.st, q.newSalt, feedID, doc), i, r)
    requires NoDup(EndpointOrder.Clean(r.doc.endpoints)) && StoredOrder(c, p.st, q.newSalt, feedID, doc)[i] in EndpointOrder.Clean(r.doc.endpoints)
    requires Recency.HashWorks(EndpointOrder.Clean(r.doc.endpoints), Store.HashWith(c, SaltOf(p.st, q.newSalt)))
    ensures var after := AfterOne(c, p, q).st;
            && feedID in after.feeds
            && var order := EndpointOrder.Ordered(r.doc.endpoints, after.feeds[feedID].endpointOrder, Store.HashWith(c, SaltOf(p.st, q.newSalt)));
               order != [] && order[0] == StoredOrder(c, p.st, q.newSalt, feedID, doc)[i]
  {
    AnswerIsReceived(c, p.st, q, feedID, doc, i, r);
    PromotionShows(c, p.st.(salt := SaltOf(p.st, q.newSalt)), feedID, r.doc.endpoints, StoredOrder(c, p.st, q.newSalt, feedID, doc)[i]);
    SettlingKeepsOrder(p.seen, Requested(c, p.st, q).1.value, TrimSpace(q.url), q.fail, feedID);
  }

  // ----- the whole run

  /** Requests after the one that stopped the run make no difference, and the state is the one it stopped in. */
  lemma {:induction false} StoppedRunStays(c: Store.Crypto, st: State, qs: seq<Request>, more: seq<Request>)
    requires AfterAll(c, st, qs).stop.Some?
    ensures AfterAll(c, st, qs + more) == AfterAll(c, st, qs)
  {
    if more == [] {
      assert qs + more == qs;
    } else {
      assert (qs + more)[..|qs + more| - 1] == qs + more[..|more| - 1];
      StoppedRunStays(c, st, qs, more[..|more| - 1]);
    }
  }
}
