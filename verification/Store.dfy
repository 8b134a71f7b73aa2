/** The operations on the state file, as functions: remote updates, reconciling from the cache, and
    resolving a setup URL. Each is one load, one change and one save under the daemon's lock. */
module Store {
  import opened Text
  import opened Model
  import opened Device
  import opened Reconcile
  import EndpointOrder

  /** What opening a ciphertext gives: a valid document, or an error. Most errors are protocol errors that ask the
      client not to retry: no key in the URL, a ciphertext for another key, a document that does not validate. A key
      that cannot be read and a ciphertext that breaks off are not. */
  datatype Opening = Opened(doc: FeedDocument) | Unopened(refused: bool)

  /** The cryptography the state file relies on: salted keys of URLs, and decryption with a URL's key. */
  datatype Crypto = Crypto(key: (string, string) -> Option<string>, open: (string, string) -> Opening) {

    function Decrypt(url: string, data: string): Option<FeedDocument> {
      match open(url, data)
      case Opened(doc) => Some(doc)
      case Unopened(_) => None
    }
  }

  datatype Error = MissingFeedId | BackendFailed(tunnel: nat) | NoKey | NotCached | NotDecrypted

  // ----- parts of the operations

  /** `newSalt` is the random salt drawn if there is none yet. */
  function WithSalt(st: State, newSalt: string): State {
    if Blank(st.salt) then st.(salt := newSalt) else st
  }

  function HashWith(c: Crypto, salt: string): EndpointOrder.Hash {
    url => c.key(salt, url)
  }

  function OrderEndpoints(c: Crypto, st: State, feedID: string, endpoints: seq<string>): seq<string> {
    if Blank(feedID) || TrimSpace(feedID) !in st.feeds then endpoints
    else EndpointOrder.Ordered(endpoints, st.feeds[TrimSpace(feedID)].endpointOrder, HashWith(c, st.salt))
  }

  function FeedEntry(st: State, feedID: string): Option<FeedState> {
    if feedID in st.feeds then Some(st.feeds[feedID]) else None
  }

  function PutEntry(st: State, feedID: string, entry: Option<FeedState>): State {
    st.(feeds := match entry case Some(fs) => st.feeds[feedID := fs] case None => st.feeds - {feedID})
  }

  /** The entry, or the zero value if there is none. */
  function OrZero(entry: Option<FeedState>): FeedState {
    if entry.Some? then entry.value else NO_FEED
  }

  function TableOf(fs: FeedState): Table {
    if fs.tunnels.Some? then fs.tunnels.value else map[]
  }

  /** What reconciling makes of a feed's entry. `fail` is the first tunnel that cannot be applied, if any. A failure
      leaves its mark on a recorded table, which is changed in place, but not on one that did not exist yet. */
  function ReconcileEntry(entry: Option<FeedState>, ts: seq<Tunnel>, fail: Option<nat>): (Option<FeedState>, Option<Error>) {
    var fs := OrZero(entry);
    if fail.Some? && fail.value < |ts| then
      (if fs.tunnels.None? then entry
       else Some(fs.(tunnels := Some(Interrupted(TableOf(fs), ts, fail.value)))),
       Some(BackendFailed(fail.value)))
    else (Some(fs.(tunnels := Some(Reconciled(TableOf(fs), ts)))), None)
  }

  function ApplyFeed(st: State, doc: FeedDocument, fail: Option<nat>): (State, Option<Error>) {
    var feedID := TrimSpace(doc.id);
    if feedID == "" then (st, Some(MissingFeedId))
    else
      var (entry, err) := ReconcileEntry(FeedEntry(st, feedID), doc.tunnels, fail);
      (PutEntry(st, feedID, entry), err)
  }

  /** A successful response and where it came from. */
  datatype Update = Update(
    setupURL: string, requestURL: string, doc: FeedDocument, revision: string, ttl: int, cached: string)

  /** The entry after recording what came with the update, before reconciling. */
  function NoteEntry(c: Crypto, salt: string, entry: Option<FeedState>, u: Update): FeedState {
    var fs := OrZero(entry);
    var order := EndpointOrder.Reconciled(fs.endpointOrder, u.doc.endpoints, u.requestURL, HashWith(c, salt));
    fs.(endpointOrder := order, ttl := Some(u.ttl), cached := TrimSpace(u.cached))
  }

  /** Only reconcile when the revision differs from the one last reconciled. */
  predicate Gated(fs: FeedState, revision: string) {
    !Blank(revision) && TrimSpace(fs.lastReconciledRevision) == TrimSpace(revision)
  }

  /** What a remote update makes of its feed's entry. */
  function UpdateEntry(c: Crypto, salt: string, entry: Option<FeedState>, u: Update, fail: Option<nat>): (Option<FeedState>, Option<Error>) {
    var noted := NoteEntry(c, salt, entry, u);
    if Gated(noted, u.revision) then (Some(noted), None)
    else
      var (reconciled, err) := ReconcileEntry(Some(noted), u.doc.tunnels, fail);
      if err.Some? then (reconciled, err)
      else (Some(reconciled.value.(lastReconciledRevision := TrimSpace(u.revision))), None)
  }

  function ApplyRemoteUpdate(c: Crypto, st: State, u: Update, fail: Option<nat>, newSalt: string): (State, Option<Error>) {
    var feedID := TrimSpace(u.doc.id);
    if feedID == "" then (st, Some(MissingFeedId))
    else
      var st1 := WithSalt(st, newSalt);
      var key := c.key(st1.salt, u.setupURL);
      if key.None? then (st1, Some(NoKey))
      else
        var (entry, err) := UpdateEntry(c, st1.salt, FeedEntry(st1, feedID), u, fail);
        (PutEntry(st1.(setupURLMap := st1.setupURLMap[key.value := feedID]), feedID, entry), err)
  }

  /** Forced reconciliation from the cached document, while offline. */
  function ReconcileFromCache(c: Crypto, st: State, setupURL: string, feedID: string, fail: Option<nat>): (State, Option<Error>) {
    var id := TrimSpace(feedID);
    if id == "" || id !in st.feeds || Blank(st.feeds[id].cached) then (st, Some(NotCached))
    else match c.Decrypt(setupURL, st.feeds[id].cached)
      case None => (st, Some(NotDecrypted))
      case Some(doc) => ApplyFeed(st, doc, fail)
  }

  datatype Resolution = Unresolved(error: Error) | Resolved(feedID: string, endpoints: seq<string>)

  /** What the state file knows about a setup URL before any network request. */
  function Resolve(c: Crypto, st: State, setupURL: string, newSalt: string): (State, Resolution) {
    var st1 := WithSalt(st, newSalt);
    var key := c.key(st1.salt, TrimSpace(setupURL));
    if key.None? then (st1, Unresolved(NoKey)) else ResolveKey(c, st1, TrimSpace(setupURL), key.value)
  }

  /** A cached document that names another feed wins over the mapping, and corrects it. */
  function ResolveKey(c: Crypto, st: State, setupURL: string, key: string): (State, Resolution) {
    var feedID := if key in st.setupURLMap then TrimSpace(st.setupURLMap[key]) else "";
    if feedID == "" || feedID !in st.feeds || Blank(st.feeds[feedID].cached) then (st, Resolved(feedID, []))
    else match c.Decrypt(setupURL, st.feeds[feedID].cached)
      case None => (st, Unresolved(NotDecrypted))
      case Some(doc) =>
        var cachedID := TrimSpace(doc.id);
        if cachedID != "" && cachedID != feedID then
          (st.(setupURLMap := st.setupURLMap[key := cachedID]), Resolved(cachedID, OrderEndpoints(c, st, cachedID, doc.endpoints)))
        else (st, Resolved(feedID, OrderEndpoints(c, st, feedID, doc.endpoints)))
  }

  // ----- runs of operations

  datatype Op =
    | Remote(update: Update, fail: Option<nat>, newSalt: string)
    | FromCache(setupURL: string, feedID: string, fail: Option<nat>)
    | Lookup(setupURL: string, newSalt: string)

  function Exec(c: Crypto, st: State, op: Op): State {
    match op
    case Remote(u, fail, newSalt) => ApplyRemoteUpdate(c, st, u, fail, newSalt).0
    case FromCache(setupURL, feedID, fail) => ReconcileFromCache(c, st, setupURL, feedID, fail).0
    case Lookup(setupURL, newSalt) => Resolve(c, st, setupURL, newSalt).0
  }

  function Run(c: Crypto, st: State, ops: seq<Op>): State {
    if ops == [] then st else Exec(c, Run(c, st, ops[..|ops| - 1]), ops[|ops| - 1])
  }

  /** The feed an operation is about; looking up is about none. */
  function FeedOf(op: Op): Option<string> {
    match op
    case Remote(u, _, _) => Some(TrimSpace(u.doc.id))
    case FromCache(_, feedID, _) => Some(TrimSpace(feedID))
    case Lookup(_, _) => None
  }

  /** What this URL's key can decrypt is documents of this feed. */
  ghost predicate KeepsId(c: Crypto, op: Op) {
    op.FromCache? ==> forall data, doc :: c.Decrypt(op.setupURL, data) == Some(doc) ==> TrimSpace(doc.id) == TrimSpace(op.feedID)
  }

  // ----- what an operation asks of the backend

  /** The tunnels to reconcile, and what was recorded of them before. */
  datatype Work = Work(recorded: Table, tunnels: seq<Tunnel>)

  function FeedWork(st: State, doc: FeedDocument): Option<Work> {
    if Blank(doc.id) then None else Some(Work(TableOf(FeedAt(st, TrimSpace(doc.id))), doc.tunnels))
  }

  function UpdateWork(c: Crypto, st: State, u: Update, newSalt: string): Option<Work> {
    if Blank(u.doc.id) || c.key(WithSalt(st, newSalt).salt, u.setupURL).None? || Gated(FeedAt(st, TrimSpace(u.doc.id)), u.revision)
    then None else FeedWork(st, u.doc)
  }

  function CacheWork(c: Crypto, st: State, setupURL: string, feedID: string): Option<Work> {
    var id := TrimSpace(feedID);
    if id == "" || id !in st.feeds || Blank(st.feeds[id].cached) then None
    else match c.Decrypt(setupURL, st.feeds[id].cached)
      case None => None
      case Some(doc) => FeedWork(st, doc)
  }

  function WorkOf(c: Crypto, st: State, op: Op): Option<Work> {
    match op
    case Remote(u, _, newSalt) => UpdateWork(c, st, u, newSalt)
    case FromCache(setupURL, feedID, _) => CacheWork(c, st, setupURL, feedID)
    case Lookup(_, _) => None
  }

  /** The history that doing the work made. */
  ghost predicate Did(work: Option<Work>, fail: Option<nat>, es: seq<Event>) {
    if work.None? then es == [] && fail.None? else Made(es, work.value.recorded, work.value.tunnels, fail)
  }

  // ----- one feed at a time

  lemma EntryAfterPut(st: State, feedID: string, entry: Option<FeedState>, other: string)
    ensures FeedEntry(PutEntry(st, feedID, entry), other) == if other == feedID then entry else FeedEntry(st, other)
  {
  }

  lemma PutSame(st: State, feedID: string)
    ensures PutEntry(st, feedID, FeedEntry(st, feedID)) == st
  {
    assert PutEntry(st, feedID, FeedEntry(st, feedID)).feeds == st.feeds;
  }

  lemma PutTwice(st: State, feedID: string, entry: Option<FeedState>, entry': Option<FeedState>)
    ensures PutEntry(PutEntry(st, feedID, entry), feedID, entry') == PutEntry(st, feedID, entry')
  {
    assert PutEntry(PutEntry(st, feedID, entry), feedID, entry').feeds == PutEntry(st, feedID, entry').feeds;
  }

  /** An update files everything under its document's own id, whoever sent it. */
  lemma UpdateTouchesOnlyItsFeed(c: Crypto, st: State, u: Update, fail: Option<nat>, newSalt: string, other: string)
    requires other != TrimSpace(u.doc.id)
    ensures FeedEntry(ApplyRemoteUpdate(c, st, u, fail, newSalt).0, other) == FeedEntry(st, other)
  {
    var feedID, st1 := TrimSpace(u.doc.id), WithSalt(st, newSalt);
    var key := c.key(st1.salt, u.setupURL);
    if feedID != "" && key.Some? {
      var mapped := st1.(setupURLMap := st1.setupURLMap[key.value := feedID]);
      EntryAfterPut(mapped, feedID, UpdateEntry(c, st1.salt, FeedEntry(st1, feedID), u, fail).0, other);
    }
  }

  /** Reconciling from a cache that cannot be opened changes nothing. */
  lemma UnreadableCacheChangesNothing(c: Crypto, st: State, setupURL: string, feedID: string, fail: Option<nat>)
    requires TrimSpace(feedID) in st.feeds && c.Decrypt(setupURL, st.feeds[TrimSpace(feedID)].cached).None?
    ensures ReconcileFromCache(c, st, setupURL, feedID, fail).0 == st
  {
  }

  lemma FromCacheTouchesOnlyItsFeed(c: Crypto, st: State, setupURL: string, feedID: string, fail: Option<nat>, other: string)
    requires KeepsId(c, FromCache(setupURL, feedID, fail)) && other != TrimSpace(feedID)
    ensures FeedEntry(ReconcileFromCache(c, st, setupURL, feedID, fail).0, other) == FeedEntry(st, other)
  {
    var id := TrimSpace(feedID);
    if id in st.feeds && c.Decrypt(setupURL, st.feeds[id].cached).Some? {
      var doc := c.Decrypt(setupURL, st.feeds[id].cached).value;
      assert TrimSpace(doc.id) == id;
      EntryAfterPut(st, id, ReconcileEntry(FeedEntry(st, id), doc.tunnels, fail).0, other);
    }
  }

  /** What reconciling from the cache makes of the feed's entry. */
  function FromCacheEntry(c: Crypto, entry: Option<FeedState>, setupURL: string, feedID: string, fail: Option<nat>): Option<FeedState> {
    if TrimSpace(feedID) == "" || entry.None? || Blank(entry.value.cached) then entry
    else match c.Decrypt(setupURL, entry.value.cached)
      case None => entry
      case Some(doc) => ReconcileEntry(entry, doc.tunnels, fail).0
  }

  lemma FromCacheReadsOnlyItsFeed(c: Crypto, st: State, setupURL: string, feedID: string, fail: Option<nat>)
    requires KeepsId(c, FromCache(setupURL, feedID, fail))
    ensures var id := TrimSpace(feedID);
            FeedEntry(ReconcileFromCache(c, st, setupURL, feedID, fail).0, id) ==
            FromCacheEntry(c, FeedEntry(st, id), setupURL, feedID, fail)
  {
    var id := TrimSpace(feedID);
    if id in st.feeds && c.Decrypt(setupURL, st.feeds[id].cached).Some? {
      var doc := c.Decrypt(setupURL, st.feeds[id].cached).value;
      assert TrimSpace(doc.id) == id;
      EntryAfterPut(st, id, ReconcileEntry(FeedEntry(st, id), doc.tunnels, fail).0, id);
    }
  }

  /** A salt, once there, stays. */
  lemma SaltStays(c: Crypto, st: State, op: Op)
    requires !Blank(st.salt)
    ensures Exec(c, st, op).salt == st.salt
  {
    if op.Lookup? {
      LookupTouchesNoFeed(c, st, op.setupURL, op.newSalt);
    }
    if op.FromCache? {
      var id := TrimSpace(op.feedID);
      if id in st.feeds && c.Decrypt(op.setupURL, st.feeds[id].cached).Some? {
        assert ApplyFeed(st, c.Decrypt(op.setupURL, st.feeds[id].cached).value, op.fail).0.salt == st.salt;
      }
    }
  }

  lemma KeyTouchesNoFeed(c: Crypto, st: State, setupURL: string, key: string)
    ensures ResolveKey(c, st, setupURL, key).0.feeds == st.feeds
    ensures ResolveKey(c, st, setupURL, key).0.salt == st.salt
  {
  }

  lemma LookupTouchesNoFeed(c: Crypto, st: State, setupURL: string, newSalt: string)
    ensures Resolve(c, st, setupURL, newSalt).0.feeds == st.feeds
    ensures !Blank(st.salt) ==> Resolve(c, st, setupURL, newSalt).0.salt == st.salt
  {
    var st1 := WithSalt(st, newSalt);
    var key := c.key(st1.salt, TrimSpace(setupURL));
    if key.Some? {
      KeyTouchesNoFeed(c, st1, TrimSpace(setupURL), key.value);
    }
  }

  lemma ExecTouchesOnlyItsFeed(c: Crypto, st: State, op: Op, other: string)
    requires KeepsId(c, op) && FeedOf(op) != Some(other)
    ensures FeedEntry(Exec(c, st, op), other) == FeedEntry(st, other)
  {
    match op
    case Remote(u, fail, newSalt) => UpdateTouchesOnlyItsFeed(c, st, u, fail, newSalt, other);
    case FromCache(setupURL, feedID, fail) => FromCacheTouchesOnlyItsFeed(c, st, setupURL, feedID, fail, other);
    case Lookup(setupURL, newSalt) => LookupTouchesNoFeed(c, st, setupURL, newSalt);
  }

  /** What an operation makes of its own feed's entry. */
  function EntryAfter(c: Crypto, salt: string, entry: Option<FeedState>, op: Op): Option<FeedState> {
    match op
    case Remote(u, fail, _) =>
      if TrimSpace(u.doc.id) == "" || c.key(salt, u.setupURL).None? then entry
      else UpdateEntry(c, salt, entry, u, fail).0
    case FromCache(setupURL, feedID, fail) => FromCacheEntry(c, entry, setupURL, feedID, fail)
    case Lookup(_, _) => entry
  }

  /** What an operation makes of its feed depends on nothing but the salt and that feed's own entry. */
  lemma ExecReadsOnlyItsFeed(c: Crypto, st: State, op: Op, feedID: string)
    requires KeepsId(c, op) && FeedOf(op) == Some(feedID) && !Blank(st.salt)
    ensures FeedEntry(Exec(c, st, op), feedID) == EntryAfter(c, st.salt, FeedEntry(st, feedID), op)
  {
    match op
    case Remote(u, fail, newSalt) =>
      var key := c.key(st.salt, u.setupURL);
      if feedID != "" && key.Some? {
        var noted := st.(setupURLMap := st.setupURLMap[key.value := feedID]);
        EntryAfterPut(noted, feedID, UpdateEntry(c, st.salt, FeedEntry(st, feedID), u, fail).0, feedID);
      }
    case FromCache(setupURL, id, fail) => FromCacheReadsOnlyItsFeed(c, st, setupURL, id, fail);
  }

  function Select(ops: seq<Op>, feedID: string): seq<Op> {
    if ops == [] then []
    else
      var front := Select(ops[..|ops| - 1], feedID);
      if FeedOf(ops[|ops| - 1]) == Some(feedID) then front + [ops[|ops| - 1]] else front
  }

  /** A feed's entry after its own operations alone. */
  function EntryRun(c: Crypto, salt: string, entry: Option<FeedState>, ops: seq<Op>): Option<FeedState> {
    if ops == [] then entry else EntryAfter(c, salt, EntryRun(c, salt, entry, ops[..|ops| - 1]), ops[|ops| - 1])
  }

  lemma {:induction false} RunIsEntryRun(c: Crypto, st: State, ops: seq<Op>, feedID: string)
    requires !Blank(st.salt) && forall op <- ops :: KeepsId(c, op)
    ensures FeedEntry(Run(c, st, ops), feedID) == EntryRun(c, st.salt, FeedEntry(st, feedID), Select(ops, feedID))
    ensures Run(c, st, ops).salt == st.salt
  {
    if ops != [] {
      var front, op := ops[..|ops| - 1], ops[|ops| - 1];
      assert op in ops && forall o <- front :: o in ops;
      RunIsEntryRun(c, st, front, feedID);
      SaltStays(c, Run(c, st, front), op);
      if FeedOf(op) == Some(feedID) {
        ExecReadsOnlyItsFeed(c, Run(c, st, front), op, feedID);
        var own := Select(ops, feedID);
        assert own[..|own| - 1] == Select(front, feedID);
      } else {
        ExecTouchesOnlyItsFeed(c, Run(c, st, front), op, feedID);
      }
    }
  }

  lemma {:induction false} SelectSelected(ops: seq<Op>, feedID: string)
    ensures Select(Select(ops, feedID), feedID) == Select(ops, feedID)
    ensures forall op <- Select(ops, feedID) :: op in ops && FeedOf(op) == Some(feedID)
  {
    if ops != [] {
      var front, op := ops[..|ops| - 1], ops[|ops| - 1];
      SelectSelected(front, feedID);
      var own := Select(ops, feedID);
      if FeedOf(op) == Some(feedID) {
        assert own[..|own| - 1] == Select(front, feedID);
      }
    }
  }

  /** Non-interference: interleaved with any other feeds' operations, a feed's entry is what its own
      operations alone would have made it, in order. No update is lost, and the salt never changes. */
  lemma OnlyOwnOperationsMatter(c: Crypto, st: State, ops: seq<Op>, feedID: string)
    requires !Blank(st.salt) && forall op <- ops :: KeepsId(c, op)
    ensures FeedEntry(Run(c, st, ops), feedID) == FeedEntry(Run(c, st, Select(ops, feedID)), feedID)
    ensures Run(c, st, ops).salt == st.salt
  {
    SelectSelected(ops, feedID);
    RunIsEntryRun(c, st, ops, feedID);
    RunIsEntryRun(c, st, Select(ops, feedID), feedID);
  }
}
