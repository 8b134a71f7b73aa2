/** What holds in every reachable state of the daemon. */
module DaemonInvariants {
  import opened Text
  import opened Model
  import opened Failover
  import opened Daemon
  import Store
  import Recency
  import EndpointOrder

  /** Decryption validates: whatever decrypts is a valid document. */
  ghost predicate Validates(c: Store.Crypto) {
    forall url, data, doc :: c.Decrypt(url, data) == Some(doc) ==> ValidDocument(doc)
  }

  /** An endpoint list that normalises to a non-empty one. */
  ghost predicate Usable(endpoints: seq<string>) {
    exists e <- endpoints :: !Blank(e)
  }

  lemma UsableNormalizes(endpoints: seq<string>)
    ensures Usable(endpoints) <==> Normalized(endpoints) != []
  {
    NormalizedIsClean(endpoints);
    if Usable(endpoints) {
      var i :| 0 <= i < |endpoints| && !Blank(endpoints[i]);
      EndpointOrder.InClean(endpoints, TrimSpace(endpoints[i]));
    }
    if Normalized(endpoints) != [] {
      var e := Normalized(endpoints)[0];
      EndpointOrder.InClean(endpoints, e);
      var i :| 0 <= i < |endpoints| && TrimSpace(endpoints[i]) == e;
      EndpointOrder.CleanIsClean(endpoints);
      assert endpoints[i] in endpoints;
    }
  }

  lemma OrderedIsUsable(c: Store.Crypto, file: State, feedID: string, endpoints: seq<string>)
    requires Usable(endpoints)
    ensures Usable(Store.OrderEndpoints(c, file, feedID, endpoints))
  {
    var out := Store.OrderEndpoints(c, file, feedID, endpoints);
    if out != endpoints {
      var preferred := file.feeds[TrimSpace(feedID)].endpointOrder;
      var hash := Store.HashWith(c, file.salt);
      assert out == EndpointOrder.Ordered(endpoints, preferred, hash);
      Recency.OrderKeepsEndpoints(endpoints, preferred, hash);
      var i :| 0 <= i < |endpoints| && !Blank(endpoints[i]);
      EndpointOrder.InClean(endpoints, TrimSpace(endpoints[i]));
      assert TrimSpace(endpoints[i]) in out;
    }
  }

  lemma ValidIsUsable(doc: FeedDocument)
    requires ValidDocument(doc)
    ensures Usable(doc.endpoints)
  {
    assert doc.endpoints[0] in doc.endpoints;
  }

  lemma CachedIsUsable(c: Store.Crypto, st: State, url: string, data: string, feedID: string)
    requires Validates(c)
    ensures var doc := c.Decrypt(url, data); doc.Some? ==> Usable(Store.OrderEndpoints(c, st, feedID, doc.value.endpoints))
  {
    var doc := c.Decrypt(url, data);
    if doc.Some? {
      ValidIsUsable(doc.value);
      OrderedIsUsable(c, st, feedID, doc.value.endpoints);
    }
  }

  /** The endpoints found are usable, and belong to a feed. */
  ghost predicate Fits(r: Store.Resolution) {
    r.Resolved? ==> Trimmed(r.feedID) && (r.endpoints == [] || (r.feedID != "" && Usable(r.endpoints)))
  }

  lemma CachedFits(c: Store.Crypto, st: State, url: string, key: string, feedID: string)
    requires Validates(c) && key in st.setupURLMap && TrimSpace(st.setupURLMap[key]) == feedID && feedID in st.feeds
    ensures Fits(Store.ResolveKey(c, st, url, key).1)
  {
    var data := st.feeds[feedID].cached;
    CachedIsUsable(c, st, url, data, feedID);
    if c.Decrypt(url, data).Some? {
      CachedIsUsable(c, st, url, data, TrimSpace(c.Decrypt(url, data).value.id));
    }
  }

  lemma KeyIsUsable(c: Store.Crypto, st: State, url: string, key: string)
    requires Validates(c)
    ensures Fits(Store.ResolveKey(c, st, url, key).1)
  {
    if key in st.setupURLMap && TrimSpace(st.setupURLMap[key]) in st.feeds {
      CachedFits(c, st, url, key, TrimSpace(st.setupURLMap[key]));
    }
  }

  lemma ResolvedIsUsable(c: Store.Crypto, file: State, url: string, newSalt: string)
    requires Validates(c)
    ensures Fits(Store.Resolve(c, file, url, newSalt).1)
  {
    var st := Store.WithSalt(file, newSalt);
    var key := c.key(st.salt, TrimSpace(url));
    if key.Some? {
      KeyIsUsable(c, st, TrimSpace(url), key.value);
    }
  }

  // ----- the phase of a loop

  /** The loop is past its claim and still running. */
  predicate Active(l: Loop) {
    l.feedID != "" && !(l.phase.Start? || l.phase.Claiming? || l.phase.BootClaiming? || l.phase.Exited?)
  }

  /** What each phase guarantees about the loop's own variables. */
  ghost predicate PhaseOk(c: Store.Crypto, l: Loop) {
    && Trimmed(l.feedID)
    && (l.feedID == "" ==> l.endpoints == [])
    && (l.endpoints == [] || Usable(l.endpoints))
    && match l.phase
       case Start => l.feedID == ""
       case Claiming(found) => l.feedID != "" && (found == [] || Usable(found))
       case Top => true
       case BootClaiming(boot) => l.feedID != "" && WellFormed(c, l.url, boot)
       case BootApplying(boot) => l.feedID != "" && WellFormed(c, l.url, boot)
       case Streaming(order, ended) => l.feedID != "" && l.endpoints != [] && order != [] && |ended| <= |order|
       case Probing => l.feedID != "" && l.endpoints != []
       case PollTop => l.feedID != "" && l.endpoints != []
       case Polling => l.feedID != "" && l.endpoints != []
       case Offline(polling) => polling ==> l.feedID != "" && l.endpoints != []
       case LateClaim => false
       case WithoutEndpoints => false
       case Silent => l.feedID != "" && l.endpoints != []
       case Exited => true
  }

  lemma ResolveKeepsPhase(c: Store.Crypto, file: State, l: Loop, newSalt: string, saved: bool)
    requires Validates(c) && PhaseOk(c, l) && l.phase.Start?
    ensures PhaseOk(c, TakeResolve(c, file, l, newSalt, saved).loop)
  {
    ResolvedIsUsable(c, file, l.url, newSalt);
  }

  lemma DecodedIsWellFormed(c: Store.Crypto, url: string, m: Message)
    requires Validates(c)
    ensures Decoded(c, url, m).Success? ==> WellFormed(c, url, Decoded(c, url, m).result)
  {
    if m.body.Sealed? && c.open(url, m.body.data).Opened? {
      assert c.Decrypt(url, m.body.data) == Some(c.open(url, m.body.data).doc);
    }
  }

  lemma BootstrapKeepsPhase(c: Store.Crypto, l: Loop, outcome: Outcome<Message>)
    requires Validates(c) && PhaseOk(c, l) && l.phase.Top?
    ensures PhaseOk(c, TakeBootstrap(c, l, outcome).loop)
  {
    if outcome.Success? { DecodedIsWellFormed(c, l.url, outcome.result); }
  }

  lemma BootApplyKeepsPhase(c: Store.Crypto, file: State, l: Loop, fail: Option<nat>, newSalt: string, saved: bool)
    requires PhaseOk(c, l) && l.phase.BootApplying?
    ensures PhaseOk(c, TakeBootApply(c, file, l, l.phase.boot, fail, newSalt, saved).loop)
  {
    ValidIsUsable(l.phase.boot.doc);
  }

  lemma EventKeepsPhase(c: Store.Crypto, file: State, l: Loop, m: Message, fail: Option<nat>, newSalt: string, saved: bool)
    requires Validates(c) && PhaseOk(c, l) && l.phase.Streaming? && |l.phase.ended| < |l.phase.order|
    ensures PhaseOk(c, TakeEvent(c, file, l, m, fail, newSalt, saved).loop)
  {
    DecodedIsWellFormed(c, l.url, m);
    if Decoded(c, l.url, m).Success? {
      ValidIsUsable(Decoded(c, l.url, m).result.doc);
    }
  }

  /** A document that a poll brings is decoded from what some endpoint sent. */
  lemma PolledIsDecoded(c: Store.Crypto, l: Loop, replies: string -> Outcome<Reply<Message>>)
    ensures var pass := PollPass(c, l, replies);
            pass.Found? && pass.result.Fetched? ==>
              && pass.endpoint in Normalized(l.endpoints)
              && replies(pass.endpoint).Success? && replies(pass.endpoint).result.Fetched?
              && Decoded(c, l.url, replies(pass.endpoint).result.response) == Success(pass.result.response)
  {
    PassOverDecides(Normalized(l.endpoints), e => ReceivedReply(c, l.url, replies(e)));
  }

  /** A pass over a usable list reaches a decision, and a decoded document it brings is well formed. */
  lemma PollKeepsPhase(c: Store.Crypto, l: Loop, replies: string -> Outcome<Reply<Message>>, fail: Option<nat>, newSalt: string, saved: bool)
    requires Validates(c) && PhaseOk(c, l) && l.phase.Polling?
    ensures PhaseOk(c, TakePoll(c, l, replies, fail, newSalt, saved).loop)
  {
    var pass := PollPass(c, l, replies);
    PassOverDecides(Normalized(l.endpoints), e => ReceivedReply(c, l.url, replies(e)));
    UsableNormalizes(l.endpoints);
    PolledIsDecoded(c, l, replies);
    if pass.Found? && pass.result.Fetched? {
      DecodedIsWellFormed(c, l.url, replies(pass.endpoint).result.response);
      ValidIsUsable(pass.result.response.doc);
    }
  }

  lemma ActKeepsPhase(c: Store.Crypto, file: State, claimed: map<string, string>, l: Loop, a: Action)
    requires Validates(c) && PhaseOk(c, l)
    ensures PhaseOk(c, Act(c, file, claimed, l, a).loop)
  {
    match a
    case Resolve(newSalt, saved) => if l.phase.Start? { ResolveKeepsPhase(c, file, l, newSalt, saved); }
    case Bootstrap(outcome) => if l.phase.Top? && l.endpoints == [] { BootstrapKeepsPhase(c, l, outcome); }
    case BootApply(fail, newSalt, saved) => if l.phase.BootApplying? { BootApplyKeepsPhase(c, file, l, fail, newSalt, saved); }
    case Event(m, fail, newSalt, saved) =>
      if l.phase.Streaming? && |l.phase.ended| < |l.phase.order| { EventKeepsPhase(c, file, l, m, fail, newSalt, saved); }
    case Poll(replies, fail, newSalt, saved) => if l.phase.Polling? { PollKeepsPhase(c, l, replies, fail, newSalt, saved); }
    case OpenStream => UsableNormalizes(l.endpoints);
    case OrderForPoll(loaded) => if l.phase.PollTop? { OrderedIsUsable(c, file, l.feedID, l.endpoints); }
    case _ =>
  }

  // ----- claims

  /** Every claim was made by one loop, under its URL and for its own feed id. */
  ghost predicate ClaimTable(s: System) {
    && s.claimed.Keys == s.claimant.Keys
    && forall f <- s.claimant :: s.claimant[f] < |s.loops| && s.claimed[f] == s.loops[s.claimant[f]].url
                                 && s.loops[s.claimant[f]].feedID == f && f != ""
  }

  /** Every loop at work on a feed holds its claim. */
  ghost predicate ActiveClaim(s: System) {
    forall i :: 0 <= i < |s.loops| && Active(s.loops[i]) ==> s.loops[i].feedID in s.claimant && s.claimant[s.loops[i].feedID] == i
  }

  ghost predicate PhasesOk(c: Store.Crypto, s: System) {
    forall i :: 0 <= i < |s.loops| ==> PhaseOk(c, s.loops[i]) && Trimmed(s.loops[i].url)
  }

  ghost predicate Claims(c: Store.Crypto, s: System) {
    ClaimTable(s) && ActiveClaim(s) && PhasesOk(c, s)
  }

  /** A loop keeps its URL, keeps its feed id once it has one, and becomes active with a new feed id only by
      claiming it. */
  predicate KeepsFeed(claimed: map<string, string>, l: Loop, e: Effect) {
    && e.loop.url == l.url
    && (l.feedID != "" ==> e.loop.feedID == l.feedID)
    && (e.claim.Some? ==> e.claim.value !in claimed && e.claim.value == l.feedID && l.feedID != "")
    && (Active(e.loop) ==> Active(l) || e.claim == Some(e.loop.feedID))
  }

  ghost predicate Claimed(c: Store.Crypto, claimed: map<string, string>, l: Loop, e: Effect) {
    PhaseOk(c, e.loop) && KeepsFeed(claimed, l, e)
  }

  lemma ActKeepsFeed(c: Store.Crypto, file: State, claimed: map<string, string>, l: Loop, a: Action)
    requires l.phase.Start? ==> l.feedID == ""
    requires l.phase.Claiming? || l.phase.BootClaiming? ==> l.feedID != ""
    ensures KeepsFeed(claimed, l, Act(c, file, claimed, l, a))
  {
  }

  lemma ActClaims(c: Store.Crypto, file: State, claimed: map<string, string>, l: Loop, a: Action)
    requires Validates(c) && PhaseOk(c, l)
    ensures Claimed(c, claimed, l, Act(c, file, claimed, l, a))
  {
    ActKeepsPhase(c, file, claimed, l, a);
    ActKeepsFeed(c, file, claimed, l, a);
  }

  lemma CommitKeepsClaims(c: Store.Crypto, s: System, who: nat, e: Effect)
    requires Claims(c, s) && who < |s.loops| && Claimed(c, s.claimed, s.loops[who], e)
    ensures Claims(c, Commit(c, s, who, e))
  {
    CommitKeepsTable(c, s, who, e);
    CommitKeepsActive(c, s, who, e);
  }

  lemma CommitKeepsTable(c: Store.Crypto, s: System, who: nat, e: Effect)
    requires ClaimTable(s) && who < |s.loops| && KeepsFeed(s.claimed, s.loops[who], e)
    ensures ClaimTable(Commit(c, s, who, e))
  {
  }

  lemma CommitKeepsActive(c: Store.Crypto, s: System, who: nat, e: Effect)
    requires ClaimTable(s) && ActiveClaim(s) && who < |s.loops| && KeepsFeed(s.claimed, s.loops[who], e)
    ensures ActiveClaim(Commit(c, s, who, e))
  {
  }

  lemma TakeKeepsClaims(c: Store.Crypto, s: System, step: Step)
    requires Validates(c) && Claims(c, s)
    ensures Claims(c, Take(c, s, step))
    ensures |Take(c, s, step).loops| == |s.loops|
    ensures forall f <- s.claimant :: f in Take(c, s, step).claimant && Take(c, s, step).claimant[f] == s.claimant[f]
                                      && Take(c, s, step).claimed[f] == s.claimed[f]
  {
    if step.who < |s.loops| {
      ActClaims(c, s.file, s.claimed, s.loops[step.who], step.action);
      CommitKeepsClaims(c, s, step.who, EffectOf(c, s, step));
    }
  }

  /** In every reachable state of every interleaving. A claim once made is never changed, and it was made by
      exactly one loop, under its own URL. */
  lemma {:induction false} ReachableClaims(c: Store.Crypto, s: System, steps: seq<Step>)
    requires Validates(c) && Initial(s)
    ensures Claims(c, Run(c, s, steps)) && |Run(c, s, steps).loops| == |s.loops|
  {
    if steps == [] {
      assert forall i :: 0 <= i < |s.loops| ==> Trimmed(s.loops[i].url);
    } else {
      ReachableClaims(c, s, steps[..|steps| - 1]);
      TakeKeepsClaims(c, Run(c, s, steps[..|steps| - 1]), steps[|steps| - 1]);
    }
  }

  lemma {:induction false} ClaimsStay(c: Store.Crypto, s: System, steps: seq<Step>, n: nat, feedID: string)
    requires Validates(c) && Initial(s) && n <= |steps|
    requires feedID in Run(c, s, steps[..n]).claimed
    ensures var before, after := Run(c, s, steps[..n]), Run(c, s, steps);
            && feedID in before.claimant && feedID in after.claimed && feedID in after.claimant
            && after.claimed[feedID] == before.claimed[feedID] && after.claimant[feedID] == before.claimant[feedID]
    decreases |steps|
  {
    ReachableClaims(c, s, steps[..n]);
    if n < |steps| {
      var front := steps[..|steps| - 1];
      assert front[..n] == steps[..n];
      ClaimsStay(c, s, front, n, feedID);
      ReachableClaims(c, s, front);
      TakeKeepsClaims(c, Run(c, s, front), steps[|steps| - 1]);
    } else {
      assert steps[..n] == steps;
    }
  }

  /** Whenever a loop streams or polls, its endpoint list normalises to a non-empty one and its feed id is claimed
      under its own URL. So the claims on a late first id and the "no endpoints" errors are never reached. */
  lemma StreamingAndPollingAreReady(c: Store.Crypto, s: System, steps: seq<Step>, i: nat)
    requires Validates(c) && Initial(s) && i < |s.loops|
    ensures var after := Run(c, s, steps);
            && |after.loops| == |s.loops|
            && var l := after.loops[i];
            && !l.phase.LateClaim? && !l.phase.WithoutEndpoints?
            && (l.phase.Streaming? || l.phase.Probing? || l.phase.PollTop? || l.phase.Polling? ==>
                  && Normalized(l.endpoints) != []
                  && l.feedID != "" && l.feedID in after.claimed && after.claimed[l.feedID] == l.url)
  {
    ReachableClaims(c, s, steps);
    UsableNormalizes(Run(c, s, steps).loops[i].endpoints);
  }

  /** Ownership over whole runs: at most one loop ever works on a feed, however far apart in time. */
  lemma OneLoopEver(c: Store.Crypto, s: System, steps: seq<Step>, n: nat, m: nat, i: nat, j: nat)
    requires Validates(c) && Initial(s) && n <= m <= |steps| && i < |s.loops| && j < |s.loops|
    ensures var before, after := Run(c, s, steps[..n]).loops, Run(c, s, steps[..m]).loops;
            && |before| == |after| == |s.loops|
            && (Active(before[i]) && Active(after[j]) && before[i].feedID == after[j].feedID ==> i == j)
  {
    ReachableClaims(c, s, steps[..n]);
    ReachableClaims(c, s, steps[..m]);
    var feedID := Run(c, s, steps[..n]).loops[i].feedID;
    if feedID in Run(c, s, steps[..n]).claimed {
      assert steps[..m][..n] == steps[..n];
      ClaimsStay(c, s, steps[..m], n, feedID);
    }
  }
}
