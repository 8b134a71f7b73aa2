/** What whole runs of the daemon do to the state file. */
module DaemonRuns {
  import opened Text
  import opened Model
  import opened Failover
  import opened Daemon
  import opened DaemonInvariants
  import opened DaemonTerminal
  import opened RevisionGate
  import Store

  // ----- the operations of a run

  datatype Logged = Logged(who: nat, op: Store.Op)

  /** The operations saved to the state file, in order, with the loops that made them. */
  ghost function Trace(c: Store.Crypto, s: System, steps: seq<Step>): seq<Logged> {
    if steps == [] then []
    else
      var front, step := steps[..|steps| - 1], steps[|steps| - 1];
      var before := Run(c, s, front);
      if step.who < |before.loops| && EffectOf(c, before, step).op.Some? then
        Trace(c, s, front) + [Logged(step.who, EffectOf(c, before, step).op.value)]
      else Trace(c, s, front)
  }

  function Ops(trace: seq<Logged>): seq<Store.Op> {
    if trace == [] then [] else Ops(trace[..|trace| - 1]) + [trace[|trace| - 1].op]
  }

  /** The operations of one loop. */
  function OpsBy(trace: seq<Logged>, who: nat): seq<Store.Op> {
    if trace == [] then []
    else if trace[|trace| - 1].who == who then OpsBy(trace[..|trace| - 1], who) + [trace[|trace| - 1].op]
    else OpsBy(trace[..|trace| - 1], who)
  }

  lemma {:induction false} FileFollowsTrace(c: Store.Crypto, s: System, steps: seq<Step>)
    ensures Run(c, s, steps).file == Store.Run(c, s.file, Ops(Trace(c, s, steps)))
  {
    if steps != [] {
      FileFollowsTrace(c, s, steps[..|steps| - 1]);
      var ops := Ops(Trace(c, s, steps));
      if ops != [] {
        assert ops[..|ops| - 1] + [ops[|ops| - 1]] == ops;
      }
    }
  }

  // ----- feeds that keep their ids

  /** The id of the feed behind each setup URL. */
  type FeedIds = string -> string

  /** Decryption yields valid documents of the URL's own feed, and ignores white space around the data. */
  ghost predicate Faithful(c: Store.Crypto, idOf: FeedIds) {
    && Validates(c)
    && (forall url, data, doc :: c.Decrypt(url, data) == Some(doc) ==> TrimSpace(doc.id) == idOf(url))
    && (forall url, data :: c.Decrypt(url, TrimSpace(data)) == c.Decrypt(url, data))
  }

  /** A response of the feed behind `url`. */
  predicate Genuine(idOf: FeedIds, url: string, r: Response) {
    TrimSpace(r.doc.id) == idOf(url)
  }

  /** A document sent in the clear is the URL's own feed's. */
  predicate MessageGenuine(idOf: FeedIds, url: string, m: Message) {
    m.body.Plain? ==> TrimSpace(m.body.doc.id) == idOf(url)
  }

  ghost predicate StepGenuine(idOf: FeedIds, url: string, a: Action) {
    match a
    case Bootstrap(outcome) => outcome.Success? ==> MessageGenuine(idOf, url, outcome.result)
    case Event(m, _, _, _) => MessageGenuine(idOf, url, m)
    case Poll(replies, _, _, _) =>
      forall e :: replies(e).Success? && replies(e).result.Fetched? ==> MessageGenuine(idOf, url, replies(e).result.response)
    case _ => true
  }

  /** The state file maps the loops' URLs to their own idOf, if to any. */
  ghost predicate MapsToOwn(c: Store.Crypto, idOf: FeedIds, st: State, loops: seq<Loop>) {
    forall i :: 0 <= i < |loops| ==>
      var key := c.key(st.salt, loops[i].url);
      key.Some? && key.value in st.setupURLMap && !Blank(st.setupURLMap[key.value]) ==>
        TrimSpace(st.setupURLMap[key.value]) == idOf(loops[i].url)
  }

  /** URLs that share a key share a feed. */
  ghost predicate KeysTellFeedsApart(c: Store.Crypto, idOf: FeedIds, salt: string, loops: seq<Loop>) {
    forall i, j :: 0 <= i < |loops| && 0 <= j < |loops| && c.key(salt, loops[i].url).Some? && c.key(salt, loops[i].url) == c.key(salt, loops[j].url) ==>
      idOf(loops[i].url) == idOf(loops[j].url)
  }

  ghost predicate LoopGenuine(idOf: FeedIds, l: Loop) {
    && (l.feedID != "" ==> l.feedID == idOf(l.url))
    && (l.phase.BootClaiming? || l.phase.BootApplying? ==> Genuine(idOf, l.url, l.phase.boot))
  }

  ghost predicate SystemGenuine(c: Store.Crypto, idOf: FeedIds, s: System) {
    && !Blank(s.file.salt)
    && MapsToOwn(c, idOf, s.file, s.loops)
    && KeysTellFeedsApart(c, idOf, s.file.salt, s.loops)
    && (forall i :: 0 <= i < |s.loops| ==> LoopGenuine(idOf, s.loops[i]))
    && forall f <- s.claimant :: s.claimant[f] < |s.loops| && idOf(s.loops[s.claimant[f]].url) == f
  }

  /** An operation of the loop on `url` concerns that URL's feed only. */
  ghost predicate OpGenuine(c: Store.Crypto, idOf: FeedIds, url: string, op: Store.Op) {
    && (Store.FeedOf(op).Some? ==> Store.FeedOf(op) == Some(idOf(url)))
    && Store.KeepsId(c, op)
    && match op
       case Remote(u, _, _) =>
         && u.setupURL == url && !Blank(u.revision) && DistinctIds(u.doc.tunnels)
         && (!Blank(u.cached) ==> c.Decrypt(url, TrimSpace(u.cached)) == Some(u.doc))
       case FromCache(setupURL, _, _) => setupURL == url
       case Lookup(setupURL, _) => setupURL == url
  }

  lemma RemoteIsGenuine(c: Store.Crypto, idOf: FeedIds, l: Loop, requestURL: string, r: Response, fail: Option<nat>, newSalt: string)
    requires Faithful(c, idOf) && WellFormed(c, l.url, r) && Genuine(idOf, l.url, r)
    ensures OpGenuine(c, idOf, l.url, Store.Remote(UpdateFrom(l, requestURL, r), fail, newSalt))
  {
  }

  lemma FromCacheIsGenuine(c: Store.Crypto, idOf: FeedIds, l: Loop, fail: Option<nat>)
    requires Faithful(c, idOf) && l.feedID == idOf(l.url) && Trimmed(l.feedID)
    ensures OpGenuine(c, idOf, l.url, Store.FromCache(l.url, l.feedID, fail))
  {
  }

  lemma DecodedIsGenuine(c: Store.Crypto, idOf: FeedIds, url: string, m: Message)
    requires Faithful(c, idOf) && MessageGenuine(idOf, url, m)
    ensures Decoded(c, url, m).Success? ==> WellFormed(c, url, Decoded(c, url, m).result) && Genuine(idOf, url, Decoded(c, url, m).result)
  {
    DecodedIsWellFormed(c, url, m);
  }

  lemma ResolveIsGenuine(c: Store.Crypto, idOf: FeedIds, st: State, loops: seq<Loop>, i: nat, newSalt: string)
    requires Faithful(c, idOf) && !Blank(st.salt) && MapsToOwn(c, idOf, st, loops) && i < |loops| && Trimmed(loops[i].url)
    ensures var r := Store.Resolve(c, st, loops[i].url, newSalt).1;
            r.Resolved? && r.feedID != "" ==> r.feedID == idOf(loops[i].url)
  {
    var key := c.key(st.salt, loops[i].url);
    if key.Some? && key.value in st.setupURLMap {
      var feedID := TrimSpace(st.setupURLMap[key.value]);
      if feedID in st.feeds && c.Decrypt(loops[i].url, st.feeds[feedID].cached).Some? {
        var doc := c.Decrypt(loops[i].url, st.feeds[feedID].cached).value;
        assert TrimSpace(doc.id) == idOf(loops[i].url);
      }
    }
  }

  /** A document found by a poll is one that some endpoint sent. */
  lemma PolledIsGenuine(c: Store.Crypto, idOf: FeedIds, l: Loop, replies: string -> Outcome<Reply<Message>>)
    requires Faithful(c, idOf) && StepGenuine(idOf, l.url, Poll(replies, None, "", true))
    ensures var pass := PollPass(c, l, replies);
            pass.Found? && pass.result.Fetched? ==>
              WellFormed(c, l.url, pass.result.response) && Genuine(idOf, l.url, pass.result.response)
  {
    var pass := PollPass(c, l, replies);
    PolledIsDecoded(c, l, replies);
    if pass.Found? && pass.result.Fetched? {
      DecodedIsGenuine(c, idOf, l.url, replies(pass.endpoint).result.response);
    }
  }

  /** What a genuine loop becomes, and that its operation is its own feed's. */
  ghost predicate EffectGenuine(c: Store.Crypto, idOf: FeedIds, l: Loop, e: Effect) {
    && LoopGenuine(idOf, e.loop)
    && (e.op.Some? ==> OpGenuine(c, idOf, l.url, e.op.value))
    && (e.op.Some? && Store.FeedOf(e.op.value).Some? ==> Active(l))
  }

  lemma TakeResolveIsGenuine(c: Store.Crypto, idOf: FeedIds, st: State, loops: seq<Loop>, i: nat, newSalt: string, saved: bool)
    requires Faithful(c, idOf) && !Blank(st.salt) && MapsToOwn(c, idOf, st, loops)
    requires i < |loops| && Trimmed(loops[i].url) && LoopGenuine(idOf, loops[i]) && PhaseOk(c, loops[i]) && loops[i].phase.Start?
    ensures EffectGenuine(c, idOf, loops[i], TakeResolve(c, st, loops[i], newSalt, saved))
  {
    ResolveIsGenuine(c, idOf, st, loops, i, newSalt);
    ResolvedIsUsable(c, st, loops[i].url, newSalt);
  }

  lemma TakeEventIsGenuine(c: Store.Crypto, idOf: FeedIds, st: State, l: Loop, m: Message, fail: Option<nat>, newSalt: string, saved: bool)
    requires Faithful(c, idOf) && LoopGenuine(idOf, l) && PhaseOk(c, l) && MessageGenuine(idOf, l.url, m)
    requires l.phase.Streaming? && |l.phase.ended| < |l.phase.order|
    ensures EffectGenuine(c, idOf, l, TakeEvent(c, st, l, m, fail, newSalt, saved))
  {
    DecodedIsGenuine(c, idOf, l.url, m);
    if Decoded(c, l.url, m).Success? {
      RemoteIsGenuine(c, idOf, l, l.phase.order[|l.phase.ended|], Decoded(c, l.url, m).result, fail, newSalt);
    }
  }

  lemma TakePollIsGenuine(c: Store.Crypto, idOf: FeedIds, l: Loop, replies: string -> Outcome<Reply<Message>>, fail: Option<nat>, newSalt: string, saved: bool)
    requires Faithful(c, idOf) && LoopGenuine(idOf, l) && PhaseOk(c, l) && l.phase.Polling?
    requires StepGenuine(idOf, l.url, Poll(replies, fail, newSalt, saved))
    ensures EffectGenuine(c, idOf, l, TakePoll(c, l, replies, fail, newSalt, saved))
  {
    var pass := PollPass(c, l, replies);
    assert StepGenuine(idOf, l.url, Poll(replies, None, "", true));
    PolledIsGenuine(c, idOf, l, replies);
    if pass.Found? && pass.result.Fetched? {
      RemoteIsGenuine(c, idOf, l, pass.endpoint, pass.result.response, fail, newSalt);
    }
  }

  lemma TakeBootstrapIsGenuine(c: Store.Crypto, idOf: FeedIds, l: Loop, outcome: Outcome<Message>)
    requires Faithful(c, idOf) && LoopGenuine(idOf, l) && StepGenuine(idOf, l.url, Bootstrap(outcome))
    ensures EffectGenuine(c, idOf, l, TakeBootstrap(c, l, outcome))
  {
    if outcome.Success? { DecodedIsGenuine(c, idOf, l.url, outcome.result); }
  }

  /** The actions that leave the state file alone. */
  predicate Quiet(a: Action) {
    !(a.Resolve? || a.Bootstrap? || a.BootApply? || a.Event? || a.Poll? || a.ReconcileOffline?)
  }

  lemma QuietIsGenuine(c: Store.Crypto, idOf: FeedIds, st: State, claimed: map<string, string>, l: Loop, a: Action)
    requires LoopGenuine(idOf, l) && StepGenuine(idOf, l.url, a) && Quiet(a)
    ensures EffectGenuine(c, idOf, l, Act(c, st, claimed, l, a))
  {
  }

  lemma ActIsGenuine(c: Store.Crypto, idOf: FeedIds, st: State, claimed: map<string, string>, loops: seq<Loop>, i: nat, a: Action)
    requires Faithful(c, idOf) && !Blank(st.salt) && MapsToOwn(c, idOf, st, loops) && i < |loops|
    requires LoopGenuine(idOf, loops[i]) && PhaseOk(c, loops[i]) && Trimmed(loops[i].url)
    requires StepGenuine(idOf, loops[i].url, a)
    ensures EffectGenuine(c, idOf, loops[i], Act(c, st, claimed, loops[i], a))
  {
    var l := loops[i];
    match a
    case Resolve(newSalt, saved) =>
      if l.phase.Start? { TakeResolveIsGenuine(c, idOf, st, loops, i, newSalt, saved); }
    case Bootstrap(outcome) => TakeBootstrapIsGenuine(c, idOf, l, outcome);
    case BootApply(fail, newSalt, saved) =>
      if l.phase.BootApplying? { RemoteIsGenuine(c, idOf, l, l.url, l.phase.boot, fail, newSalt); }
    case Event(m, fail, newSalt, saved) =>
      if l.phase.Streaming? && |l.phase.ended| < |l.phase.order| { TakeEventIsGenuine(c, idOf, st, l, m, fail, newSalt, saved); }
    case Poll(replies, fail, newSalt, saved) =>
      if l.phase.Polling? { TakePollIsGenuine(c, idOf, l, replies, fail, newSalt, saved); }
    case ReconcileOffline(fail, saved) => if l.feedID != "" { FromCacheIsGenuine(c, idOf, l, fail); }
    case _ => QuietIsGenuine(c, idOf, st, claimed, l, a);
  }

  /** An operation of a genuine loop maps its URL to its own feed, or leaves the mapping alone. */
  lemma OpKeepsMap(c: Store.Crypto, idOf: FeedIds, st: State, loops: seq<Loop>, i: nat, op: Store.Op)
    requires Faithful(c, idOf) && !Blank(st.salt) && i < |loops| && Trimmed(loops[i].url)
    requires MapsToOwn(c, idOf, st, loops) && KeysTellFeedsApart(c, idOf, st.salt, loops)
    requires OpGenuine(c, idOf, loops[i].url, op)
    ensures MapsToOwn(c, idOf, Store.Exec(c, st, op), loops)
  {
    var after, url := Store.Exec(c, st, op), loops[i].url;
    var key := c.key(st.salt, url);
    Store.SaltStays(c, st, op);
    assert after.setupURLMap == st.setupURLMap || (key.Some? && after.setupURLMap == st.setupURLMap[key.value := idOf(url)]) by {
      MapAfter(c, idOf, st, url, op);
    }
  }

  lemma MapAfter(c: Store.Crypto, idOf: FeedIds, st: State, url: string, op: Store.Op)
    requires Faithful(c, idOf) && !Blank(st.salt) && Trimmed(url) && OpGenuine(c, idOf, url, op)
    ensures var after, key := Store.Exec(c, st, op), c.key(st.salt, url);
            after.setupURLMap == st.setupURLMap || (key.Some? && after.setupURLMap == st.setupURLMap[key.value := idOf(url)])
  {
    match op
    case Remote(u, fail, newSalt) =>
    case FromCache(setupURL, feedID, fail) =>
      CacheKeepsMap(c, st, setupURL, feedID, fail);
    case Lookup(setupURL, newSalt) =>
      LookupMap(c, idOf, st, url, newSalt);
  }

  lemma CacheKeepsMap(c: Store.Crypto, st: State, setupURL: string, feedID: string, fail: Option<nat>)
    ensures Store.ReconcileFromCache(c, st, setupURL, feedID, fail).0.setupURLMap == st.setupURLMap
  {
    var id := TrimSpace(feedID);
    if id in st.feeds && c.Decrypt(setupURL, st.feeds[id].cached).Some? {
      assert Store.ApplyFeed(st, c.Decrypt(setupURL, st.feeds[id].cached).value, fail).0.setupURLMap == st.setupURLMap;
    }
  }

  lemma KeyMap(c: Store.Crypto, idOf: FeedIds, st: State, url: string, key: string)
    requires Faithful(c, idOf)
    ensures var after := Store.ResolveKey(c, st, url, key).0;
            after.setupURLMap == st.setupURLMap || after.setupURLMap == st.setupURLMap[key := idOf(url)]
  {
    if key in st.setupURLMap {
      var feedID := TrimSpace(st.setupURLMap[key]);
      if feedID in st.feeds && c.Decrypt(url, st.feeds[feedID].cached).Some? {
        var doc := c.Decrypt(url, st.feeds[feedID].cached).value;
        assert TrimSpace(doc.id) == idOf(url);
      }
    }
  }

  lemma LookupMap(c: Store.Crypto, idOf: FeedIds, st: State, url: string, newSalt: string)
    requires Faithful(c, idOf) && !Blank(st.salt) && Trimmed(url)
    ensures var after, key := Store.Resolve(c, st, url, newSalt).0, c.key(st.salt, url);
            after.setupURLMap == st.setupURLMap || (key.Some? && after.setupURLMap == st.setupURLMap[key.value := idOf(url)])
  {
    if c.key(st.salt, url).Some? {
      KeyMap(c, idOf, st, url, c.key(st.salt, url).value);
    }
  }

  lemma CommitIsGenuine(c: Store.Crypto, idOf: FeedIds, s: System, who: nat, e: Effect)
    requires Faithful(c, idOf) && SystemGenuine(c, idOf, s) && Claims(c, s) && who < |s.loops|
    requires EffectGenuine(c, idOf, s.loops[who], e) && Claimed(c, s.claimed, s.loops[who], e)
    ensures SystemGenuine(c, idOf, Commit(c, s, who, e)) && Commit(c, s, who, e).file.salt == s.file.salt
  {
    var after := Commit(c, s, who, e);
    FileStaysGenuine(c, idOf, s, who, e);
    SameURLsSameMap(c, idOf, after.file, s.loops, after.loops);
  }

  lemma FileStaysGenuine(c: Store.Crypto, idOf: FeedIds, s: System, who: nat, e: Effect)
    requires Faithful(c, idOf) && who < |s.loops| && Trimmed(s.loops[who].url)
    requires !Blank(s.file.salt) && MapsToOwn(c, idOf, s.file, s.loops) && KeysTellFeedsApart(c, idOf, s.file.salt, s.loops)
    requires e.op.Some? ==> OpGenuine(c, idOf, s.loops[who].url, e.op.value)
    ensures Commit(c, s, who, e).file.salt == s.file.salt && MapsToOwn(c, idOf, Commit(c, s, who, e).file, s.loops)
  {
    if e.op.Some? {
      Store.SaltStays(c, s.file, e.op.value);
      OpKeepsMap(c, idOf, s.file, s.loops, who, e.op.value);
    }
  }

  lemma TakeIsGenuine(c: Store.Crypto, idOf: FeedIds, s: System, step: Step)
    requires Faithful(c, idOf) && SystemGenuine(c, idOf, s) && Claims(c, s)
    requires step.who < |s.loops| ==> StepGenuine(idOf, s.loops[step.who].url, step.action)
    ensures SystemGenuine(c, idOf, Take(c, s, step)) && Take(c, s, step).file.salt == s.file.salt
    ensures |Take(c, s, step).loops| == |s.loops|
    ensures forall i :: 0 <= i < |s.loops| ==> Take(c, s, step).loops[i].url == s.loops[i].url
  {
    if step.who < |s.loops| {
      ActIsGenuine(c, idOf, s.file, s.claimed, s.loops, step.who, step.action);
      ActClaims(c, s.file, s.claimed, s.loops[step.who], step.action);
      CommitIsGenuine(c, idOf, s, step.who, EffectOf(c, s, step));
    }
  }

  lemma SameURLsSameMap(c: Store.Crypto, idOf: FeedIds, st: State, loops: seq<Loop>, loops': seq<Loop>)
    requires |loops| == |loops'| && forall i :: 0 <= i < |loops| ==> loops'[i].url == loops[i].url
    ensures MapsToOwn(c, idOf, st, loops) ==> MapsToOwn(c, idOf, st, loops')
    ensures KeysTellFeedsApart(c, idOf, st.salt, loops) ==> KeysTellFeedsApart(c, idOf, st.salt, loops')
  {
  }

  ghost predicate RunGenuine(idOf: FeedIds, loops: seq<Loop>, steps: seq<Step>) {
    forall k :: 0 <= k < |steps| && steps[k].who < |loops| ==> StepGenuine(idOf, loops[steps[k].who].url, steps[k].action)
  }

  /** An operation on a feed was made by the loop that claimed it. */
  ghost predicate TraceOwned(c: Store.Crypto, idOf: FeedIds, s: System, trace: seq<Logged>) {
    forall k :: 0 <= k < |trace| ==>
      && trace[k].who < |s.loops|
      && OpGenuine(c, idOf, s.loops[trace[k].who].url, trace[k].op)
      && (Store.FeedOf(trace[k].op).Some? ==>
            Store.FeedOf(trace[k].op).value in s.claimant && s.claimant[Store.FeedOf(trace[k].op).value] == trace[k].who)
  }

  lemma {:induction false} RunStaysGenuine(c: Store.Crypto, idOf: FeedIds, s: System, steps: seq<Step>)
    requires Faithful(c, idOf) && Initial(s) && SystemGenuine(c, idOf, s) && RunGenuine(idOf, s.loops, steps)
    ensures var after := Run(c, s, steps);
            && Claims(c, after) && SystemGenuine(c, idOf, after) && after.file.salt == s.file.salt
            && |after.loops| == |s.loops| && (forall i :: 0 <= i < |s.loops| ==> after.loops[i].url == s.loops[i].url)
            && TraceOwned(c, idOf, after, Trace(c, s, steps))
  {
    ReachableClaims(c, s, steps);
    if steps != [] {
      var front, step := steps[..|steps| - 1], steps[|steps| - 1];
      assert RunGenuine(idOf, s.loops, front);
      RunStaysGenuine(c, idOf, s, front);
      var before := Run(c, s, front);
      TakeIsGenuine(c, idOf, before, step);
      TakeKeepsClaims(c, before, step);
      TraceStep(c, idOf, before, step, Trace(c, s, front));
    }
  }

  lemma TraceGrows(c: Store.Crypto, idOf: FeedIds, s: System, who: nat, e: Effect, trace: seq<Logged>)
    requires Claims(c, s) && TraceOwned(c, idOf, s, trace) && who < |s.loops|
    requires Claimed(c, s.claimed, s.loops[who], e) && EffectGenuine(c, idOf, s.loops[who], e)
    requires e.op.Some? && Store.FeedOf(e.op.value).Some? ==> s.loops[who].feedID == idOf(s.loops[who].url)
    ensures TraceOwned(c, idOf, Commit(c, s, who, e), if e.op.Some? then trace + [Logged(who, e.op.value)] else trace)
  {
  }

  lemma TraceStep(c: Store.Crypto, idOf: FeedIds, s: System, step: Step, trace: seq<Logged>)
    requires Faithful(c, idOf) && SystemGenuine(c, idOf, s) && Claims(c, s) && TraceOwned(c, idOf, s, trace)
    requires step.who < |s.loops| ==> StepGenuine(idOf, s.loops[step.who].url, step.action)
    ensures TraceOwned(c, idOf, Take(c, s, step),
                       if step.who < |s.loops| && EffectOf(c, s, step).op.Some?
                       then trace + [Logged(step.who, EffectOf(c, s, step).op.value)] else trace)
  {
    if step.who < |s.loops| {
      ActIsGenuine(c, idOf, s.file, s.claimed, s.loops, step.who, step.action);
      ActClaims(c, s.file, s.claimed, s.loops[step.who], step.action);
      TraceGrows(c, idOf, s, step.who, EffectOf(c, s, step), trace);
    }
  }

  // ----- the main results

  lemma {:induction false} SelectByOwner(c: Store.Crypto, idOf: FeedIds, s: System, trace: seq<Logged>, feedID: string, who: nat)
    requires TraceOwned(c, idOf, s, trace)
    requires feedID in s.claimant ==> s.claimant[feedID] == who
    ensures Store.Select(Ops(trace), feedID) == Store.Select(OpsBy(trace, who), feedID)
    ensures feedID !in s.claimant ==> Store.Select(Ops(trace), feedID) == []
    ensures forall op <- Ops(trace) :: Store.KeepsId(c, op)
    ensures forall op <- OpsBy(trace, who) :: Store.KeepsId(c, op)
    ensures forall op <- Ops(trace) :: Store.FeedOf(op) == Some(feedID) ==>
              feedID in s.claimant && who < |s.loops| && OpGenuine(c, idOf, s.loops[who].url, op)
  {
    if trace != [] {
      var front, last := trace[..|trace| - 1], trace[|trace| - 1];
      assert TraceOwned(c, idOf, s, front);
      assert last == trace[|trace| - 1];
      SelectByOwner(c, idOf, s, front, feedID, who);
      var ops := Ops(trace);
      assert ops[..|ops| - 1] == Ops(front);
      if last.who == who {
        var own := OpsBy(trace, who);
        assert own[..|own| - 1] == OpsBy(front, who);
      }
    }
  }

  /** Non-interference, for the whole daemon: after any interleaving, a claimed feed's entry in the state file is
      what the operations of the loop that claimed it would have made it alone, in order; the entry of a feed
      that no loop claimed is as it was. */
  lemma EntryIsTheClaimantsAlone(c: Store.Crypto, idOf: FeedIds, s: System, steps: seq<Step>, feedID: string)
    requires Faithful(c, idOf) && Initial(s) && SystemGenuine(c, idOf, s) && RunGenuine(idOf, s.loops, steps)
    ensures var after := Run(c, s, steps);
            Store.FeedEntry(after.file, feedID) ==
            if feedID in after.claimant
            then Store.FeedEntry(Store.Run(c, s.file, OpsBy(Trace(c, s, steps), after.claimant[feedID])), feedID)
            else Store.FeedEntry(s.file, feedID)
  {
    var after, trace := Run(c, s, steps), Trace(c, s, steps);
    RunStaysGenuine(c, idOf, s, steps);
    FileFollowsTrace(c, s, steps);
    var who := if feedID in after.claimant then after.claimant[feedID] else 0;
    SelectByOwner(c, idOf, after, trace, feedID, who);
    Store.OnlyOwnOperationsMatter(c, s.file, Ops(trace), feedID);
    Store.OnlyOwnOperationsMatter(c, s.file, OpsBy(trace, who), feedID);
  }

  /** Among the updates of this feed the revision determines the document. */
  ghost predicate Versioned(trace: seq<Logged>, feedID: string, docOf: Documents) {
    forall op <- Ops(trace) :: op.Remote? && Store.FeedOf(op) == Some(feedID) ==> op.update.doc == docOf(TrimSpace(op.update.revision))
  }

  /** For the whole daemon: unless a reconciliation of the feed failed since its last successful remote one, the
      recorded tunnels have exactly the ids and names of the document of the revision last reconciled. */
  lemma RecordedTunnelsMatchRevision(c: Store.Crypto, idOf: FeedIds, docOf: Documents, s: System, steps: seq<Step>, feedID: string, dirty: bool)
    requires Faithful(c, idOf) && Initial(s) && SystemGenuine(c, idOf, s) && RunGenuine(idOf, s.loops, steps)
    requires feedID in Run(c, s, steps).claimant && Versioned(Trace(c, s, steps), feedID, docOf)
    requires !dirty ==> forall i :: 0 <= i < |s.loops| && idOf(s.loops[i].url) == feedID ==>
                          InStep(c, s.loops[i].url, docOf, Store.FeedEntry(s.file, feedID))
    ensures var after, ops := Run(c, s, steps), Ops(Trace(c, s, steps));
            var fs := FeedAt(after.file, feedID);
            var revision := TrimSpace(fs.lastReconciledRevision);
            !Dirty(c, s.file.salt, Store.FeedEntry(s.file, feedID), Store.Select(ops, feedID), dirty) && revision != "" ==>
              fs.tunnels.Some? && Records(fs.tunnels.value, docOf(revision).tunnels)
  {
    var after, trace := Run(c, s, steps), Trace(c, s, steps);
    RunStaysGenuine(c, idOf, s, steps);
    FileFollowsTrace(c, s, steps);
    var who := after.claimant[feedID];
    var url, ops := after.loops[who].url, Ops(trace);
    SelectByOwner(c, idOf, after, trace, feedID, who);
    assert idOf(url) == feedID;
    forall op | op in ops && Store.FeedOf(op) == Some(feedID) ensures Coherent(c, url, docOf, op) {
      assert OpGenuine(c, idOf, url, op);
    }
    TunnelsMatchRevision(c, s.file, ops, feedID, url, docOf, dirty);
  }

  /** Once a loop has stopped it performs no further operation in any run, and its variables stay. */
  lemma {:induction false} StoppedForGood(c: Store.Crypto, s: System, steps: seq<Step>, n: nat, i: nat)
    requires Validates(c) && Initial(s) && n <= |steps| && i < |s.loops|
    requires |Run(c, s, steps[..n]).loops| == |s.loops| && Stopped(Run(c, s, steps[..n]).loops[i])
    ensures var before, after := Run(c, s, steps[..n]), Run(c, s, steps);
            && |after.loops| == |s.loops| && Stopped(after.loops[i])
            && after.loops[i].(phase := before.loops[i].phase) == before.loops[i]
            && OpsBy(Trace(c, s, steps), i) == OpsBy(Trace(c, s, steps[..n]), i)
    decreases |steps|
  {
    if n == |steps| {
      assert steps[..n] == steps;
    } else {
      var front, step := steps[..|steps| - 1], steps[|steps| - 1];
      assert front[..n] == steps[..n];
      StoppedForGood(c, s, front, n, i);
      var mid := Run(c, s, front);
      if step.who == i {
        StoppedStaysStopped(c, mid.file, mid.claimed, mid.loops[i], step.action);
      } else if step.who < |mid.loops| && EffectOf(c, mid, step).op.Some? {
        var trace := Trace(c, s, steps);
        assert trace[..|trace| - 1] == Trace(c, s, front);
      }
    }
  }
}
