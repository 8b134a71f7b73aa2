/** How a loop gets from one phase to the next: the first sync, a restart, falling back to polling, and stopping. */
module DaemonScenarios {
  import opened Text
  import opened Model
  import opened Failover
  import opened Daemon
  import opened DaemonInvariants
  import opened DaemonTerminal
  import opened DaemonDeliveries
  import opened UpdateOutcome
  import EndpointOrder
  import Lists
  import Recency
  import Restart
  import Store

  // ----- one step

  lemma StreamOpens(c: Store.Crypto, file: State, claimed: map<string, string>, l: Loop)
    requires l.phase.Top? && Usable(l.endpoints)
    ensures Act(c, file, claimed, l, OpenStream) == Only(l.(phase := Streaming(Normalized(l.endpoints), [])))
  {
    UsableNormalizes(l.endpoints);
  }

  /** A stream that is not supported leads to a probe, and endpoints that all ended otherwise than all terminally to a
      time offline, and from there back to streaming. */
  lemma StreamEnds(c: Store.Crypto, file: State, claimed: map<string, string>, l: Loop, terminal: bool)
    requires l.phase.Streaming?
    ensures |l.phase.ended| < |l.phase.order| ==>
              && Act(c, file, claimed, l, StreamUnsupported) == Only(l.(phase := Probing))
              && Act(c, file, claimed, l, EndpointEnds(terminal)) == Only(l.(phase := l.phase.(ended := l.phase.ended + [terminal])))
    ensures |l.phase.ended| == |l.phase.order| && (exists k :: 0 <= k < |l.phase.ended| && !l.phase.ended[k]) ==>
              Act(c, file, claimed, l, CloseStream) == Only(l.(phase := Offline(false)))
  {
  }

  /** Entry `i` is the first endpoint of the loop to answer the probe with a message that can be read. */
  ghost predicate ProbedFirst(c: Store.Crypto, l: Loop, probes: string -> Outcome<Message>, i: nat, r: Response) {
    && i < |l.endpoints| && !Blank(l.endpoints[i])
    && probes(TrimSpace(l.endpoints[i])).Success? && Reads(c, l.url, probes(TrimSpace(l.endpoints[i])).result, r)
    && forall j :: 0 <= j < i ==> Blank(l.endpoints[j]) || NoProbeAnswer(c, l.url, probes(TrimSpace(l.endpoints[j])))
  }

  ghost predicate NoProbeAnswer(c: Store.Crypto, url: string, outcome: Outcome<Message>) {
    outcome.Success? ==> forall r :: !Reads(c, url, outcome.result, r)
  }

  lemma ReceivedExactly(c: Store.Crypto, url: string, outcome: Outcome<Message>)
    ensures Received(c, url, outcome).Error? <==> NoProbeAnswer(c, url, outcome)
    ensures forall r :: outcome.Success? ==> (Received(c, url, outcome) == Success(r) <==> Reads(c, url, outcome.result, r))
  {
    if outcome.Success? {
      forall r ensures Received(c, url, outcome) == Success(r) <==> Reads(c, url, outcome.result, r) {
        DecodedExactly(c, url, outcome.result, r);
      }
    }
  }

  lemma PassedOverIsNoAnswer(c: Store.Crypto, l: Loop, probes: string -> Outcome<Message>, attempt: string -> Outcome<Response>, j: nat)
    requires j < |l.endpoints| && forall e :: attempt(e) == Received(c, l.url, probes(e))
    ensures PassedOver(l.endpoints, attempt, j) <==> Blank(l.endpoints[j]) || NoProbeAnswer(c, l.url, probes(TrimSpace(l.endpoints[j])))
  {
    ReceivedExactly(c, l.url, probes(TrimSpace(l.endpoints[j])));
  }

  lemma ProbedIsFound(c: Store.Crypto, l: Loop, probes: string -> Outcome<Message>, i: nat, r: Response)
    requires ProbedFirst(c, l, probes, i, r)
    ensures ProbePass(c, l, probes) == Found(r, TrimSpace(l.endpoints[i]))
  {
    var attempt := e => Received(c, l.url, probes(e));
    var found := Found(r, TrimSpace(l.endpoints[i]));
    ReceivedExactly(c, l.url, probes(TrimSpace(l.endpoints[i])));
    forall j | 0 <= j < i ensures PassedOver(l.endpoints, attempt, j) {
      PassedOverIsNoAnswer(c, l, probes, attempt, j);
    }
    assert SucceedsAt(l.endpoints, attempt, i, r, found.endpoint);
    DecidedInOrder(l.endpoints, attempt, found);
    PassOverDecides(Normalized(l.endpoints), attempt);
    OneDecision(Normalized(l.endpoints), attempt, found, PassOver(Normalized(l.endpoints), attempt));
  }

  lemma FoundIsProbed(c: Store.Crypto, l: Loop, probes: string -> Outcome<Message>)
    requires ProbePass(c, l, probes).Found?
    ensures exists i: nat :: ProbedFirst(c, l, probes, i, ProbePass(c, l, probes).result)
  {
    var attempt := e => Received(c, l.url, probes(e));
    var pass := ProbePass(c, l, probes);
    PassOverDecides(Normalized(l.endpoints), attempt);
    DecidedInOrder(l.endpoints, attempt, pass);
    var i: nat :| SucceedsAt(l.endpoints, attempt, i, pass.result, pass.endpoint);
    ReceivedExactly(c, l.url, probes(pass.endpoint));
    forall j | 0 <= j < i ensures Blank(l.endpoints[j]) || NoProbeAnswer(c, l.url, probes(TrimSpace(l.endpoints[j]))) {
      assert PassedOver(l.endpoints, attempt, j);
      PassedOverIsNoAnswer(c, l, probes, attempt, j);
    }
    assert ProbedFirst(c, l, probes, i, pass.result);
  }

  ghost predicate SupportsStreams(c: Store.Crypto, l: Loop, probes: string -> Outcome<Message>) {
    exists i: nat, r :: ProbedFirst(c, l, probes, i, r) && r.supportsSSE
  }

  /** The probe leads back to streaming if and only if the first endpoint that answers says that it can stream;
      otherwise to polling. */
  lemma ProbeDecides(c: Store.Crypto, file: State, claimed: map<string, string>, l: Loop, probes: string -> Outcome<Message>)
    requires l.phase.Probing?
    ensures Act(c, file, claimed, l, Probe(probes)) == Only(l.(phase := if SupportsStreams(c, l, probes) then Top else PollTop))
  {
    if SupportsStreams(c, l, probes) {
      var i: nat, r :| ProbedFirst(c, l, probes, i, r) && r.supportsSSE;
      ProbedIsFound(c, l, probes, i, r);
    }
    if ProbePass(c, l, probes).Found? {
      FoundIsProbed(c, l, probes);
    }
  }

  /** Polling asks in the order stored for the feed; without a stored order, or if the file cannot be loaded, in the
      loop's own. */
  lemma PollingFollowsStore(c: Store.Crypto, file: State, claimed: map<string, string>, l: Loop, loaded: bool)
    requires l.phase.PollTop? && l.feedID != "" && Trimmed(l.feedID)
    ensures Act(c, file, claimed, l, OrderForPoll(loaded)) ==
            Only(l.(phase := Polling, endpoints :=
              if loaded && l.feedID in file.feeds
              then EndpointOrder.Ordered(l.endpoints, file.feeds[l.feedID].endpointOrder, Store.HashWith(c, file.salt))
              else l.endpoints))
  {
  }

  /** An event that cannot be read is passed over, unless its document refuses to open; then it ends the endpoint's
      stream terminally. */
  lemma UnreadableEvent(c: Store.Crypto, file: State, claimed: map<string, string>, l: Loop, m: Message, fail: Option<nat>, newSalt: string, saved: bool)
    requires l.phase.Streaming? && |l.phase.ended| < |l.phase.order| && forall r :: !Reads(c, l.url, m, r)
    ensures Act(c, file, claimed, l, Event(m, fail, newSalt, saved)) ==
            Only(if RefusesToOpen(c, l.url, m) then l.(phase := l.phase.(ended := l.phase.ended + [true])) else l)
  {
    EventIsTaken(c, file, claimed, l, m, fail, newSalt, saved);
    TerminalExactlyWhenRefused(c, l.url, m);
    ReceivedExactly(c, l.url, Success(m));
  }

  /** Bootstrapping in vain leads offline, unless the error asks not to retry. */
  lemma BootstrapFails(c: Store.Crypto, file: State, claimed: map<string, string>, l: Loop, outcome: Outcome<Message>)
    requires l.phase.Top? && l.endpoints == [] && NoProbeAnswer(c, l.url, outcome)
    ensures Act(c, file, claimed, l, Bootstrap(outcome)) ==
            Only(l.(phase := if (match outcome case Error(failure) => failure.terminal case Success(m) => RefusesToOpen(c, l.url, m))
                             then Exited else Offline(false)))
  {
    ReceivedExactly(c, l.url, outcome);
    if outcome.Success? { TerminalExactlyWhenRefused(c, l.url, outcome.result); }
  }

  /** From offline a loop goes back to what it did, and meanwhile reconciles the cache of its own feed, if at all. */
  lemma OfflineEnds(c: Store.Crypto, file: State, claimed: map<string, string>, l: Loop, fail: Option<nat>, saved: bool)
    requires l.phase.Offline?
    ensures var next := l.(phase := if l.phase.polling then PollTop else Top);
            && Act(c, file, claimed, l, SkipOffline) == Only(next)
            && Act(c, file, claimed, l, ReconcileOffline(fail, saved)) ==
               Effect(next, if saved && l.feedID != "" then Some(Store.FromCache(l.url, l.feedID, fail)) else None, None)
  {
  }

  // ----- when a loop stops

  /** A running loop exits exactly when it is cancelled, when its setup URL cannot be resolved, when its claim is refused,
      when bootstrapping ends terminally, or when the bootstrapped update cannot be applied. */
  lemma ExitsExactly(c: Store.Crypto, file: State, claimed: map<string, string>, l: Loop, a: Action)
    requires Validates(c) && PhaseOk(c, l) && !l.phase.Exited?
    ensures Act(c, file, claimed, l, a).loop.phase.Exited? <==>
            match a
            case Cancel => true
            case Resolve(newSalt, saved) => l.phase.Start? && (!saved || Store.Resolve(c, file, l.url, newSalt).1.Unresolved?)
            case Claim => (l.phase.Claiming? || l.phase.BootClaiming?) && l.feedID in claimed
            case Bootstrap(outcome) =>
              l.phase.Top? && l.endpoints == [] && (if outcome.Error? then outcome.failure.terminal else RefusesToOpen(c, l.url, outcome.result))
            case BootApply(fail, newSalt, saved) =>
              l.phase.BootApplying? && (!saved || Store.ApplyRemoteUpdate(c, file, UpdateFrom(l, l.url, l.phase.boot), fail, newSalt).1.Some?)
            case _ => false
  {
    match a
    case Bootstrap(outcome) => if l.phase.Top? && l.endpoints == [] { BootstrapStopsExactly(c, l, outcome); BootstrapIsNotSilent(c, l, outcome); }
    case Event(m, fail, newSalt, saved) =>
      if l.phase.Streaming? && |l.phase.ended| < |l.phase.order| { EventIsTaken(c, file, claimed, l, m, fail, newSalt, saved); }
    case Poll(replies, fail, newSalt, saved) =>
      if l.phase.Polling? { PollIsTaken(c, file, claimed, l, replies, fail, newSalt, saved); }
    case _ =>
  }

  lemma BootstrapIsNotSilent(c: Store.Crypto, l: Loop, outcome: Outcome<Message>)
    requires l.phase.Top?
    ensures !TakeBootstrap(c, l, outcome).loop.phase.Silent?
  {
  }

  // ----- from the start to the stream

  /** Nothing in the state file is known of the setup URL but its key. */
  predicate Unmapped(c: Store.Crypto, st: State, url: string, newSalt: string) {
    var key := c.key(SaltOf(st, newSalt), url);
    key.Some? && (key.value in st.setupURLMap ==> Blank(st.setupURLMap[key.value]))
  }

  lemma ResolvesToNothing(c: Store.Crypto, file: State, claimed: map<string, string>, url: string, newSalt: string)
    requires Trimmed(url) && Unmapped(c, file, url, newSalt)
    ensures var start := Loop(url, Start, "", [], "");
            Act(c, file, claimed, start, Resolve(newSalt, true)) == Effect(start.(phase := Top), Some(Store.Lookup(url, newSalt)), None)
    ensures Store.Exec(c, file, Store.Lookup(url, newSalt)) == file.(salt := SaltOf(file, newSalt))
  {
    LookupOutcome(c, file, url, newSalt);
    assert Store.Resolve(c, file, url, newSalt).1 == Store.Resolved("", []);
  }

  /** From `s` to `s'` only loop `i` moved. */
  ghost predicate MovedTo(s: System, s': System, i: nat, l: Loop, file: State, claimed: map<string, string>) {
    && i < |s.loops| && |s'.loops| == |s.loops| && s'.loops[i] == l && s'.file == file && s'.claimed == claimed
    && forall j :: 0 <= j < |s.loops| && j != i ==> s'.loops[j] == s.loops[j]
  }

  /** A step that does `e`. */
  lemma Moves(c: Store.Crypto, s: System, i: nat, a: Action, e: Effect)
    requires i < |s.loops| && Act(c, s.file, s.claimed, s.loops[i], a) == e
    ensures MovedTo(s, Take(c, s, Step(i, a)), i, e.loop,
                    if e.op.Some? then Store.Exec(c, s.file, e.op.value) else s.file,
                    if e.claim.Some? then s.claimed[e.claim.value := s.loops[i].url] else s.claimed)
  {
  }

  lemma ResolveStep(c: Store.Crypto, s: System, i: nat, newSalt: string)
    requires i < |s.loops| && Trimmed(s.loops[i].url) && s.loops[i] == Loop(s.loops[i].url, Start, "", [], "")
    requires Unmapped(c, s.file, s.loops[i].url, newSalt)
    ensures MovedTo(s, Take(c, s, Step(i, Resolve(newSalt, true))), i, s.loops[i].(phase := Top), s.file.(salt := SaltOf(s.file, newSalt)), s.claimed)
  {
    ResolvesToNothing(c, s.file, s.claimed, s.loops[i].url, newSalt);
    Moves(c, s, i, Resolve(newSalt, true), Act(c, s.file, s.claimed, s.loops[i], Resolve(newSalt, true)));
  }

  lemma BootstrapStep(c: Store.Crypto, s: System, i: nat, m: Message, r: Response)
    requires i < |s.loops| && s.loops[i].phase.Top? && s.loops[i].endpoints == [] && s.loops[i].feedID == ""
    requires Reads(c, s.loops[i].url, m, r) && !Blank(r.doc.id)
    ensures MovedTo(s, Take(c, s, Step(i, Bootstrap(Success(m)))), i,
                    s.loops[i].(feedID := TrimSpace(r.doc.id), phase := BootClaiming(r)), s.file, s.claimed)
  {
    BootstrapIsTakenUp(c, s.file, s.claimed, s.loops[i], m, r);
    Moves(c, s, i, Bootstrap(Success(m)), Only(s.loops[i].(feedID := TrimSpace(r.doc.id), phase := BootClaiming(r))));
  }

  lemma ClaimStep(c: Store.Crypto, s: System, i: nat)
    requires i < |s.loops| && s.loops[i].phase.BootClaiming? && s.loops[i].feedID !in s.claimed
    ensures var l := s.loops[i];
            MovedTo(s, Take(c, s, Step(i, Claim)), i, l.(phase := BootApplying(l.phase.boot)), s.file, s.claimed[l.feedID := l.url])
  {
    ClaimIsGranted(c, s.file, s.claimed, s.loops[i]);
    Moves(c, s, i, Claim, Act(c, s.file, s.claimed, s.loops[i], Claim));
  }

  /** The update that a bootstrapped response makes. */
  function BootUpdate(url: string, r: Response): Store.Update {
    Store.Update(url, url, r.doc, r.revision, r.ttl, match r.sealed case Some(data) => data case None => "")
  }

  lemma ApplyStep(c: Store.Crypto, s: System, i: nat, newSalt: string)
    requires i < |s.loops| && s.loops[i].phase.BootApplying?
    ensures var l, r := s.loops[i], s.loops[i].phase.boot;
            var (file, err) := Store.ApplyRemoteUpdate(c, s.file, BootUpdate(l.url, r), None, newSalt);
            err.None? ==>
              MovedTo(s, Take(c, s, Step(i, BootApply(None, newSalt, true))), i,
                      l.(endpoints := r.doc.endpoints, lastRevision := TrimSpace(r.revision), phase := Top), file, s.claimed)
  {
    var a := BootApply(None, newSalt, true);
    BootIsApplied(c, s.file, s.claimed, s.loops[i], None, newSalt);
    Moves(c, s, i, a, Act(c, s.file, s.claimed, s.loops[i], a));
    var e := Act(c, s.file, s.claimed, s.loops[i], a);
    assert e.op.value == Store.Remote(BootUpdate(s.loops[i].url, s.loops[i].phase.boot), None, newSalt);
  }

  lemma OpenStep(c: Store.Crypto, s: System, i: nat)
    requires i < |s.loops| && s.loops[i].phase.Top? && Usable(s.loops[i].endpoints)
    ensures var l := s.loops[i];
            MovedTo(s, Take(c, s, Step(i, OpenStream)), i, l.(phase := Streaming(Normalized(l.endpoints), [])), s.file, s.claimed)
  {
    StreamOpens(c, s.file, s.claimed, s.loops[i]);
    Moves(c, s, i, OpenStream, Only(s.loops[i].(phase := Streaming(Normalized(s.loops[i].endpoints), []))));
  }

  lemma RunOne(c: Store.Crypto, s: System, steps: seq<Step>, step: Step)
    ensures Run(c, s, steps + [step]) == Take(c, Run(c, s, steps), step)
  {
    assert (steps + [step])[..|steps + [step]| - 1] == steps;
  }

  lemma RunThree(c: Store.Crypto, s: System, s1: Step, s2: Step, s3: Step)
    ensures Run(c, s, [s1, s2, s3]) == Take(c, Take(c, Take(c, s, s1), s2), s3)
  {
    RunTwo(c, s, s1, s2);
    RunOne(c, s, [s1, s2], s3);
    assert [s1, s2] + [s3] == [s1, s2, s3];
  }

  lemma RunTwo(c: Store.Crypto, s: System, s1: Step, s2: Step)
    ensures Run(c, s, [s1, s2]) == Take(c, Take(c, s, s1), s2)
  {
    RunOne(c, s, [], s1);
    assert [] + [s1] == [s1];
    RunOne(c, s, [s1], s2);
    assert [s1] + [s2] == [s1, s2];
  }

  lemma RunFive(c: Store.Crypto, s: System, s1: Step, s2: Step, s3: Step, s4: Step, s5: Step)
    ensures Run(c, s, [s1, s2, s3, s4, s5]) == Take(c, Take(c, Take(c, Take(c, Take(c, s, s1), s2), s3), s4), s5)
  {
    RunFour(c, s, s1, s2, s3, s4);
    RunOne(c, s, [s1, s2, s3, s4], s5);
    assert [s1, s2, s3, s4] + [s5] == [s1, s2, s3, s4, s5];
  }

  lemma RunFour(c: Store.Crypto, s: System, s1: Step, s2: Step, s3: Step, s4: Step)
    ensures Run(c, s, [s1, s2, s3, s4]) == Take(c, Take(c, Take(c, Take(c, s, s1), s2), s3), s4)
  {
    RunThree(c, s, s1, s2, s3);
    RunOne(c, s, [s1, s2, s3], s4);
    assert [s1, s2, s3] + [s4] == [s1, s2, s3, s4];
  }

  /** The state file records exactly the response's tunnels, and its revision. */
  ghost predicate FiledAs(file: State, feedID: string, r: Response) {
    && feedID in file.feeds
    && var fs := file.feeds[feedID];
       && fs.lastReconciledRevision == TrimSpace(r.revision) && fs.ttl == Some(r.ttl)
       && fs.tunnels.Some? && fs.tunnels.value.Keys == Ids(r.doc.tunnels)
       && forall k :: 0 <= k < |r.doc.tunnels| ==>
            r.doc.tunnels[k].id in fs.tunnels.value && fs.tunnels.value[r.doc.tunnels[k].id].name == r.doc.tunnels[k].name
  }

  lemma FirstUpdateIsFiled(c: Store.Crypto, file: State, url: string, r: Response, newSalt: string)
    requires Reaches(c, file, BootUpdate(url, r), newSalt) && DistinctIds(r.doc.tunnels)
    requires TrimSpace(EntryOf(file, TrimSpace(r.doc.id)).lastReconciledRevision) != TrimSpace(r.revision)
    ensures var (after, err) := Store.ApplyRemoteUpdate(c, file, BootUpdate(url, r), None, newSalt);
            && err.None? && FiledAs(after, TrimSpace(r.doc.id), r)
            && after.setupURLMap == file.setupURLMap[c.key(SaltOf(file, newSalt), url).value := TrimSpace(r.doc.id)]
  {
    var u := BootUpdate(url, r);
    NewsIsRecorded(c, file, u, None, newSalt);
    UpdateIsNoted(c, file, u, None, newSalt);
  }

  lemma MovedOn(s: System, s1: System, s2: System, i: nat, l1: Loop, l2: Loop)
    requires MovedTo(s, s1, i, l1, s1.file, s1.claimed) && MovedTo(s1, s2, i, l2, s2.file, s2.claimed)
    ensures MovedTo(s, s2, i, l2, s2.file, s2.claimed)
  {
  }

  /** A loop that starts, whose setup URL the state file knows nothing of, but which has a key. */
  predicate Starts(c: Store.Crypto, s: System, i: nat, newSalt: string) {
    && i < |s.loops| && Trimmed(s.loops[i].url) && s.loops[i] == Loop(s.loops[i].url, Start, "", [], "")
    && Unmapped(c, s.file, s.loops[i].url, newSalt)
  }

  /** It receives its first response and claims the feed. */
  lemma FirstClaim(c: Store.Crypto, s: System, i: nat, newSalt: string, m: Message, r: Response)
    requires Starts(c, s, i, newSalt) && Reads(c, s.loops[i].url, m, r) && !Blank(r.doc.id) && TrimSpace(r.doc.id) !in s.claimed
    ensures var after, url, feedID :=
              Take(c, Take(c, Take(c, s, Step(i, Resolve(newSalt, true))), Step(i, Bootstrap(Success(m)))), Step(i, Claim)), s.loops[i].url, TrimSpace(r.doc.id);
            MovedTo(s, after, i, Loop(url, BootApplying(r), feedID, [], ""), s.file.(salt := SaltOf(s.file, newSalt)), s.claimed[feedID := url])
  {
    var one := Take(c, s, Step(i, Resolve(newSalt, true)));
    ResolveStep(c, s, i, newSalt);
    var two := Take(c, one, Step(i, Bootstrap(Success(m))));
    BootstrapStep(c, one, i, m, r);
    var three := Take(c, two, Step(i, Claim));
    ClaimStep(c, two, i);
    MovedOn(s, one, two, i, one.loops[i], two.loops[i]);
    MovedOn(s, two, three, i, two.loops[i], three.loops[i]);
  }

  /** It applies the response and opens its streams. */
  lemma FirstStream(c: Store.Crypto, s: System, i: nat, newSalt: string, r: Response)
    requires i < |s.loops| && s.loops[i].phase == BootApplying(r) && ValidDocument(r.doc)
    requires Reaches(c, s.file, BootUpdate(s.loops[i].url, r), newSalt)
    requires TrimSpace(EntryOf(s.file, TrimSpace(r.doc.id)).lastReconciledRevision) != TrimSpace(r.revision)
    ensures var after, l := Take(c, Take(c, s, Step(i, BootApply(None, newSalt, true))), Step(i, OpenStream)), s.loops[i];
            && MovedTo(s, after, i, Loop(l.url, Streaming(Normalized(r.doc.endpoints), []), l.feedID, r.doc.endpoints, TrimSpace(r.revision)), after.file, s.claimed)
            && FiledAs(after.file, TrimSpace(r.doc.id), r)
            && after.file.setupURLMap == s.file.setupURLMap[c.key(SaltOf(s.file, newSalt), l.url).value := TrimSpace(r.doc.id)]
  {
    var four := Take(c, s, Step(i, BootApply(None, newSalt, true)));
    FirstUpdateIsFiled(c, s.file, s.loops[i].url, r, newSalt);
    ApplyStep(c, s, i, newSalt);
    ValidIsUsable(r.doc);
    OpenStep(c, four, i);
    MovedOn(s, four, Take(c, four, Step(i, OpenStream)), i, four.loops[i], Take(c, four, Step(i, OpenStream)).loops[i]);
  }

  /** A first sync from nothing known: five steps after its start the loop streams from the endpoints of the document it
      received, in document order and with its revision; the feed is claimed under its URL; and the state file maps the
      URL to the feed and records exactly the document's tunnels and its revision. No other loop moved. */
  lemma FirstSync(c: Store.Crypto, s: System, i: nat, newSalt: string, m: Message, r: Response)
    requires Starts(c, s, i, newSalt) && Reads(c, s.loops[i].url, m, r) && ValidDocument(r.doc) && TrimSpace(r.doc.id) !in s.claimed
    requires TrimSpace(EntryOf(s.file, TrimSpace(r.doc.id)).lastReconciledRevision) != TrimSpace(r.revision)
    ensures var after, url, feedID :=
              Run(c, s, [Step(i, Resolve(newSalt, true)), Step(i, Bootstrap(Success(m))), Step(i, Claim), Step(i, BootApply(None, newSalt, true)), Step(i, OpenStream)]),
              s.loops[i].url, TrimSpace(r.doc.id);
            && MovedTo(s, after, i, Loop(url, Streaming(Normalized(r.doc.endpoints), []), feedID, r.doc.endpoints, TrimSpace(r.revision)),
                       after.file, s.claimed[feedID := url])
            && after.file.setupURLMap == s.file.setupURLMap[c.key(SaltOf(s.file, newSalt), url).value := feedID]
            && FiledAs(after.file, feedID, r)
  {
    var resolve, bootstrap, apply := Step(i, Resolve(newSalt, true)), Step(i, Bootstrap(Success(m))), Step(i, BootApply(None, newSalt, true));
    var three := Take(c, Take(c, Take(c, s, resolve), bootstrap), Step(i, Claim));
    var after := Take(c, Take(c, three, apply), Step(i, OpenStream));
    FirstClaim(c, s, i, newSalt, m, r);
    FirstStream(c, three, i, newSalt, r);
    MovedOn(s, three, after, i, three.loops[i], after.loops[i]);
    RunFive(c, s, resolve, bootstrap, Step(i, Claim), apply, Step(i, OpenStream));
  }

  // ----- a restart

  /** The state file maps the URL to a feed with a cached document of its own. */
  predicate Resumes(c: Store.Crypto, st: State, url: string, newSalt: string, feedID: string, doc: FeedDocument) {
    Caches(c, st, url, newSalt, feedID, doc) && TrimSpace(doc.id) == feedID
  }

  lemma ResumeStep(c: Store.Crypto, s: System, i: nat, newSalt: string, feedID: string, doc: FeedDocument)
    requires i < |s.loops| && Trimmed(s.loops[i].url) && s.loops[i] == Loop(s.loops[i].url, Start, "", [], "")
    requires Resumes(c, s.file, s.loops[i].url, newSalt, feedID, doc)
    ensures MovedTo(s, Take(c, s, Step(i, Resolve(newSalt, true))), i,
                    s.loops[i].(feedID := feedID, phase := Claiming(StoredOrder(c, s.file, newSalt, feedID, doc))),
                    s.file.(salt := SaltOf(s.file, newSalt)), s.claimed)
  {
    var l, salted := s.loops[i], s.file.(salt := SaltOf(s.file, newSalt));
    LookupOutcome(c, s.file, l.url, newSalt);
    OrderedByStore(c, salted, feedID, doc.endpoints);
    assert Store.Resolve(c, s.file, l.url, newSalt) == (salted, Store.Resolved(feedID, StoredOrder(c, s.file, newSalt, feedID, doc)));
    Moves(c, s, i, Resolve(newSalt, true), Act(c, s.file, s.claimed, l, Resolve(newSalt, true)));
  }

  lemma ResumeClaim(c: Store.Crypto, s: System, i: nat)
    requires i < |s.loops| && s.loops[i].phase.Claiming? && s.loops[i].feedID !in s.claimed
    ensures var l := s.loops[i];
            MovedTo(s, Take(c, s, Step(i, Claim)), i, l.(endpoints := l.phase.found, phase := Top), s.file, s.claimed[l.feedID := l.url])
  {
    ClaimIsGranted(c, s.file, s.claimed, s.loops[i]);
    Moves(c, s, i, Claim, Act(c, s.file, s.claimed, s.loops[i], Claim));
  }

  lemma StoredOrderIsUsable(c: Store.Crypto, st: State, newSalt: string, feedID: string, doc: FeedDocument)
    requires feedID in st.feeds && feedID != "" && Trimmed(feedID) && ValidDocument(doc)
    ensures Usable(StoredOrder(c, st, newSalt, feedID, doc))
  {
    var salted := st.(salt := SaltOf(st, newSalt));
    ValidIsUsable(doc);
    OrderedByStore(c, salted, feedID, doc.endpoints);
    OrderedIsUsable(c, salted, feedID, doc.endpoints);
  }

  /** A restart with a cached document: without any request, three steps after its start the loop streams from the cached
      endpoints in stored preference order, unconditionally, and nothing but a missing salt changed in the state file. */
  lemma RestartStreams(c: Store.Crypto, s: System, i: nat, newSalt: string, feedID: string, doc: FeedDocument)
    requires i < |s.loops| && Trimmed(s.loops[i].url) && s.loops[i] == Loop(s.loops[i].url, Start, "", [], "")
    requires Resumes(c, s.file, s.loops[i].url, newSalt, feedID, doc) && ValidDocument(doc) && feedID !in s.claimed
    ensures var url, order := s.loops[i].url, StoredOrder(c, s.file, newSalt, feedID, doc);
            MovedTo(s, Run(c, s, [Step(i, Resolve(newSalt, true)), Step(i, Claim), Step(i, OpenStream)]), i,
                    Loop(url, Streaming(Normalized(order), []), feedID, order, ""),
                    s.file.(salt := SaltOf(s.file, newSalt)), s.claimed[feedID := url])
  {
    var one := Take(c, s, Step(i, Resolve(newSalt, true)));
    ResumeStep(c, s, i, newSalt, feedID, doc);
    var two := Take(c, one, Step(i, Claim));
    ResumeClaim(c, one, i);
    StoredOrderIsUsable(c, s.file, newSalt, feedID, doc);
    var three := Take(c, two, Step(i, OpenStream));
    OpenStep(c, two, i);
    MovedOn(s, one, two, i, one.loops[i], two.loops[i]);
    MovedOn(s, two, three, i, two.loops[i], three.loops[i]);
    RunThree(c, s, Step(i, Resolve(newSalt, true)), Step(i, Claim), Step(i, OpenStream));
  }

  // ----- polling on

  /** The endpoint that a polled update came from is the first that the next poll asks, whether or not the update's
      tunnels could be applied. */
  lemma PollsLastSuccessFirst(c: Store.Crypto, file: State, claimed: map<string, string>, l: Loop, replies: string -> Outcome<Reply<Message>>, i: nat, m: Message, r: Response, fail: Option<nat>, newSalt: string)
    requires l.phase.Polling? && l.feedID != "" && AnswersFirst(c, l, replies, i, Fetched(m)) && Reads(c, l.url, m, r)
    requires TrimSpace(r.doc.id) == l.feedID && !Blank(file.salt) && c.key(file.salt, l.url).Some?
    requires Lists.NoDup(EndpointOrder.Clean(r.doc.endpoints)) && TrimSpace(l.endpoints[i]) in EndpointOrder.Clean(r.doc.endpoints)
    requires Recency.HashWorks(EndpointOrder.Clean(r.doc.endpoints), Store.HashWith(c, file.salt))
    ensures var e := Act(c, file, claimed, l, Poll(replies, fail, newSalt, true));
            && e.op.Some?
            && var next := Act(c, Store.Exec(c, file, e.op.value), claimed, e.loop, OrderForPoll(true)).loop;
               next.phase.Polling? && next.endpoints != [] && next.endpoints[0] == TrimSpace(l.endpoints[i])
  {
    PollIsApplied(c, file, claimed, l, replies, i, m, r, fail, newSalt);
    var e := Act(c, file, claimed, l, Poll(replies, fail, newSalt, true));
    var u := e.op.value.update;
    Restart.UpdateIsFiled(c, file, u, fail, newSalt);
    PollingFollowsStore(c, Store.Exec(c, file, e.op.value), claimed, e.loop, true);
    Recency.PromotedIsTriedFirst(FeedAt(file, l.feedID).endpointOrder, r.doc.endpoints, u.requestURL, Store.HashWith(c, file.salt));
  }
}
