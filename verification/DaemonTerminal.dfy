/** When loops stop of themselves: terminal errors, terminal passes, and what happens after. */
module DaemonTerminal {
  import opened Text
  import opened Model
  import opened Failover
  import opened Daemon
  import opened DaemonInvariants
  import Store

  // ----- one step

  predicate Stopped(l: Loop) {
    l.phase.Silent? || l.phase.Exited?
  }

  /** The document came encrypted, and opening it failed with an error that asks the client not to retry. */
  predicate RefusesToOpen(c: Store.Crypto, url: string, m: Message) {
    !Blank(m.revision) && m.body.Sealed? && !Blank(m.body.data) && c.open(url, m.body.data) == Store.Unopened(true)
  }

  lemma TerminalExactlyWhenRefused(c: Store.Crypto, url: string, m: Message)
    ensures Decoded(c, url, m).Error? && Decoded(c, url, m).failure.terminal <==> RefusesToOpen(c, url, m)
  {
  }

  /** The endpoint answered with a protocol error that asks not to retry, or with a document that refuses to open. */
  predicate EndsTerminally(c: Store.Crypto, url: string, outcome: Outcome<Reply<Message>>) {
    match outcome
    case Error(failure) => failure.terminal
    case Success(reply) => reply.Fetched? && RefusesToOpen(c, url, reply.response)
  }

  /** One endpoint's stream ends terminally if and only if the endpoint says so or an event refuses to open. */
  lemma StreamEndsTerminallyExactly(c: Store.Crypto, file: State, claimed: map<string, string>, l: Loop, a: Action)
    requires l.phase.Streaming? && |l.phase.ended| < |l.phase.order|
    ensures Act(c, file, claimed, l, a).loop.phase == l.phase.(ended := l.phase.ended + [true]) <==>
            a == EndpointEnds(true) || (a.Event? && RefusesToOpen(c, l.url, a.event))
  {
    TwoEndings(l.phase.ended);
    if a.Event? {
      TerminalExactlyWhenRefused(c, l.url, a.event);
      EventIsTaken(c, file, claimed, l, a.event, a.fail, a.newSalt, a.saved);
    } else {
      OtherEndings(c, file, claimed, l, a);
    }
  }

  lemma TwoEndings(ended: seq<bool>)
    ensures ended + [true] != ended + [false] && ended + [true] != ended
  {
    assert (ended + [true])[|ended|] && !(ended + [false])[|ended|] && |ended + [true]| == |ended| + 1;
  }

  lemma OtherEndings(c: Store.Crypto, file: State, claimed: map<string, string>, l: Loop, a: Action)
    requires l.phase.Streaming? && |l.phase.ended| < |l.phase.order| && !a.Event?
    ensures Act(c, file, claimed, l, a).loop.phase == l.phase.(ended := l.phase.ended + [true]) <==> a == EndpointEnds(true)
  {
    TwoEndings(l.phase.ended);
  }

  lemma PollSilentExactly(c: Store.Crypto, l: Loop, replies: string -> Outcome<Reply<Message>>)
    requires PhaseOk(c, l) && l.phase.Polling?
    ensures var pass := PollPass(c, l, replies);
            && !pass.NoEndpoints?
            && (pass.Failed? && pass.failure.terminal <==> forall e <- Normalized(l.endpoints) :: EndsTerminally(c, l.url, replies(e)))
  {
    var attempt := e => ReceivedReply(c, l.url, replies(e));
    PassOverDecides(Normalized(l.endpoints), attempt);
    TerminalExactlyWhenAllAre(Normalized(l.endpoints), attempt, PollPass(c, l, replies));
    UsableNormalizes(l.endpoints);
    forall e | e in Normalized(l.endpoints)
      ensures attempt(e).Error? && attempt(e).failure.terminal <==> EndsTerminally(c, l.url, replies(e))
    {
      if replies(e).Success? && replies(e).result.Fetched? {
        TerminalExactlyWhenRefused(c, l.url, replies(e).result.response);
      }
    }
  }

  /** How a poll goes on: silent exactly when every endpoint ended terminally, polling again exactly when some endpoint
      answered, and otherwise offline for a while. */
  lemma PollEnds(c: Store.Crypto, l: Loop, replies: string -> Outcome<Reply<Message>>, fail: Option<nat>, newSalt: string, saved: bool)
    requires Validates(c) && PhaseOk(c, l) && l.phase.Polling?
    ensures var phase := TakePoll(c, l, replies, fail, newSalt, saved).loop.phase;
            && (phase == Silent || phase == PollTop || phase == Offline(true))
            && (phase == Silent <==> forall e <- Normalized(l.endpoints) :: EndsTerminally(c, l.url, replies(e)))
            && (phase == PollTop <==> exists e <- Normalized(l.endpoints) :: ReceivedReply(c, l.url, replies(e)).Success?)
  {
    var attempt := e => ReceivedReply(c, l.url, replies(e));
    var order, pass := Normalized(l.endpoints), PollPass(c, l, replies);
    PassOverDecides(order, attempt);
    PollSilentExactly(c, l, replies);
    if pass.Failed? {
      forall e | e in order ensures attempt(e).Error? {
        var i :| 0 <= i < |order| && order[i] == e;
      }
    }
  }

  lemma OthersAreNotSilent(c: Store.Crypto, file: State, claimed: map<string, string>, l: Loop, a: Action)
    requires !l.phase.Silent? && !a.CloseStream? && !(a.Poll? && l.phase.Polling?)
    ensures !Act(c, file, claimed, l, a).loop.phase.Silent?
  {
  }

  /** A loop falls silent exactly at the end of a pass in which there were endpoints and all ended terminally. */
  lemma SilentExactlyAfterTerminalPass(c: Store.Crypto, file: State, claimed: map<string, string>, l: Loop, a: Action)
    requires PhaseOk(c, l) && !l.phase.Silent?
    ensures Act(c, file, claimed, l, a).loop.phase.Silent? <==>
            || (l.phase.Streaming? && a.CloseStream? && |l.phase.ended| == |l.phase.order| && AllTerminal(l.phase.ended))
            || (l.phase.Polling? && a.Poll? && forall e <- Normalized(l.endpoints) :: EndsTerminally(c, l.url, a.replies(e)))
  {
    if a.Poll? && l.phase.Polling? {
      PollIsTaken(c, file, claimed, l, a.replies, a.fail, a.newSalt, a.saved);
      PollSilentExactly(c, l, a.replies);
    } else if !a.CloseStream? {
      OthersAreNotSilent(c, file, claimed, l, a);
    }
  }

  /** Before its first endpoints a loop stops for good on any terminal error of the setup URL itself. */
  lemma BootstrapStopsExactly(c: Store.Crypto, l: Loop, outcome: Outcome<Message>)
    requires Validates(c) && PhaseOk(c, l) && l.phase.Top?
    ensures Stopped(TakeBootstrap(c, l, outcome).loop) <==>
            if outcome.Error? then outcome.failure.terminal else RefusesToOpen(c, l.url, outcome.result)
  {
    if outcome.Success? {
      TerminalExactlyWhenRefused(c, l.url, outcome.result);
      DecodedIsWellFormed(c, l.url, outcome.result);
    }
  }

  /** A cached document that cannot be opened, for whatever reason, ends the loop when it starts. */
  lemma UnreadableCacheEndsTheStart(c: Store.Crypto, file: State, claimed: map<string, string>, l: Loop, newSalt: string, feedID: string)
    requires l.phase.Start? && Trimmed(l.url) && !Blank(file.salt) && c.key(file.salt, l.url).Some?
    requires c.key(file.salt, l.url).value in file.setupURLMap && file.setupURLMap[c.key(file.salt, l.url).value] == feedID
    requires feedID != "" && Trimmed(feedID) && feedID in file.feeds && !Blank(file.feeds[feedID].cached)
    ensures Act(c, file, claimed, l, Resolve(newSalt, true)).loop.phase == Exited <==> c.Decrypt(l.url, file.feeds[feedID].cached).None?
  {
    assert Store.Resolve(c, file, l.url, newSalt) == Store.ResolveKey(c, file, l.url, c.key(file.salt, l.url).value);
  }

  /** While offline it ends nothing: whatever the cache holds the loop goes on, and an unreadable one changes nothing. */
  lemma UnreadableCacheIsIgnoredOffline(c: Store.Crypto, file: State, claimed: map<string, string>, l: Loop, fail: Option<nat>, saved: bool)
    requires l.phase.Offline? && l.feedID != "" && Trimmed(l.feedID)
    ensures var e := Act(c, file, claimed, l, ReconcileOffline(fail, saved));
            && e.loop.phase == (if l.phase.polling then PollTop else Top)
            && (e.op.Some? && l.feedID in file.feeds && c.Decrypt(l.url, file.feeds[l.feedID].cached).None? ==>
                  Store.Exec(c, file, e.op.value) == file)
  {
    OfflineOp(c, file, claimed, l, fail, saved);
    if l.feedID in file.feeds && c.Decrypt(l.url, file.feeds[l.feedID].cached).None? {
      Store.UnreadableCacheChangesNothing(c, file, l.url, l.feedID, fail);
      assert Store.Exec(c, file, Store.FromCache(l.url, l.feedID, fail)) == file;
    }
  }

  lemma OfflineOp(c: Store.Crypto, file: State, claimed: map<string, string>, l: Loop, fail: Option<nat>, saved: bool)
    requires l.phase.Offline? && l.feedID != ""
    ensures Act(c, file, claimed, l, ReconcileOffline(fail, saved)) ==
            Effect(l.(phase := if l.phase.polling then PollTop else Top),
                   if saved then Some(Store.FromCache(l.url, l.feedID, fail)) else None, None)
  {
  }

  /** A stopped loop does nothing any more: it changes neither the state file nor the claims nor its variables. */
  lemma StoppedStaysStopped(c: Store.Crypto, file: State, claimed: map<string, string>, l: Loop, a: Action)
    requires Stopped(l)
    ensures var e := Act(c, file, claimed, l, a);
            Stopped(e.loop) && e.op.None? && e.claim.None? && e.loop.(phase := l.phase) == l
  {
  }

  // ----- the passes of a stream

  /** Step `m` opened a stream of loop `i`, over the normalised endpoints it then had. */
  ghost predicate OpensAt(c: Store.Crypto, s: System, steps: seq<Step>, i: nat, m: nat, order: seq<string>) {
    && m < |steps| && steps[m] == Step(i, OpenStream)
    && var loops := Run(c, s, steps[..m]).loops;
       i < |loops| && loops[i].phase.Top? && loops[i].endpoints != [] && order == Normalized(loops[i].endpoints)
  }

  /** Before step `j` the loop was streaming over `order`. */
  ghost predicate StreamsAt(c: Store.Crypto, s: System, steps: seq<Step>, i: nat, j: nat, order: seq<string>)
    requires j <= |steps|
  {
    var loops := Run(c, s, steps[..j]).loops;
    i < |loops| && loops[i].phase.Streaming? && loops[i].phase.order == order
  }

  /** From step `m` on until step `n` it was. */
  ghost predicate StreamsThroughout(c: Store.Crypto, s: System, steps: seq<Step>, i: nat, m: nat, n: nat, order: seq<string>)
    requires n <= |steps|
  {
    forall j :: m < j <= n ==> StreamsAt(c, s, steps, i, j, order)
  }

  /** Step `j` ended the stream of endpoint `k`. */
  ghost predicate EndsAt(c: Store.Crypto, s: System, steps: seq<Step>, i: nat, j: nat, k: nat, terminal: bool) {
    && j < |steps| && steps[j].who == i
    && var before := Run(c, s, steps[..j]);
       && i < |before.loops| && before.loops[i].phase.Streaming? && |before.loops[i].phase.ended| == k
       && k < |before.loops[i].phase.order|
       && Act(c, before.file, before.claimed, before.loops[i], steps[j].action).loop.phase
          == before.loops[i].phase.(ended := before.loops[i].phase.ended + [terminal])
  }

  ghost predicate Ended(c: Store.Crypto, s: System, steps: seq<Step>, i: nat, m: nat, k: nat, terminal: bool) {
    exists j: nat :: m < j < |steps| && EndsAt(c, s, steps, i, j, k, terminal)
  }

  /** The pass that loop `i` is in: opened at step `m`, with these endpoints ended so far. */
  ghost predicate PassSince(c: Store.Crypto, s: System, steps: seq<Step>, i: nat, m: nat, order: seq<string>, ended: seq<bool>) {
    && OpensAt(c, s, steps, i, m, order)
    && StreamsThroughout(c, s, steps, i, m, |steps|, order)
    && forall k :: 0 <= k < |ended| ==> Ended(c, s, steps, i, m, k, ended[k])
  }

  ghost predicate HasPass(c: Store.Crypto, s: System, steps: seq<Step>, i: nat, order: seq<string>, ended: seq<bool>) {
    exists m: nat :: PassSince(c, s, steps, i, m, order, ended)
  }

  lemma EndedEarlier(c: Store.Crypto, s: System, steps: seq<Step>, i: nat, m: nat, k: nat, terminal: bool)
    requires steps != [] && Ended(c, s, steps[..|steps| - 1], i, m, k, terminal)
    ensures Ended(c, s, steps, i, m, k, terminal)
  {
    var front := steps[..|steps| - 1];
    var j: nat :| m < j < |front| && EndsAt(c, s, front, i, j, k, terminal);
    assert front[..j] == steps[..j];
    assert EndsAt(c, s, steps, i, j, k, terminal);
  }

  lemma OpenedEarlier(c: Store.Crypto, s: System, steps: seq<Step>, i: nat, m: nat, order: seq<string>)
    requires steps != [] && OpensAt(c, s, steps[..|steps| - 1], i, m, order)
    ensures OpensAt(c, s, steps, i, m, order)
  {
    assert steps[..|steps| - 1][..m] == steps[..m];
  }

  lemma StreamsOn(c: Store.Crypto, s: System, steps: seq<Step>, i: nat, m: nat, order: seq<string>)
    requires steps != [] && StreamsThroughout(c, s, steps[..|steps| - 1], i, m, |steps| - 1, order)
    requires StreamsAt(c, s, steps, i, |steps|, order)
    ensures StreamsThroughout(c, s, steps, i, m, |steps|, order)
  {
    forall j | m < j <= |steps| ensures StreamsAt(c, s, steps, i, j, order) {
      if j < |steps| {
        assert steps[..|steps| - 1][..j] == steps[..j];
        assert StreamsAt(c, s, steps[..|steps| - 1], i, j, order);
      }
    }
  }

  /** One more step in which the loop goes on streaming, with at most one more endpoint ended. */
  lemma PassGoesOn(c: Store.Crypto, s: System, steps: seq<Step>, i: nat, m: nat, order: seq<string>, ended: seq<bool>, ended': seq<bool>)
    requires steps != [] && PassSince(c, s, steps[..|steps| - 1], i, m, order, ended)
    requires StreamsAt(c, s, steps, i, |steps|, order)
    requires ended' == ended || (|ended'| == |ended| + 1 && ended <= ended'
                                 && EndsAt(c, s, steps, i, |steps| - 1, |ended|, ended'[|ended|]))
    ensures PassSince(c, s, steps, i, m, order, ended')
  {
    OpenedEarlier(c, s, steps, i, m, order);
    StreamsOn(c, s, steps, i, m, order);
    forall k | 0 <= k < |ended'| ensures Ended(c, s, steps, i, m, k, ended'[k]) {
      if k < |ended| {
        EndedEarlier(c, s, steps, i, m, k, ended'[k]);
      } else {
        EndedLast(c, s, steps, i, m, k, ended'[k]);
      }
    }
  }

  lemma EndedLast(c: Store.Crypto, s: System, steps: seq<Step>, i: nat, m: nat, k: nat, terminal: bool)
    requires m < |steps| - 1 && EndsAt(c, s, steps, i, |steps| - 1, k, terminal)
    ensures Ended(c, s, steps, i, m, k, terminal)
  {
  }

  lemma PassOpens(c: Store.Crypto, s: System, steps: seq<Step>, i: nat)
    requires steps != [] && steps[|steps| - 1] == Step(i, OpenStream)
    requires var loops := Run(c, s, steps[..|steps| - 1]).loops; i < |loops| && loops[i].phase.Top?
    requires var loops := Run(c, s, steps).loops; i < |loops| && loops[i].phase.Streaming?
    ensures var phase := Run(c, s, steps).loops[i].phase; phase.ended == [] && PassSince(c, s, steps, i, |steps| - 1, phase.order, [])
  {
    assert steps[..|steps|] == steps;
  }

  /** How a step of a loop can leave it streaming. */
  lemma StreamingStep(c: Store.Crypto, file: State, claimed: map<string, string>, l: Loop, a: Action)
    requires PhaseOk(c, l) && Act(c, file, claimed, l, a).loop.phase.Streaming?
    ensures var next := Act(c, file, claimed, l, a).loop.phase;
            || (l.phase.Top? && a.OpenStream?)
            || next == l.phase
            || (l.phase.Streaming? && |l.phase.ended| < |l.phase.order|
                && exists terminal :: next == l.phase.(ended := l.phase.ended + [terminal]))
  {
    var next := Act(c, file, claimed, l, a).loop.phase;
    if l.phase.Streaming? && next != l.phase {
      StreamingOrEnds(c, file, claimed, l, a);
      assert next == l.phase.(ended := l.phase.ended + [true]) || next == l.phase.(ended := l.phase.ended + [false]);
    }
  }

  lemma StreamingOrEnds(c: Store.Crypto, file: State, claimed: map<string, string>, l: Loop, a: Action)
    requires l.phase.Streaming? && Act(c, file, claimed, l, a).loop.phase.Streaming?
    ensures var next := Act(c, file, claimed, l, a).loop.phase;
            || next == l.phase
            || (|l.phase.ended| < |l.phase.order|
                && (next == l.phase.(ended := l.phase.ended + [true]) || next == l.phase.(ended := l.phase.ended + [false])))
  {
    if a.Event? && |l.phase.ended| < |l.phase.order| {
      EventIsTaken(c, file, claimed, l, a.event, a.fail, a.newSalt, a.saved);
    }
  }

  lemma LoopAfter(c: Store.Crypto, s: System, steps: seq<Step>, i: nat)
    requires steps != []
    requires var before, after := Run(c, s, steps[..|steps| - 1]), Run(c, s, steps); i < |before.loops| && |after.loops| == |before.loops|
    ensures var before, step := Run(c, s, steps[..|steps| - 1]), steps[|steps| - 1];
            Run(c, s, steps).loops[i] ==
            if step.who == i then Act(c, before.file, before.claimed, before.loops[i], step.action).loop else before.loops[i]
  {
  }

  lemma StreamingGoesOn(c: Store.Crypto, s: System, steps: seq<Step>, i: nat, order: seq<string>, ended: seq<bool>, next: seq<bool>)
    requires steps != [] && HasPass(c, s, steps[..|steps| - 1], i, order, ended)
    requires StreamsAt(c, s, steps, i, |steps|, order)
    requires next == ended || (exists terminal :: next == ended + [terminal] && EndsAt(c, s, steps, i, |steps| - 1, |ended|, terminal))
    ensures HasPass(c, s, steps, i, order, next)
  {
    var m: nat :| PassSince(c, s, steps[..|steps| - 1], i, m, order, ended);
    PassGoesOn(c, s, steps, i, m, order, ended, next);
  }

  /** In every reachable state a streaming loop is in a pass, and its flags say how its endpoints ended in that pass. */
  lemma {:induction false} StreamingHasPass(c: Store.Crypto, s: System, steps: seq<Step>, i: nat)
    requires Validates(c) && Initial(s) && i < |s.loops|
    ensures |Run(c, s, steps).loops| == |s.loops|
    ensures var phase := Run(c, s, steps).loops[i].phase;
            phase.Streaming? ==> HasPass(c, s, steps, i, phase.order, phase.ended)
  {
    ReachableClaims(c, s, steps);
    if steps != [] && Run(c, s, steps).loops[i].phase.Streaming? {
      StreamingHasPass(c, s, steps[..|steps| - 1], i);
      ReachableClaims(c, s, steps[..|steps| - 1]);
      LoopAfter(c, s, steps, i);
      LastStepHasPass(c, s, steps, i);
    }
  }

  lemma LastStepHasPass(c: Store.Crypto, s: System, steps: seq<Step>, i: nat)
    requires steps != [] && i < |Run(c, s, steps[..|steps| - 1]).loops| == |Run(c, s, steps).loops|
    requires var l := Run(c, s, steps[..|steps| - 1]).loops[i];
             PhaseOk(c, l) && (l.phase.Streaming? ==> HasPass(c, s, steps[..|steps| - 1], i, l.phase.order, l.phase.ended))
    requires Run(c, s, steps).loops[i].phase.Streaming?
    ensures var phase := Run(c, s, steps).loops[i].phase; HasPass(c, s, steps, i, phase.order, phase.ended)
  {
    var before, step := Run(c, s, steps[..|steps| - 1]), steps[|steps| - 1];
    var l, next := before.loops[i], Run(c, s, steps).loops[i].phase;
    LoopAfter(c, s, steps, i);
    if step.who == i {
      StreamingStep(c, before.file, before.claimed, l, step.action);
    }
    assert steps[..|steps|] == steps;
    if step.who == i && l.phase.Top? {
      PassOpens(c, s, steps, i);
    } else {
      assert StreamsAt(c, s, steps, i, |steps|, l.phase.order);
      StreamingGoesOn(c, s, steps, i, l.phase.order, l.phase.ended, next.ended);
    }
  }

  /** Step `j` ended the stream of endpoint `k` with a terminal error: the endpoint said so, or an event refused to open. */
  ghost predicate EndsTerminallyAt(c: Store.Crypto, s: System, steps: seq<Step>, i: nat, j: nat, k: nat) {
    && j < |steps| && steps[j].who == i
    && var loops := Run(c, s, steps[..j]).loops;
       && i < |loops| && loops[i].phase.Streaming? && |loops[i].phase.ended| == k
       && (steps[j].action == EndpointEnds(true) || (steps[j].action.Event? && RefusesToOpen(c, loops[i].url, steps[j].action.event)))
  }

  ghost predicate EndedTerminally(c: Store.Crypto, s: System, steps: seq<Step>, i: nat, m: nat, n: nat, k: nat) {
    exists j: nat :: m < j < n && EndsTerminallyAt(c, s, steps, i, j, k)
  }

  /** One pass, opened at step `m` over the normalised endpoints the loop then had, in which until step `n` every
      one of them ended terminally. */
  ghost predicate TerminalPass(c: Store.Crypto, s: System, steps: seq<Step>, i: nat, m: nat, n: nat, order: seq<string>)
    requires n <= |steps|
  {
    && m < n && order != [] && OpensAt(c, s, steps, i, m, order) && StreamsThroughout(c, s, steps, i, m, n, order)
    && forall k :: 0 <= k < |order| ==> EndedTerminally(c, s, steps, i, m, n, k)
  }

  lemma EndedInPrefix(c: Store.Crypto, s: System, steps: seq<Step>, n: nat, i: nat, m: nat, k: nat)
    requires n <= |steps| && Ended(c, s, steps[..n], i, m, k, true)
    ensures EndedTerminally(c, s, steps, i, m, n, k)
  {
    var j: nat :| m < j < n && EndsAt(c, s, steps[..n], i, j, k, true);
    assert steps[..n][..j] == steps[..j];
    var mid := Run(c, s, steps[..j]);
    StreamEndsTerminallyExactly(c, mid.file, mid.claimed, mid.loops[i], steps[j].action);
    assert EndsTerminallyAt(c, s, steps, i, j, k);
  }

  lemma TerminalInPrefix(c: Store.Crypto, s: System, steps: seq<Step>, n: nat, i: nat, m: nat, order: seq<string>, ended: seq<bool>)
    requires n <= |steps| && PassSince(c, s, steps[..n], i, m, order, ended)
    requires order != [] && |ended| == |order| && AllTerminal(ended)
    ensures TerminalPass(c, s, steps, i, m, n, order)
  {
    assert steps[..n][..m] == steps[..m];
    forall j | m < j <= n ensures StreamsAt(c, s, steps, i, j, order) {
      assert steps[..n][..j] == steps[..j];
      assert StreamsAt(c, s, steps[..n], i, j, order);
    }
    forall k | 0 <= k < |order| ensures EndedTerminally(c, s, steps, i, m, n, k) {
      assert ended[k];
      EndedInPrefix(c, s, steps, n, i, m, k);
    }
  }

  /** Whenever a streaming loop falls silent, it is at the end of one pass over the normalised endpoints it had when the
      stream was opened, and each of them ended terminally in that pass. */
  lemma SilentStreamHadTerminalPass(c: Store.Crypto, s: System, steps: seq<Step>, n: nat, i: nat)
    requires Validates(c) && Initial(s) && n < |steps| && i < |s.loops|
    requires var before, after := Run(c, s, steps[..n]).loops, Run(c, s, steps[..n + 1]).loops;
             |before| == |after| == |s.loops| && before[i].phase.Streaming? && after[i].phase.Silent?
    ensures exists m: nat :: TerminalPass(c, s, steps, i, m, n, Run(c, s, steps[..n]).loops[i].phase.order)
  {
    var order, ended := Run(c, s, steps[..n]).loops[i].phase.order, Run(c, s, steps[..n]).loops[i].phase.ended;
    assert steps[..n + 1][..n] == steps[..n];
    FallsSilent(c, s, steps[..n + 1], i);
    StreamingHasPass(c, s, steps[..n], i);
    var m: nat :| PassSince(c, s, steps[..n], i, m, order, ended);
    TerminalInPrefix(c, s, steps, n, i, m, order, ended);
  }

  lemma FallsSilent(c: Store.Crypto, s: System, steps: seq<Step>, i: nat)
    requires Validates(c) && Initial(s) && steps != [] && i < |s.loops|
    requires var before, after := Run(c, s, steps[..|steps| - 1]).loops, Run(c, s, steps).loops;
             |before| == |after| == |s.loops| && before[i].phase.Streaming? && after[i].phase.Silent?
    ensures var phase := Run(c, s, steps[..|steps| - 1]).loops[i].phase;
            phase.order != [] && |phase.ended| == |phase.order| && AllTerminal(phase.ended)
  {
    var before, step := Run(c, s, steps[..|steps| - 1]), steps[|steps| - 1];
    ReachableClaims(c, s, steps[..|steps| - 1]);
    LoopAfter(c, s, steps, i);
    SilentExactlyAfterTerminalPass(c, before.file, before.claimed, before.loops[i], step.action);
  }

  /** That decision is the one `Failover.StreamSSEAnyEndpoints` makes: if each endpoint of the pass ended in an error,
      terminal or not as its flag says, the error of the whole pass is terminal exactly when all flags are set. */
  lemma StreamPassDecides(order: seq<string>, ended: seq<bool>, stream: string -> Outcome<StreamStop>, pass: Pass<StreamStop>)
    requires order != [] && |ended| == |order| && Decides(order, stream, pass)
    requires forall k :: 0 <= k < |order| ==> stream(order[k]).Error? && stream(order[k]).failure.terminal == ended[k]
    ensures pass.Failed? && (pass.failure.terminal <==> AllTerminal(ended))
  {
    TerminalExactlyWhenAllAre(order, stream, pass);
    if AllTerminal(ended) {
      forall e | e in order ensures stream(e).Error? && stream(e).failure.terminal {
        var k :| 0 <= k < |order| && order[k] == e;
      }
    }
  }
}
