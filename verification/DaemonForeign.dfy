/** A feed that changes its id: what a loop does with another feed's document, and when every loop keeps to its own. */
module DaemonForeign {
  import opened Text
  import opened Model
  import opened Failover
  import opened Daemon
  import opened DaemonInvariants
  import opened DaemonTerminal
  import opened DaemonSync
  import opened DaemonRuns
  import Store
  import Restart

  /** The effect leaves the response in the entry of the response's feed, and maps the setup URL to that feed; the loop
      runs on, under the id it had. */
  ghost predicate FiledUnderItsId(c: Store.Crypto, file: State, l: Loop, e: Effect, r: Response) {
    && e.op.Some? && Store.FeedOf(e.op.value) == Some(TrimSpace(r.doc.id)) && e.claim.None?
    && !Stopped(e.loop) && e.loop.feedID == l.feedID
    && IsWritten(c, file, l.url, e.op.value, TrimSpace(r.doc.id), r)
  }

  ghost predicate IsWritten(c: Store.Crypto, file: State, url: string, op: Store.Op, feedID: string, r: Response) {
    var after := Store.Exec(c, file, op);
    && feedID in after.feeds && after.feeds[feedID].ttl == Some(r.ttl)
    && after.feeds[feedID].cached == (if r.sealed.Some? then TrimSpace(r.sealed.value) else "")
    && c.key(file.salt, url).Some? && c.key(file.salt, url).value in after.setupURLMap
    && after.setupURLMap[c.key(file.salt, url).value] == feedID
  }

  /** A streaming loop that receives another feed's document files it under that feed and goes on running, under
      its own id. Nothing checks the two ids against each other. */
  lemma ForeignEventIsFiled(c: Store.Crypto, file: State, claimed: map<string, string>, l: Loop, m: Message, fail: Option<nat>, newSalt: string)
    requires Validates(c) && PhaseOk(c, l) && l.phase.Streaming? && |l.phase.ended| < |l.phase.order|
    requires Decoded(c, l.url, m).Success? && TrimSpace(Decoded(c, l.url, m).result.doc.id) != l.feedID
    requires !Blank(file.salt) && c.key(file.salt, l.url).Some?
    ensures FiledUnderItsId(c, file, l, Act(c, file, claimed, l, Event(m, fail, newSalt, true)), Decoded(c, l.url, m).result)
  {
    var r := Decoded(c, l.url, m).result;
    DecodedIsWellFormed(c, l.url, m);
    EventIsTaken(c, file, claimed, l, m, fail, newSalt, true);
    EventIsSaved(c, file, l, m, fail, newSalt);
    UpdateIsWritten(c, file, l, l.phase.order[|l.phase.ended|], r, fail, newSalt);
  }

  lemma EventIsSaved(c: Store.Crypto, file: State, l: Loop, m: Message, fail: Option<nat>, newSalt: string)
    requires l.phase.Streaming? && |l.phase.ended| < |l.phase.order| && l.feedID != "" && Decoded(c, l.url, m).Success?
    ensures var e := TakeEvent(c, file, l, m, fail, newSalt, true);
            && e.op == Some(Store.Remote(UpdateFrom(l, l.phase.order[|l.phase.ended|], Decoded(c, l.url, m).result), fail, newSalt))
            && e.claim.None? && e.loop.phase.Streaming? && e.loop.feedID == l.feedID
  {
  }

  lemma PassIsFiled(c: Store.Crypto, file: State, l: Loop, pass: Pass<Reply<Response>>, fail: Option<nat>, newSalt: string)
    requires PassDelivers(l, pass).Some? && !Blank(PassDelivers(l, pass).value.doc.id)
    requires !Blank(file.salt) && c.key(file.salt, l.url).Some?
    ensures FiledUnderItsId(c, file, l, TakePass(l, pass, fail, newSalt, true), PassDelivers(l, pass).value)
  {
    UpdateIsWritten(c, file, l, pass.endpoint, pass.result.response, fail, newSalt);
  }

  /** The same for a poll. */
  lemma ForeignPollIsFiled(c: Store.Crypto, file: State, claimed: map<string, string>, l: Loop, a: Action)
    requires Validates(c) && PhaseOk(c, l) && l.phase.Polling? && a.Poll? && a.saved
    requires Delivered(c, l, a).Some? && TrimSpace(Delivered(c, l, a).value.doc.id) != l.feedID
    requires !Blank(file.salt) && c.key(file.salt, l.url).Some?
    ensures FiledUnderItsId(c, file, l, Act(c, file, claimed, l, a), Delivered(c, l, a).value)
  {
    PollIsTaken(c, file, claimed, l, a.replies, a.fail, a.newSalt, true);
    PolledIsValid(c, l, a.replies);
    PassIsFiled(c, file, l, PollPass(c, l, a.replies), a.fail, a.newSalt);
  }

  lemma PolledIsValid(c: Store.Crypto, l: Loop, replies: string -> Outcome<Reply<Message>>)
    requires Validates(c)
    ensures var r := PassDelivers(l, PollPass(c, l, replies)); r.Some? ==> WellFormed(c, l.url, r.value)
  {
    var pass := PollPass(c, l, replies);
    PolledIsDecoded(c, l, replies);
    if pass.Found? && pass.result.Fetched? {
      DecodedIsWellFormed(c, l.url, replies(pass.endpoint).result.response);
    }
  }

  lemma UpdateIsWritten(c: Store.Crypto, file: State, l: Loop, requestURL: string, r: Response, fail: Option<nat>, newSalt: string)
    requires !Blank(r.doc.id) && !Blank(file.salt) && c.key(file.salt, l.url).Some?
    ensures IsWritten(c, file, l.url, Store.Remote(UpdateFrom(l, requestURL, r), fail, newSalt), TrimSpace(r.doc.id), r)
  {
    assert TrimSpace("") == "";
    Restart.UpdateIsFiled(c, file, UpdateFrom(l, requestURL, r), fail, newSalt);
  }

  // ----- over all runs

  /** Every response delivered in a saving step carries its loop's own feed id. */
  ghost predicate OwnIds(c: Store.Crypto, s: System, steps: seq<Step>) {
    if steps == [] then true
    else OwnIds(c, s, steps[..|steps| - 1]) && OwnId(c, Run(c, s, steps[..|steps| - 1]), steps[|steps| - 1])
  }

  ghost predicate OwnId(c: Store.Crypto, before: System, step: Step) {
    step.who < |before.loops| && EffectOf(c, before, step).op.Some? && Delivered(c, before.loops[step.who], step.action).Some? ==>
      TrimSpace(Delivered(c, before.loops[step.who], step.action).value.doc.id) == before.loops[step.who].feedID
  }

  /** The feed of the operation was claimed by the loop that made it. */
  ghost predicate ByClaimant(s: System, entry: Logged) {
    Store.FeedOf(entry.op).Some? ==> Store.FeedOf(entry.op).value in s.claimant && s.claimant[Store.FeedOf(entry.op).value] == entry.who
  }

  ghost predicate AllByClaimant(s: System, trace: seq<Logged>) {
    forall k :: 0 <= k < |trace| ==> ByClaimant(s, trace[k])
  }

  /** Which feed an effect's operation is about: the loop's own, unless a response says otherwise. */
  predicate OpOf(l: Loop, e: Effect, r: Option<Response>) {
    e.op.Some? && Store.FeedOf(e.op.value).Some? ==>
      && Active(l)
      && Store.FeedOf(e.op.value) == Some(if r.Some? then TrimSpace(r.value.doc.id) else l.feedID)
  }

  lemma EventOp(c: Store.Crypto, file: State, l: Loop, m: Message, fail: Option<nat>, newSalt: string, saved: bool)
    requires PhaseOk(c, l) && l.phase.Streaming? && |l.phase.ended| < |l.phase.order|
    ensures OpOf(l, TakeEvent(c, file, l, m, fail, newSalt, saved), Delivered(c, l, Event(m, fail, newSalt, saved)))
  {
  }

  lemma PassOp(l: Loop, pass: Pass<Reply<Response>>, fail: Option<nat>, newSalt: string, saved: bool)
    requires l.phase.Polling?
    ensures OpOf(l, TakePass(l, pass, fail, newSalt, saved), PassDelivers(l, pass))
  {
  }

  lemma PollUnfolds(c: Store.Crypto, l: Loop, replies: string -> Outcome<Reply<Message>>, fail: Option<nat>, newSalt: string, saved: bool)
    requires l.phase.Polling?
    ensures TakePoll(c, l, replies, fail, newSalt, saved) == TakePass(l, PollPass(c, l, replies), fail, newSalt, saved)
    ensures Delivered(c, l, Poll(replies, fail, newSalt, saved)) == PassDelivers(l, PollPass(c, l, replies))
  {
  }

  lemma OpFeed(c: Store.Crypto, file: State, claimed: map<string, string>, l: Loop, a: Action)
    requires PhaseOk(c, l)
    ensures OpOf(l, Act(c, file, claimed, l, a), Delivered(c, l, a))
  {
    match a
    case Event(m, fail, newSalt, saved) =>
      if l.phase.Streaming? && |l.phase.ended| < |l.phase.order| {
        EventIsTaken(c, file, claimed, l, m, fail, newSalt, saved);
        EventOp(c, file, l, m, fail, newSalt, saved);
      }
    case Poll(replies, fail, newSalt, saved) =>
      if l.phase.Polling? {
        PollIsTaken(c, file, claimed, l, replies, fail, newSalt, saved);
        PollUnfolds(c, l, replies, fail, newSalt, saved);
        PassOp(l, PollPass(c, l, replies), fail, newSalt, saved);
      }
    case _ =>
  }

  /** A loop that works on a feed holds the claim on its own id and no other, now and at the end of the run. */
  lemma {:induction false} OnlyOwnClaim(c: Store.Crypto, s: System, steps: seq<Step>, n: nat, i: nat, feedID: string)
    requires Validates(c) && Initial(s) && n <= |steps| && i < |s.loops|
    requires |Run(c, s, steps[..n]).loops| == |s.loops| && Active(Run(c, s, steps[..n]).loops[i])
    ensures var after := Run(c, s, steps);
            feedID in after.claimant && after.claimant[feedID] == i <==> feedID == Run(c, s, steps[..n]).loops[i].feedID
  {
    var own := Run(c, s, steps[..n]).loops[i].feedID;
    ReachableClaims(c, s, steps[..n]);
    ReachableClaims(c, s, steps);
    ClaimsStay(c, s, steps, n, own);
  }

  /** The loop holds the claim on this id and on no other. */
  ghost predicate ClaimsOnly(s: System, i: nat, feedID: string) {
    forall f :: f in s.claimant && s.claimant[f] == i <==> f == feedID
  }

  /** A step's operation is its loop's claim's exactly when what it delivered carried the loop's own id. */
  lemma OpByClaimantExactly(c: Store.Crypto, before: System, step: Step, after: System)
    requires step.who < |before.loops| && PhaseOk(c, before.loops[step.who]) && EffectOf(c, before, step).op.Some?
    requires Active(before.loops[step.who]) ==> ClaimsOnly(after, step.who, before.loops[step.who].feedID)
    ensures ByClaimant(after, Logged(step.who, EffectOf(c, before, step).op.value)) <==> OwnId(c, before, step)
  {
    OpFeed(c, before.file, before.claimed, before.loops[step.who], step.action);
    UpdateIsTheDelivery(c, before.file, before.claimed, before.loops[step.who], step.action);
  }

  lemma TraceLast(c: Store.Crypto, s: System, steps: seq<Step>)
    requires steps != []
    ensures var before, step := Run(c, s, steps[..|steps| - 1]), steps[|steps| - 1];
            Trace(c, s, steps) ==
            if step.who < |before.loops| && EffectOf(c, before, step).op.Some?
            then Trace(c, s, steps[..|steps| - 1]) + [Logged(step.who, EffectOf(c, before, step).op.value)]
            else Trace(c, s, steps[..|steps| - 1])
  {
  }

  lemma OnlyOwnClaims(c: Store.Crypto, s: System, steps: seq<Step>, n: nat, i: nat)
    requires Validates(c) && Initial(s) && n <= |steps| && i < |s.loops|
    requires |Run(c, s, steps[..n]).loops| == |s.loops| && Active(Run(c, s, steps[..n]).loops[i])
    ensures ClaimsOnly(Run(c, s, steps), i, Run(c, s, steps[..n]).loops[i].feedID)
  {
    forall f ensures f in Run(c, s, steps).claimant && Run(c, s, steps).claimant[f] == i <==> f == Run(c, s, steps[..n]).loops[i].feedID {
      OnlyOwnClaim(c, s, steps, n, i, f);
    }
  }

  /** What the last step adds to the operations. */
  lemma LastByClaimantExactly(c: Store.Crypto, s: System, steps: seq<Step>, n: nat)
    requires Validates(c) && Initial(s) && n < |steps| && steps[n].who < |Run(c, s, steps[..n]).loops|
    requires EffectOf(c, Run(c, s, steps[..n]), steps[n]).op.Some?
    ensures ByClaimant(Run(c, s, steps), Logged(steps[n].who, EffectOf(c, Run(c, s, steps[..n]), steps[n]).op.value))
            <==> OwnId(c, Run(c, s, steps[..n]), steps[n])
  {
    ReachableClaims(c, s, steps[..n]);
    if Active(Run(c, s, steps[..n]).loops[steps[n].who]) {
      OnlyOwnClaims(c, s, steps, n, steps[n].who);
    }
    OpByClaimantExactly(c, Run(c, s, steps[..n]), steps[n], Run(c, s, steps));
  }

  /** The operations of the first `n` steps, seen from the end of the run. */
  lemma {:induction false} TraceByClaimantExactly(c: Store.Crypto, s: System, steps: seq<Step>, n: nat)
    requires Validates(c) && Initial(s) && n <= |steps|
    ensures AllByClaimant(Run(c, s, steps), Trace(c, s, steps[..n])) <==> OwnIds(c, s, steps[..n])
  {
    if n > 0 {
      var before, step := Run(c, s, steps[..n - 1]), steps[n - 1];
      assert steps[..n][..n - 1] == steps[..n - 1];
      TraceByClaimantExactly(c, s, steps, n - 1);
      TraceLast(c, s, steps[..n]);
      if step.who < |before.loops| && EffectOf(c, before, step).op.Some? {
        LastByClaimantExactly(c, s, steps, n - 1);
        AllByClaimantLast(Run(c, s, steps), Trace(c, s, steps[..n - 1]), Logged(step.who, EffectOf(c, before, step).op.value));
      }
    }
  }

  lemma AllByClaimantLast(s: System, front: seq<Logged>, entry: Logged)
    ensures AllByClaimant(s, front + [entry]) <==> AllByClaimant(s, front) && ByClaimant(s, entry)
  {
    if AllByClaimant(s, front + [entry]) {
      assert forall k :: 0 <= k < |front| ==> (front + [entry])[k] == front[k];
      assert (front + [entry])[|front|] == entry;
    }
  }

  /** Over all runs: every operation on a feed is made by the loop that claimed the feed, if and only if every
      response that is applied and saved carries the id of the loop it was delivered to. */
  lemma OnlyClaimantsExactlyWithOwnIds(c: Store.Crypto, s: System, steps: seq<Step>)
    requires Validates(c) && Initial(s)
    ensures AllByClaimant(Run(c, s, steps), Trace(c, s, steps)) <==> OwnIds(c, s, steps)
  {
    assert steps[..|steps|] == steps;
    TraceByClaimantExactly(c, s, steps, |steps|);
  }
}
