/** Every response that reaches a loop is applied: phase by phase, and over whole runs. */
module DaemonDeliveries {
  import opened Text
  import opened Model
  import opened Failover
  import opened Daemon
  import opened DaemonInvariants
  import opened DaemonSync
  import opened DaemonRuns
  import Store

  // ----- reading a message

  /** The message says what `r` says: a valid document in the clear, or a ciphertext that opens to one. */
  ghost predicate Reads(c: Store.Crypto, url: string, m: Message, r: Response) {
    && !Blank(m.revision) && r.revision == m.revision && r.ttl == m.ttl && r.supportsSSE == m.supportsSSE
    && match m.body
       case Plain(doc) => ValidDocument(doc) && r.doc == doc && r.sealed == None
       case Sealed(data) => !Blank(data) && c.open(url, data) == Store.Opened(r.doc) && r.sealed == Some(data)
  }

  lemma DecodedExactly(c: Store.Crypto, url: string, m: Message, r: Response)
    ensures Decoded(c, url, m) == Success(r) <==> Reads(c, url, m, r)
  {
  }

  /** The endpoint does not answer, or answers with a message that cannot be read. */
  ghost predicate NoAnswer(c: Store.Crypto, url: string, outcome: Outcome<Reply<Message>>) {
    match outcome
    case Error(_) => true
    case Success(reply) => reply.Fetched? && forall r :: !Reads(c, url, reply.response, r)
  }

  lemma NoAnswerExactly(c: Store.Crypto, url: string, outcome: Outcome<Reply<Message>>)
    ensures ReceivedReply(c, url, outcome).Error? <==> NoAnswer(c, url, outcome)
  {
    if outcome.Success? && outcome.result.Fetched? {
      var decoded := Decoded(c, url, outcome.result.response);
      if decoded.Success? {
        DecodedExactly(c, url, outcome.result.response, decoded.result);
      } else {
        forall r ensures !Reads(c, url, outcome.result.response, r) {
          DecodedExactly(c, url, outcome.result.response, r);
        }
      }
    }
  }

  // ----- one step

  /** The update is response `r`, asked for at `requestURL` on behalf of the setup URL. */
  predicate Files(u: Store.Update, setupURL: string, requestURL: string, r: Response) {
    && u.setupURL == setupURL && u.requestURL == requestURL
    && u.doc == r.doc && u.revision == r.revision && u.ttl == r.ttl
    && match r.sealed
       case Some(data) => u.cached == data
       case None => u.cached == ""
  }

  /** The step saves this response as an update. */
  predicate Applies(e: Effect, setupURL: string, requestURL: string, r: Response, fail: Option<nat>, newSalt: string) {
    && e.op.Some? && e.op.value.Remote? && e.op.value.fail == fail && e.op.value.newSalt == newSalt
    && Files(e.op.value.update, setupURL, requestURL, r)
  }

  /** A bootstrap response is taken up, by a loop that knows no feed yet under the feed that it names. */
  lemma BootstrapIsTakenUp(c: Store.Crypto, file: State, claimed: map<string, string>, l: Loop, m: Message, r: Response)
    requires l.phase.Top? && l.endpoints == [] && Reads(c, l.url, m, r) && !Blank(r.doc.id)
    ensures Act(c, file, claimed, l, Bootstrap(Success(m))) ==
            Only(if l.feedID == "" then l.(feedID := TrimSpace(r.doc.id), phase := BootClaiming(r)) else l.(phase := BootApplying(r)))
  {
    DecodedExactly(c, l.url, m, r);
  }

  /** A claim is granted unless the feed id was claimed before. */
  lemma ClaimIsGranted(c: Store.Crypto, file: State, claimed: map<string, string>, l: Loop)
    requires (l.phase.Claiming? || l.phase.BootClaiming?) && l.feedID !in claimed
    ensures var e := Act(c, file, claimed, l, Claim);
            && e.claim == Some(l.feedID) && e.op == None
            && e.loop == if l.phase.Claiming? then l.(endpoints := l.phase.found, phase := Top) else l.(phase := BootApplying(l.phase.boot))
  {
  }

  /** The response taken up is applied; the loop goes on to its endpoints, if that worked. */
  lemma BootIsApplied(c: Store.Crypto, file: State, claimed: map<string, string>, l: Loop, fail: Option<nat>, newSalt: string)
    requires l.phase.BootApplying?
    ensures var r, e := l.phase.boot, Act(c, file, claimed, l, BootApply(fail, newSalt, true));
            && Applies(e, l.url, l.url, r, fail, newSalt) && e.claim == None
            && (Store.ApplyRemoteUpdate(c, file, e.op.value.update, fail, newSalt).1.None? ==>
                  e.loop == l.(endpoints := r.doc.endpoints, lastRevision := TrimSpace(r.revision), phase := Top))
  {
  }

  /** An event that can be read is applied, as asked for at the endpoint whose stream is open; an update that fails ends
      that stream, and not terminally. */
  lemma EventIsApplied(c: Store.Crypto, file: State, claimed: map<string, string>, l: Loop, m: Message, r: Response, fail: Option<nat>, newSalt: string)
    requires l.phase.Streaming? && |l.phase.ended| < |l.phase.order| && l.feedID != "" && Reads(c, l.url, m, r)
    ensures var e := Act(c, file, claimed, l, Event(m, fail, newSalt, true));
            && Applies(e, l.url, l.phase.order[|l.phase.ended|], r, fail, newSalt) && e.claim == None
            && var next := l.(endpoints := r.doc.endpoints, lastRevision := TrimSpace(r.revision));
               e.loop == if Store.ApplyRemoteUpdate(c, file, e.op.value.update, fail, newSalt).1.None? then next
                         else next.(phase := l.phase.(ended := l.phase.ended + [false]))
  {
    DecodedExactly(c, l.url, m, r);
    EventIsTaken(c, file, claimed, l, m, fail, newSalt, true);
  }

  /** Entry `i` of the loop's endpoints is the first that answers, and this is its answer. */
  ghost predicate AnswersFirst(c: Store.Crypto, l: Loop, replies: string -> Outcome<Reply<Message>>, i: nat, reply: Reply<Message>) {
    && i < |l.endpoints| && !Blank(l.endpoints[i]) && replies(TrimSpace(l.endpoints[i])) == Success(reply)
    && forall j :: 0 <= j < i ==> Blank(l.endpoints[j]) || NoAnswer(c, l.url, replies(TrimSpace(l.endpoints[j])))
  }

  lemma FirstAnswerIsFound(c: Store.Crypto, l: Loop, replies: string -> Outcome<Reply<Message>>, i: nat, reply: Reply<Response>)
    requires i < |l.endpoints| && !Blank(l.endpoints[i])
    requires ReceivedReply(c, l.url, replies(TrimSpace(l.endpoints[i]))) == Success(reply)
    requires forall j :: 0 <= j < i ==> Blank(l.endpoints[j]) || NoAnswer(c, l.url, replies(TrimSpace(l.endpoints[j])))
    ensures PollPass(c, l, replies) == Found(reply, TrimSpace(l.endpoints[i]))
  {
    var attempt := e => ReceivedReply(c, l.url, replies(e));
    forall j | 0 <= j < i ensures PassedOver(l.endpoints, attempt, j) {
      NoAnswerExactly(c, l.url, replies(TrimSpace(l.endpoints[j])));
    }
    var found := Found(reply, TrimSpace(l.endpoints[i]));
    assert SucceedsAt(l.endpoints, attempt, i, reply, TrimSpace(l.endpoints[i]));
    assert DecidesInOrder(l.endpoints, attempt, found);
    DecidedInOrder(l.endpoints, attempt, found);
    PassOverDecides(Normalized(l.endpoints), attempt);
    OneDecision(Normalized(l.endpoints), attempt, found, PassOver(Normalized(l.endpoints), attempt));
  }

  /** A poll applies what the first endpoint that answers sends, as asked for there; nothing if that is "unchanged". */
  lemma PollIsApplied(c: Store.Crypto, file: State, claimed: map<string, string>, l: Loop, replies: string -> Outcome<Reply<Message>>, i: nat, m: Message, r: Response, fail: Option<nat>, newSalt: string)
    requires l.phase.Polling? && l.feedID != "" && AnswersFirst(c, l, replies, i, Fetched(m)) && Reads(c, l.url, m, r)
    ensures var e := Act(c, file, claimed, l, Poll(replies, fail, newSalt, true));
            && Applies(e, l.url, TrimSpace(l.endpoints[i]), r, fail, newSalt) && e.claim == None
            && e.loop == l.(endpoints := r.doc.endpoints, lastRevision := TrimSpace(r.revision), phase := PollTop)
  {
    DecodedExactly(c, l.url, m, r);
    FirstAnswerIsFound(c, l, replies, i, Fetched(r));
    PollIsTaken(c, file, claimed, l, replies, fail, newSalt, true);
  }

  lemma UnchangedPoll(c: Store.Crypto, file: State, claimed: map<string, string>, l: Loop, replies: string -> Outcome<Reply<Message>>, i: nat, fail: Option<nat>, newSalt: string, saved: bool)
    requires l.phase.Polling? && AnswersFirst(c, l, replies, i, NotModified)
    ensures Act(c, file, claimed, l, Poll(replies, fail, newSalt, saved)) == Only(l.(phase := PollTop))
  {
    FirstAnswerIsFound(c, l, replies, i, NotModified);
    PollIsTaken(c, file, claimed, l, replies, fail, newSalt, saved);
  }

  // ----- every delivery

  /** The state file could be loaded and saved in this step. */
  predicate Saves(a: Action) {
    match a
    case BootApply(_, _, saved) => saved
    case Event(_, _, _, saved) => saved
    case Poll(_, _, _, saved) => saved
    case _ => false
  }

  function FailOf(a: Action): Option<nat> {
    match a
    case BootApply(fail, _, _) => fail
    case Event(_, fail, _, _) => fail
    case Poll(_, fail, _, _) => fail
    case _ => None
  }

  function SaltDrawn(a: Action): string {
    match a
    case BootApply(_, newSalt, _) => newSalt
    case Event(_, _, newSalt, _) => newSalt
    case Poll(_, _, newSalt, _) => newSalt
    case _ => ""
  }

  predicate UpdateSaved(e: Effect) {
    e.op.Some? && e.op.value.Remote?
  }

  lemma PassIsApplied(l: Loop, pass: Pass<Reply<Response>>, fail: Option<nat>, newSalt: string, saved: bool)
    ensures var e, r := TakePass(l, pass, fail, newSalt, saved), PassDelivers(l, pass);
            && (UpdateSaved(e) <==> r.Some? && saved)
            && (r.Some? && saved ==> Applies(e, l.url, pass.endpoint, r.value, fail, newSalt))
  {
  }

  lemma BootOrEventIsApplied(c: Store.Crypto, file: State, claimed: map<string, string>, l: Loop, a: Action)
    requires a.BootApply? || (a.Event? && l.phase.Streaming? && |l.phase.ended| < |l.phase.order|)
    ensures var e, r := Act(c, file, claimed, l, a), Delivered(c, l, a);
            && (UpdateSaved(e) <==> r.Some? && Saves(a))
            && (UpdateSaved(e) ==>
                  AskedNow(l, e.op.value.update.requestURL)
                  && Applies(e, l.url, e.op.value.update.requestURL, r.value, FailOf(a), SaltDrawn(a)))
  {
    if a.Event? {
      EventIsTaken(c, file, claimed, l, a.event, a.fail, a.newSalt, a.saved);
    }
  }

  /** In both directions: a step saves an update exactly when it brings its loop a response and the state file can be
      saved; it is then that response, asked for at a URL of this phase. */
  lemma DeliveryIsApplied(c: Store.Crypto, file: State, claimed: map<string, string>, l: Loop, a: Action)
    requires PhaseOk(c, l)
    ensures var e, r := Act(c, file, claimed, l, a), Delivered(c, l, a);
            && (UpdateSaved(e) <==> r.Some? && Saves(a))
            && (UpdateSaved(e) ==>
                  AskedNow(l, e.op.value.update.requestURL)
                  && Applies(e, l.url, e.op.value.update.requestURL, r.value, FailOf(a), SaltDrawn(a)))
  {
    if a.BootApply? || (a.Event? && l.phase.Streaming? && |l.phase.ended| < |l.phase.order|) {
      BootOrEventIsApplied(c, file, claimed, l, a);
    } else if a.Poll? && l.phase.Polling? {
      PollIsTaken(c, file, claimed, l, a.replies, a.fail, a.newSalt, a.saved);
      PassIsApplied(l, PollPass(c, l, a.replies), a.fail, a.newSalt, a.saved);
      UpdateIsTheDelivery(c, file, claimed, l, a);
    } else {
      NothingDelivered(c, file, claimed, l, a);
    }
  }

  lemma NothingDelivered(c: Store.Crypto, file: State, claimed: map<string, string>, l: Loop, a: Action)
    requires !a.BootApply?
    requires !(a.Event? && l.phase.Streaming? && |l.phase.ended| < |l.phase.order|) && !(a.Poll? && l.phase.Polling?)
    ensures !UpdateSaved(Act(c, file, claimed, l, a)) && Delivered(c, l, a).None?
  {
  }

  // ----- over whole runs

  /** A response that reached a loop in a step that could save it. */
  datatype Delivery = Delivery(who: nat, url: string, response: Response)

  /** The saved deliveries of a run, in order. */
  ghost function Deliveries(c: Store.Crypto, s: System, steps: seq<Step>): seq<Delivery> {
    if steps == [] then []
    else
      var front, step := steps[..|steps| - 1], steps[|steps| - 1];
      var loops := Run(c, s, front).loops;
      if step.who < |loops| && Delivered(c, loops[step.who], step.action).Some? && Saves(step.action)
      then Deliveries(c, s, front) + [Delivery(step.who, loops[step.who].url, Delivered(c, loops[step.who], step.action).value)]
      else Deliveries(c, s, front)
  }

  /** The updates among the operations saved to the state file. */
  function Updates(trace: seq<Logged>): seq<Logged> {
    if trace == [] then []
    else
      var front, last := Updates(trace[..|trace| - 1]), trace[|trace| - 1];
      if last.op.Remote? then front + [last] else front
  }

  lemma UpdatesSnoc(trace: seq<Logged>, last: Logged)
    ensures Updates(trace + [last]) == if last.op.Remote? then Updates(trace) + [last] else Updates(trace)
  {
    assert (trace + [last])[..|trace + [last]| - 1] == trace;
  }

  /** The update is that delivery's response, saved by the same loop. */
  predicate IsUpdateOf(entry: Logged, d: Delivery) {
    entry.who == d.who && entry.op.Remote? && Files(entry.op.update, d.url, entry.op.update.requestURL, d.response)
  }

  ghost predicate AreUpdatesOf(entries: seq<Logged>, ds: seq<Delivery>) {
    |entries| == |ds| && forall k :: 0 <= k < |ds| ==> IsUpdateOf(entries[k], ds[k])
  }

  /** One more step adds an update to the trace exactly if it adds a delivery, and then they are the same response. */
  lemma StepIsTraced(c: Store.Crypto, before: System, step: Step, trace: seq<Logged>, ds: seq<Delivery>)
    requires step.who < |before.loops| && PhaseOk(c, before.loops[step.who]) && AreUpdatesOf(Updates(trace), ds)
    ensures var e, l := EffectOf(c, before, step), before.loops[step.who];
            var r := Delivered(c, l, step.action);
            AreUpdatesOf(Updates(if e.op.Some? then trace + [Logged(step.who, e.op.value)] else trace),
                         if r.Some? && Saves(step.action) then ds + [Delivery(step.who, l.url, r.value)] else ds)
  {
    var e, l := EffectOf(c, before, step), before.loops[step.who];
    DeliveryIsApplied(c, before.file, before.claimed, l, step.action);
    if e.op.Some? {
      UpdatesSnoc(trace, Logged(step.who, e.op.value));
    }
  }

  /** Over every run, the updates saved to the state file are exactly the responses that reached the loops when it could
      be saved: each once, in order, none lost and none made up. */
  lemma {:induction false} DeliveriesAreTraced(c: Store.Crypto, s: System, steps: seq<Step>)
    requires Validates(c) && Initial(s)
    ensures AreUpdatesOf(Updates(Trace(c, s, steps)), Deliveries(c, s, steps))
  {
    if steps != [] {
      var front, step := steps[..|steps| - 1], steps[|steps| - 1];
      DeliveriesAreTraced(c, s, front);
      ReachableClaims(c, s, front);
      if step.who < |Run(c, s, front).loops| {
        StepIsTraced(c, Run(c, s, front), step, Trace(c, s, front), Deliveries(c, s, front));
      }
    }
  }
}
