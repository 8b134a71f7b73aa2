/** What a loop asks for, and whom, is always what the last response it received says. */
module DaemonSync {
  import opened Text
  import opened Model
  import opened Failover
  import opened Daemon
  import opened DaemonInvariants
  import Store
  import Recency
  import EndpointOrder

  function PassDelivers(l: Loop, pass: Pass<Reply<Response>>): Option<Response> {
    if l.feedID != "" && pass.Found? && pass.result.Fetched? then Some(pass.result.response) else None
  }

  /** The response that a step brings to its loop and that the loop sets out to apply. */
  ghost function Delivered(c: Store.Crypto, l: Loop, a: Action): Option<Response> {
    match a
    case BootApply(_, _, _) => if l.phase.BootApplying? then Some(l.phase.boot) else None
    case Event(m, _, _, _) =>
      var decoded := Decoded(c, l.url, m);
      if l.phase.Streaming? && |l.phase.ended| < |l.phase.order| && l.feedID != "" && decoded.Success? then Some(decoded.result) else None
    case Poll(replies, _, _, _) => if l.phase.Polling? then PassDelivers(l, PollPass(c, l, replies)) else None
    case _ => None
  }

  /** The last response that reached loop `i`. */
  ghost function LastDelivered(c: Store.Crypto, s: System, steps: seq<Step>, i: nat): Option<Response> {
    if steps == [] then None
    else
      var front, step := steps[..|steps| - 1], steps[|steps| - 1];
      var loops := Run(c, s, front).loops;
      if step.who == i && i < |loops| && Delivered(c, loops[i], step.action).Some? then Delivered(c, loops[i], step.action)
      else LastDelivered(c, s, front, i)
  }

  /** The same endpoints, in whatever order. */
  ghost predicate SameEndpoints(a: seq<string>, b: seq<string>) {
    forall e :: e in EndpointOrder.Clean(a) <==> e in EndpointOrder.Clean(b)
  }

  /** The loop conditionally asks for the response's revision, at the response's endpoints. A loop that received
      nothing yet asks unconditionally. */
  ghost predicate InTouch(l: Loop, last: Option<Response>) {
    && (last.None? ==> l.lastRevision == "")
    && (last.Some? && !l.phase.Exited? ==>
          l.lastRevision == TrimSpace(last.value.revision) && SameEndpoints(l.endpoints, last.value.doc.endpoints))
  }

  lemma OrderKeepsSame(c: Store.Crypto, file: State, feedID: string, endpoints: seq<string>)
    ensures SameEndpoints(Store.OrderEndpoints(c, file, feedID, endpoints), endpoints)
  {
    var out := Store.OrderEndpoints(c, file, feedID, endpoints);
    if !Blank(feedID) && TrimSpace(feedID) in file.feeds {
      var preferred, hash := file.feeds[TrimSpace(feedID)].endpointOrder, Store.HashWith(c, file.salt);
      Recency.OrderKeepsEndpoints(endpoints, preferred, hash);
      EndpointOrder.CleanIsClean(endpoints);
      EndpointOrder.CleanOfClean(out);
    }
  }

  /** A loop that has started never resolves again, and one that received something is past its claims. */
  ghost predicate Underway(l: Loop, last: Option<Response>) {
    last.Some? ==> !l.phase.Start? && !l.phase.Claiming?
  }

  lemma DeliveryInTouch(c: Store.Crypto, file: State, claimed: map<string, string>, l: Loop, a: Action)
    requires PhaseOk(c, l) && Delivered(c, l, a).Some?
    ensures var next := Act(c, file, claimed, l, a).loop; InTouch(next, Delivered(c, l, a)) && Underway(next, Delivered(c, l, a))
  {
  }

  /** Nothing but a delivery changes the revision, and from the top of the loop on nothing but a delivery and
      reordering changes the endpoints. */
  lemma NothingElseChanges(c: Store.Crypto, file: State, claimed: map<string, string>, l: Loop, a: Action)
    requires PhaseOk(c, l) && Delivered(c, l, a).None? && !a.OrderForPoll?
    ensures var next := Act(c, file, claimed, l, a).loop;
            && next.lastRevision == l.lastRevision
            && (!l.phase.Start? && !l.phase.Claiming? ==>
                  !next.phase.Start? && !next.phase.Claiming? && next.endpoints == l.endpoints
                  && (l.phase.Exited? ==> next.phase.Exited?))
  {
  }

  lemma OtherwiseInTouch(c: Store.Crypto, file: State, claimed: map<string, string>, l: Loop, a: Action, last: Option<Response>)
    requires PhaseOk(c, l) && InTouch(l, last) && Underway(l, last) && Delivered(c, l, a).None?
    ensures var next := Act(c, file, claimed, l, a).loop; InTouch(next, last) && Underway(next, last)
  {
    if a.OrderForPoll? {
      OrderKeepsSame(c, file, l.feedID, l.endpoints);
    } else {
      NothingElseChanges(c, file, claimed, l, a);
    }
  }

  /** In every reachable state, every loop that still runs asks for the revision of the last response it received and
      contacts exactly that response's endpoints, though in an order of its own. */
  lemma {:induction false} LoopsAreInTouch(c: Store.Crypto, s: System, steps: seq<Step>, i: nat)
    requires Validates(c) && Initial(s) && i < |s.loops|
    ensures |Run(c, s, steps).loops| == |s.loops|
    ensures var l, last := Run(c, s, steps).loops[i], LastDelivered(c, s, steps, i); InTouch(l, last) && Underway(l, last)
  {
    ReachableClaims(c, s, steps);
    if steps != [] {
      var front, step := steps[..|steps| - 1], steps[|steps| - 1];
      LoopsAreInTouch(c, s, front, i);
      ReachableClaims(c, s, front);
      var before := Run(c, s, front);
      if step.who == i {
        if Delivered(c, before.loops[i], step.action).Some? {
          DeliveryInTouch(c, before.file, before.claimed, before.loops[i], step.action);
        } else {
          OtherwiseInTouch(c, before.file, before.claimed, before.loops[i], step.action, LastDelivered(c, s, front, i));
        }
      }
    }
  }

  /** The URL is the one asked in this phase: the setup URL while bootstrapping, the endpoint whose stream is open,
      or an endpoint of the poll. */
  predicate AskedNow(l: Loop, url: string) {
    || (l.phase.BootApplying? && url == l.url)
    || (l.phase.Streaming? && |l.phase.ended| < |l.phase.order| && url == l.phase.order[|l.phase.ended|])
    || (l.phase.Polling? && url in Normalized(l.endpoints))
  }

  /** An update saved to the state file is the response delivered in that step, from an endpoint that was asked. */
  lemma UpdateIsTheDelivery(c: Store.Crypto, file: State, claimed: map<string, string>, l: Loop, a: Action)
    requires PhaseOk(c, l)
    ensures var e, r := Act(c, file, claimed, l, a), Delivered(c, l, a);
            e.op.Some? && e.op.value.Remote? ==>
              && r.Some?
              && e.op.value.update == UpdateFrom(l, e.op.value.update.requestURL, r.value)
              && AskedNow(l, e.op.value.update.requestURL)
  {
    if a.Poll? && l.phase.Polling? {
      PolledIsDecoded(c, l, a.replies);
    }
  }
}
