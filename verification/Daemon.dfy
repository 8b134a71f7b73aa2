/** The daemon: one loop per setup URL, interleaved step by step over one state file and one claim table.
    What the network, the backend and the disk do in a step is part of the step. */
module Daemon {
  import opened Text
  import opened Model
  import opened Failover
  import Store

  /** A success response on the wire, its document plain or encrypted. */
  datatype Message = Message(body: Body, revision: string, ttl: int, supportsSSE: bool)

  datatype Body = Plain(doc: FeedDocument) | Sealed(data: string)

  /** A decoded success response. `sealed` is the ciphertext the document came in, if it was encrypted. */
  datatype Response = Response(doc: FeedDocument, revision: string, ttl: int, supportsSSE: bool, sealed: Option<string>)

  datatype Reply<+R> = Fetched(response: R) | NotModified

  datatype Phase =
    | Start
    | Claiming(found: seq<string>)
    | Top
    | BootClaiming(boot: Response)
    | BootApplying(boot: Response)
    | Streaming(order: seq<string>, ended: seq<bool>)  // how each endpoint so far ended: terminally or not
    | Probing
    | PollTop
    | Polling
    | Offline(polling: bool)
    | LateClaim
    | WithoutEndpoints
    | Silent
    | Exited

  /** The local variables of a feed loop. */
  datatype Loop = Loop(url: string, phase: Phase, feedID: string, endpoints: seq<string>, lastRevision: string)

  /** `claimed` is the claim table. `claimant` is history: which loop made the claim. */
  datatype System = System(file: State, claimed: map<string, string>, claimant: map<string, nat>, loops: seq<Loop>)

  /** `saved` tells whether the state file could be loaded and written back. */
  datatype Action =
    | Resolve(newSalt: string, saved: bool)
    | Claim
    | Bootstrap(outcome: Outcome<Message>)
    | BootApply(fail: Option<nat>, newSalt: string, saved: bool)
    | OpenStream
    | Event(event: Message, fail: Option<nat>, newSalt: string, saved: bool)
    | EndpointEnds(terminal: bool)
    | StreamUnsupported
    | CloseStream
    | Probe(probes: string -> Outcome<Message>)
    | OrderForPoll(loaded: bool)
    | Poll(replies: string -> Outcome<Reply<Message>>, fail: Option<nat>, newSalt: string, saved: bool)
    | ReconcileOffline(fail: Option<nat>, saved: bool)
    | SkipOffline
    | Cancel

  // ----- what counts as a response

  ghost predicate WellFormed(c: Store.Crypto, url: string, r: Response) {
    && ValidDocument(r.doc)
    && !Blank(r.revision)
    && (r.sealed.Some? ==> c.Decrypt(url, r.sealed.value) == Some(r.doc))
  }

  const MALFORMED := Failure("invalid response", false)

  /** A message that does not validate is an error, and not a terminal one. Whether an encrypted document that
      cannot be opened is terminal depends on what keeps it shut. */
  ghost function Decoded(c: Store.Crypto, url: string, m: Message): Outcome<Response> {
    if Blank(m.revision) then Error(MALFORMED)
    else match m.body
      case Plain(doc) =>
        if ValidDocument(doc) then Success(Response(doc, m.revision, m.ttl, m.supportsSSE, None)) else Error(MALFORMED)
      case Sealed(data) =>
        if Blank(data) then Error(MALFORMED)
        else match c.open(url, data)
          case Opened(doc) => Success(Response(doc, m.revision, m.ttl, m.supportsSSE, Some(data)))
          case Unopened(refused) => Error(Failure("cannot decrypt", refused))
  }

  ghost function Received(c: Store.Crypto, url: string, outcome: Outcome<Message>): Outcome<Response> {
    match outcome
    case Error(failure) => Error(failure)
    case Success(m) => Decoded(c, url, m)
  }

  ghost function ReceivedReply(c: Store.Crypto, url: string, outcome: Outcome<Reply<Message>>): Outcome<Reply<Response>> {
    match outcome
    case Error(failure) => Error(failure)
    case Success(reply) =>
      if reply.NotModified? then Success(NotModified)
      else match Decoded(c, url, reply.response)
        case Error(failure) => Error(failure)
        case Success(r) => Success(Fetched(r))
  }

  ghost function PollPass(c: Store.Crypto, l: Loop, replies: string -> Outcome<Reply<Message>>): Pass<Reply<Response>> {
    PassOver(Normalized(l.endpoints), e => ReceivedReply(c, l.url, replies(e)))
  }

  ghost function ProbePass(c: Store.Crypto, l: Loop, probes: string -> Outcome<Message>): Pass<Response> {
    PassOver(Normalized(l.endpoints), e => Received(c, l.url, probes(e)))
  }

  function UpdateFrom(l: Loop, requestURL: string, r: Response): Store.Update {
    Store.Update(l.url, requestURL, r.doc, r.revision, r.ttl, if r.sealed.Some? then r.sealed.value else "")
  }

  // ----- steps

  /** What a step does: the loop afterwards, the operation saved to the state file, and the feed id claimed. */
  datatype Effect = Effect(loop: Loop, op: Option<Store.Op>, claim: Option<string>)

  function Only(l: Loop): Effect {
    Effect(l, None, None)
  }

  ghost function TakeResolve(c: Store.Crypto, file: State, l: Loop, newSalt: string, saved: bool): Effect {
    if !saved then Only(l.(phase := Exited))
    else
      var next := match Store.Resolve(c, file, l.url, newSalt).1
        case Unresolved(_) => l.(phase := Exited)
        case Resolved(feedID, endpoints) =>
          if Blank(feedID) then l.(endpoints := endpoints, phase := Top)
          else l.(feedID := TrimSpace(feedID), phase := Claiming(endpoints));
      Effect(next, Some(Store.Lookup(l.url, newSalt)), None)
  }

  /** A claim is refused whenever the feed id was claimed before, whoever did. */
  function TakeClaim(claimed: map<string, string>, l: Loop, granted: Loop): Effect {
    if l.feedID in claimed then Only(l.(phase := Exited)) else Effect(granted, None, Some(l.feedID))
  }

  ghost function TakeBootstrap(c: Store.Crypto, l: Loop, outcome: Outcome<Message>): Effect {
    match Received(c, l.url, outcome)
    case Error(failure) => Only(l.(phase := if failure.terminal then Exited else Offline(false)))
    case Success(r) =>
      if l.feedID != "" then Only(l.(phase := BootApplying(r)))
      else if Blank(r.doc.id) then Only(l.(phase := Exited))
      else Only(l.(feedID := TrimSpace(r.doc.id), phase := BootClaiming(r)))
  }

  function TakeBootApply(c: Store.Crypto, file: State, l: Loop, r: Response, fail: Option<nat>, newSalt: string, saved: bool): Effect {
    var u := UpdateFrom(l, l.url, r);
    var ok := saved && Store.ApplyRemoteUpdate(c, file, u, fail, newSalt).1.None?;
    var next := l.(endpoints := r.doc.endpoints);
    Effect(if ok then next.(lastRevision := TrimSpace(r.revision), phase := Top) else next.(phase := Exited),
           if saved then Some(Store.Remote(u, fail, newSalt)) else None, None)
  }

  function Ending(l: Loop, terminal: bool): Loop
    requires l.phase.Streaming?
  {
    l.(phase := l.phase.(ended := l.phase.ended + [terminal]))
  }

  /** An event that cannot be decoded is passed over, unless the error is terminal; then it ends this endpoint's
      stream. An update that cannot be applied ends it too, and not terminally. */
  ghost function TakeEvent(c: Store.Crypto, file: State, l: Loop, m: Message, fail: Option<nat>, newSalt: string, saved: bool): Effect
    requires l.phase.Streaming? && |l.phase.ended| < |l.phase.order|
  {
    match Decoded(c, l.url, m)
    case Error(failure) => Only(if failure.terminal then Ending(l, true) else l)
    case Success(r) =>
      if l.feedID == "" then Only(l.(phase := LateClaim))
      else
        var u := UpdateFrom(l, l.phase.order[|l.phase.ended|], r);
        var ok := saved && Store.ApplyRemoteUpdate(c, file, u, fail, newSalt).1.None?;
        var next := l.(lastRevision := TrimSpace(r.revision), endpoints := r.doc.endpoints);
        Effect(if ok then next else Ending(next, false),
               if saved then Some(Store.Remote(u, fail, newSalt)) else None, None)
  }

  /** What a pass of polling comes to. */
  function TakePass(l: Loop, pass: Pass<Reply<Response>>, fail: Option<nat>, newSalt: string, saved: bool): Effect {
    match pass
    case NoEndpoints => Only(l.(phase := WithoutEndpoints))
    case Failed(failure, _) => Only(l.(phase := if failure.terminal then Silent else Offline(true)))
    case Found(reply, endpoint) =>
      if reply.NotModified? then Only(l.(phase := PollTop))
      else if l.feedID == "" then Only(l.(phase := LateClaim))
      else
        var r := reply.response;
        Effect(l.(lastRevision := TrimSpace(r.revision), endpoints := r.doc.endpoints, phase := PollTop),
               if saved then Some(Store.Remote(UpdateFrom(l, endpoint, r), fail, newSalt)) else None, None)
  }

  ghost function TakePoll(c: Store.Crypto, l: Loop, replies: string -> Outcome<Reply<Message>>, fail: Option<nat>, newSalt: string, saved: bool): Effect {
    TakePass(l, PollPass(c, l, replies), fail, newSalt, saved)
  }

  function AllTerminal(ended: seq<bool>): bool {
    forall i :: 0 <= i < |ended| ==> ended[i]
  }

  ghost function Act(c: Store.Crypto, file: State, claimed: map<string, string>, l: Loop, a: Action): Effect {
    match a
    case Resolve(newSalt, saved) =>
      if l.phase.Start? then TakeResolve(c, file, l, newSalt, saved) else Only(l)
    case Claim =>
      if l.phase.Claiming? then TakeClaim(claimed, l, l.(endpoints := l.phase.found, phase := Top))
      else if l.phase.BootClaiming? then TakeClaim(claimed, l, l.(phase := BootApplying(l.phase.boot)))
      else Only(l)
    case Bootstrap(outcome) =>
      if l.phase.Top? && l.endpoints == [] then TakeBootstrap(c, l, outcome) else Only(l)
    case BootApply(fail, newSalt, saved) =>
      if l.phase.BootApplying? then TakeBootApply(c, file, l, l.phase.boot, fail, newSalt, saved) else Only(l)
    case OpenStream =>
      if l.phase.Top? && l.endpoints != [] then
        Only(l.(phase := if Normalized(l.endpoints) == [] then WithoutEndpoints else Streaming(Normalized(l.endpoints), [])))
      else Only(l)
    case Event(m, fail, newSalt, saved) =>
      if l.phase.Streaming? && |l.phase.ended| < |l.phase.order| then TakeEvent(c, file, l, m, fail, newSalt, saved) else Only(l)
    case EndpointEnds(terminal) =>
      if l.phase.Streaming? && |l.phase.ended| < |l.phase.order| then Only(Ending(l, terminal)) else Only(l)
    case StreamUnsupported =>
      if l.phase.Streaming? && |l.phase.ended| < |l.phase.order| then Only(l.(phase := Probing)) else Only(l)
    case CloseStream =>
      if l.phase.Streaming? && |l.phase.ended| == |l.phase.order| then
        Only(l.(phase := if AllTerminal(l.phase.ended) then Silent else Offline(false)))
      else Only(l)
    case Probe(probes) =>
      if l.phase.Probing? then
        var pass := ProbePass(c, l, probes);
        Only(l.(phase := if pass.Found? && pass.result.supportsSSE then Top else PollTop))
      else Only(l)
    case OrderForPoll(loaded) =>
      if l.phase.PollTop? then
        Only(l.(endpoints := if loaded then Store.OrderEndpoints(c, file, l.feedID, l.endpoints) else l.endpoints, phase := Polling))
      else Only(l)
    case Poll(replies, fail, newSalt, saved) =>
      if l.phase.Polling? then TakePoll(c, l, replies, fail, newSalt, saved) else Only(l)
    case ReconcileOffline(fail, saved) =>
      if l.phase.Offline? then
        Effect(l.(phase := if l.phase.polling then PollTop else Top),
               if saved && l.feedID != "" then Some(Store.FromCache(l.url, l.feedID, fail)) else None, None)
      else Only(l)
    case SkipOffline =>
      if l.phase.Offline? then Only(l.(phase := if l.phase.polling then PollTop else Top)) else Only(l)
    case Cancel =>
      Only(l.(phase := Exited))
  }

  lemma EventIsTaken(c: Store.Crypto, file: State, claimed: map<string, string>, l: Loop, m: Message, fail: Option<nat>, newSalt: string, saved: bool)
    requires l.phase.Streaming? && |l.phase.ended| < |l.phase.order|
    ensures Act(c, file, claimed, l, Event(m, fail, newSalt, saved)) == TakeEvent(c, file, l, m, fail, newSalt, saved)
  {
  }

  lemma PollIsTaken(c: Store.Crypto, file: State, claimed: map<string, string>, l: Loop, replies: string -> Outcome<Reply<Message>>, fail: Option<nat>, newSalt: string, saved: bool)
    requires l.phase.Polling?
    ensures Act(c, file, claimed, l, Poll(replies, fail, newSalt, saved)) == TakePoll(c, l, replies, fail, newSalt, saved)
  {
  }

  /** A step of loop `who`. */
  datatype Step = Step(who: nat, action: Action)

  ghost function EffectOf(c: Store.Crypto, s: System, step: Step): Effect
    requires step.who < |s.loops|
  {
    Act(c, s.file, s.claimed, s.loops[step.who], step.action)
  }

  /** The system after loop `who` had effect `e`. */
  function Commit(c: Store.Crypto, s: System, who: nat, e: Effect): System
    requires who < |s.loops|
  {
    System(
      if e.op.Some? then Store.Exec(c, s.file, e.op.value) else s.file,
      if e.claim.Some? then s.claimed[e.claim.value := s.loops[who].url] else s.claimed,
      if e.claim.Some? then s.claimant[e.claim.value := who] else s.claimant,
      s.loops[who := e.loop])
  }

  ghost function Take(c: Store.Crypto, s: System, step: Step): System {
    if step.who >= |s.loops| then s else Commit(c, s, step.who, EffectOf(c, s, step))
  }

  ghost function Run(c: Store.Crypto, s: System, steps: seq<Step>): System {
    if steps == [] then s else Take(c, Run(c, s, steps[..|steps| - 1]), steps[|steps| - 1])
  }

  ghost predicate Initial(s: System) {
    && s.claimed == map[] && s.claimant == map[]
    && forall i :: 0 <= i < |s.loops| ==> s.loops[i] == Loop(TrimSpace(s.loops[i].url), Start, "", [], "")
  }
}
