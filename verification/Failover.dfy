/** One pass over the endpoints: which result, or which error, stands for the whole pass. */
module Failover {
  import opened Text
  import opened Lists
  import EndpointOrder

  /** A terminal failure is a protocol error that asks the client not to retry. */
  datatype Failure = Failure(message: string, terminal: bool)

  datatype Outcome<+R> = Success(result: R) | Error(failure: Failure)

  datatype Pass<+R> = NoEndpoints | Found(result: R, endpoint: string) | Failed(failure: Failure, endpoint: string)

  /** How an event stream stopped, other than by failing. */
  datatype StreamStop = Closed | NotSupported

  // ----- specification

  /** The endpoints of a pass: trimmed, without the blank ones and without repetitions. */
  function Normalized(endpoints: seq<string>): seq<string> {
    EndpointOrder.Added(endpoints)
  }

  ghost predicate Tries<R(!new)>(order: seq<string>, attempt: string -> Outcome<R>, n: nat) {
    n <= |order| && forall i :: 0 <= i < n ==> attempt(order[i]).Error?
  }

  /** The first success stands for the pass; failing that a terminal error exactly when every endpoint was
      terminal; failing that the last error that was not. */
  ghost predicate Decides<R(!new)>(order: seq<string>, attempt: string -> Outcome<R>, pass: Pass<R>) {
    match pass
    case NoEndpoints =>
      order == []
    case Found(result, endpoint) =>
      exists i :: 0 <= i < |order| && Tries(order, attempt, i) && order[i] == endpoint && attempt(endpoint) == Success(result)
    case Failed(failure, endpoint) =>
      && order != [] && Tries(order, attempt, |order|)
      && exists i :: 0 <= i < |order| && order[i] == endpoint && attempt(endpoint) == Error(failure)
                     && LastOfItsKind(order, attempt, failure.terminal, i)
  }

  ghost predicate LastOfItsKind<R(!new)>(order: seq<string>, attempt: string -> Outcome<R>, terminal: bool, i: nat) {
    if terminal then
      i == |order| - 1 && forall j :: 0 <= j < |order| ==> attempt(order[j]).Error? && attempt(order[j]).failure.terminal
    else
      forall j :: i < j < |order| ==> attempt(order[j]).Error? && attempt(order[j]).failure.terminal
  }

  /** The decision is unique. */
  lemma OneDecision<R(!new)>(order: seq<string>, attempt: string -> Outcome<R>, a: Pass<R>, b: Pass<R>)
    requires Decides(order, attempt, a) && Decides(order, attempt, b)
    ensures a == b
  {
    if a.Found? && b.Found? {
      var i :| 0 <= i < |order| && Tries(order, attempt, i) && order[i] == a.endpoint && attempt(a.endpoint) == Success(a.result);
      var j :| 0 <= j < |order| && Tries(order, attempt, j) && order[j] == b.endpoint && attempt(b.endpoint) == Success(b.result);
      assert i == j;
    } else if a.Failed? && b.Failed? {
      var i :| 0 <= i < |order| && order[i] == a.endpoint && attempt(a.endpoint) == Error(a.failure)
               && LastOfItsKind(order, attempt, a.failure.terminal, i);
      var j :| 0 <= j < |order| && order[j] == b.endpoint && attempt(b.endpoint) == Error(b.failure)
               && LastOfItsKind(order, attempt, b.failure.terminal, j);
      assert i == j;
    }
  }

  /** A pass ends terminally exactly when there were endpoints and every one of them was terminal. */
  lemma TerminalExactlyWhenAllAre<R(!new)>(order: seq<string>, attempt: string -> Outcome<R>, pass: Pass<R>)
    requires Decides(order, attempt, pass)
    ensures pass.Failed? && pass.failure.terminal <==>
            order != [] && forall e <- order :: attempt(e).Error? && attempt(e).failure.terminal
  {
    if order != [] && forall e <- order :: attempt(e).Error? && attempt(e).failure.terminal {
      assert forall i :: 0 <= i < |order| ==> order[i] in order;
    }
  }

  /** The decision, computed. */
  function PassOver<R>(order: seq<string>, attempt: string -> Outcome<R>): Pass<R> {
    if order == [] then NoEndpoints
    else
      Next(PassOver(order[..|order| - 1], attempt), order[|order| - 1], attempt)
  }

  /** The pass with one more endpoint. */
  function Next<R>(front: Pass<R>, last: string, attempt: string -> Outcome<R>): Pass<R> {
    if front.Found? then front
    else match attempt(last)
      case Success(result) => Found(result, last)
      case Error(failure) =>
        if failure.terminal && front.Failed? && !front.failure.terminal then front else Failed(failure, last)
  }

  lemma {:induction false} PassOverDecides<R(!new)>(order: seq<string>, attempt: string -> Outcome<R>)
    ensures Decides(order, attempt, PassOver(order, attempt))
  {
    if order != [] {
      var n := |order| - 1;
      var front, pass := PassOver(order[..n], attempt), PassOver(order, attempt);
      PassOverDecides(order[..n], attempt);
      match front
      case Found(result, endpoint) =>
        var i :| 0 <= i < n && Tries(order[..n], attempt, i) && order[..n][i] == endpoint && attempt(endpoint) == Success(result);
        assert Tries(order, attempt, i) && order[i] == endpoint;
      case NoEndpoints =>
        assert Tries(order, attempt, 0) && order[n] == order[0];
      case Failed(failure, endpoint) =>
        assert forall j :: 0 <= j < n ==> order[..n][j] == order[j];
        assert Tries(order, attempt, n);
        var i :| 0 <= i < n && order[..n][i] == endpoint && attempt(endpoint) == Error(failure)
                 && LastOfItsKind(order[..n], attempt, failure.terminal, i);
        if pass.Failed? {
          var kept := attempt(order[n]).failure.terminal && !failure.terminal;
          assert LastOfItsKind(order, attempt, pass.failure.terminal, if kept then i else n);
        }
    }
  }

  lemma NormalizedIsClean(endpoints: seq<string>)
    ensures NoDup(Normalized(endpoints))
    ensures forall e :: e in Normalized(endpoints) <==> e in EndpointOrder.Clean(endpoints)
  {
    EndpointOrder.AddedIsDedup(endpoints);
    DedupContents(EndpointOrder.Clean(endpoints));
  }

  // ----- the pass on the list as it was given

  /** The entry is blank, or its endpoint was asked in vain. */
  predicate PassedOver<R>(endpoints: seq<string>, attempt: string -> Outcome<R>, i: nat)
    requires i < |endpoints|
  {
    Blank(endpoints[i]) || attempt(TrimSpace(endpoints[i])).Error?
  }

  /** The entry brings no endpoint that was not there before. */
  ghost predicate NothingNew(endpoints: seq<string>, i: nat)
    requires i < |endpoints|
  {
    Blank(endpoints[i]) || exists j :: 0 <= j < i && TrimSpace(endpoints[j]) == TrimSpace(endpoints[i])
  }

  predicate RefusesAt<R>(endpoints: seq<string>, attempt: string -> Outcome<R>, i: nat)
    requires i < |endpoints|
  {
    var outcome := attempt(TrimSpace(endpoints[i]));
    outcome.Error? && outcome.failure.terminal
  }

  /** Entry `i` succeeds, and every entry before it is passed over. */
  ghost predicate SucceedsAt<R(!new)>(endpoints: seq<string>, attempt: string -> Outcome<R>, i: nat, result: R, endpoint: string) {
    && i < |endpoints| && !Blank(endpoints[i]) && TrimSpace(endpoints[i]) == endpoint && attempt(endpoint) == Success(result)
    && forall j :: 0 <= j < i ==> PassedOver(endpoints, attempt, j)
  }

  /** Entry `i` fails, and no entry after it brings a new endpoint that fails otherwise than terminally; nor does any
      entry at all, and no new endpoint comes later, if this failure is terminal. */
  ghost predicate FailsAt<R(!new)>(endpoints: seq<string>, attempt: string -> Outcome<R>, i: nat, failure: Failure, endpoint: string) {
    && i < |endpoints| && !NothingNew(endpoints, i) && TrimSpace(endpoints[i]) == endpoint && attempt(endpoint) == Error(failure)
    && (forall j :: i < j < |endpoints| ==> NothingNew(endpoints, j) || (RefusesAt(endpoints, attempt, j) && !failure.terminal))
    && (failure.terminal ==> forall j :: 0 <= j < |endpoints| ==> Blank(endpoints[j]) || RefusesAt(endpoints, attempt, j))
  }

  /** The decision read off the list as it was given, blanks, spaces and repetitions included. */
  ghost predicate DecidesInOrder<R(!new)>(endpoints: seq<string>, attempt: string -> Outcome<R>, pass: Pass<R>) {
    match pass
    case NoEndpoints =>
      forall i :: 0 <= i < |endpoints| ==> Blank(endpoints[i])
    case Found(result, endpoint) =>
      exists i: nat :: SucceedsAt(endpoints, attempt, i, result, endpoint)
    case Failed(failure, endpoint) =>
      && (forall i :: 0 <= i < |endpoints| ==> PassedOver(endpoints, attempt, i))
      && exists i: nat :: FailsAt(endpoints, attempt, i, failure, endpoint)
  }

  lemma OneSuccess<R(!new)>(endpoints: seq<string>, attempt: string -> Outcome<R>, a: Pass<R>, b: Pass<R>)
    requires a.Found? && b.Found? && DecidesInOrder(endpoints, attempt, a) && DecidesInOrder(endpoints, attempt, b)
    ensures a == b
  {
    var i: nat :| SucceedsAt(endpoints, attempt, i, a.result, a.endpoint);
    var j: nat :| SucceedsAt(endpoints, attempt, j, b.result, b.endpoint);
    NoLaterSuccess(endpoints, attempt, i, a, j, b);
    NoLaterSuccess(endpoints, attempt, j, b, i, a);
  }

  lemma NoLaterSuccess<R(!new)>(endpoints: seq<string>, attempt: string -> Outcome<R>, i: nat, a: Pass<R>, j: nat, b: Pass<R>)
    requires a.Found? && b.Found?
    requires SucceedsAt(endpoints, attempt, i, a.result, a.endpoint) && SucceedsAt(endpoints, attempt, j, b.result, b.endpoint)
    ensures j <= i
  {
    assert i < j ==> PassedOver(endpoints, attempt, i);
  }

  lemma OneFailure<R(!new)>(endpoints: seq<string>, attempt: string -> Outcome<R>, a: Pass<R>, b: Pass<R>)
    requires a.Failed? && b.Failed? && DecidesInOrder(endpoints, attempt, a) && DecidesInOrder(endpoints, attempt, b)
    ensures a == b
  {
    var i: nat :| FailsAt(endpoints, attempt, i, a.failure, a.endpoint);
    var j: nat :| FailsAt(endpoints, attempt, j, b.failure, b.endpoint);
    NoLaterFailure(endpoints, attempt, i, a, j, b);
    NoLaterFailure(endpoints, attempt, j, b, i, a);
  }

  /** A decision of one kind rules out those of the other kinds. */
  lemma OneKind<R(!new)>(endpoints: seq<string>, attempt: string -> Outcome<R>, pass: Pass<R>)
    requires DecidesInOrder(endpoints, attempt, pass)
    ensures pass.NoEndpoints? <==> forall i :: 0 <= i < |endpoints| ==> Blank(endpoints[i])
    ensures pass.Found? <==> exists i :: 0 <= i < |endpoints| && !PassedOver(endpoints, attempt, i)
  {
    match pass
    case NoEndpoints =>
    case Found(result, endpoint) =>
      var i: nat :| SucceedsAt(endpoints, attempt, i, result, endpoint);
      assert !PassedOver(endpoints, attempt, i);
    case Failed(failure, endpoint) =>
      var i: nat :| FailsAt(endpoints, attempt, i, failure, endpoint);
      assert !Blank(endpoints[i]);
  }

  lemma OneDecisionInOrder<R(!new)>(endpoints: seq<string>, attempt: string -> Outcome<R>, a: Pass<R>, b: Pass<R>)
    requires DecidesInOrder(endpoints, attempt, a) && DecidesInOrder(endpoints, attempt, b)
    ensures a == b
  {
    OneKind(endpoints, attempt, a);
    OneKind(endpoints, attempt, b);
    if a.Found? { OneSuccess(endpoints, attempt, a, b); }
    if a.Failed? { OneFailure(endpoints, attempt, a, b); }
  }

  lemma NoLaterFailure<R(!new)>(endpoints: seq<string>, attempt: string -> Outcome<R>, i: nat, a: Pass<R>, j: nat, b: Pass<R>)
    requires a.Failed? && b.Failed?
    requires FailsAt(endpoints, attempt, i, a.failure, a.endpoint) && FailsAt(endpoints, attempt, j, b.failure, b.endpoint)
    ensures j <= i
  {
  }

  lemma NormalizedSnoc(front: seq<string>, e: string)
    ensures Normalized(front + [e]) ==
            if NothingNew(front + [e], |front|) then Normalized(front) else Normalized(front) + [TrimSpace(e)]
  {
    EndpointOrder.AddedSnoc(front, e);
    EndpointOrder.InClean(front, TrimSpace(e));
    NormalizedIsClean(front);
    assert NothingNew(front + [e], |front|) <==> Blank(e) || EndpointOrder.Mentions(front, TrimSpace(e)) by {
      assert forall j :: 0 <= j < |front| ==> TrimSpace((front + [e])[j]) == TrimSpace(front[j]);
    }
  }

  lemma SameFront<R>(front: seq<string>, e: string, attempt: string -> Outcome<R>)
    ensures forall j: nat :: j < |front| ==> (NothingNew(front + [e], j) <==> NothingNew(front, j))
    ensures forall j: nat :: j < |front| ==> (PassedOver(front + [e], attempt, j) <==> PassedOver(front, attempt, j))
    ensures forall j: nat :: j < |front| ==> (RefusesAt(front + [e], attempt, j) <==> RefusesAt(front, attempt, j))
  {
    forall j: nat | j < |front| ensures NothingNew(front + [e], j) <==> NothingNew(front, j) {
      assert forall i :: 0 <= i < j ==> TrimSpace((front + [e])[i]) == TrimSpace(front[i]);
    }
  }

  /** An entry that brings nothing new changes no decision. */
  lemma NothingNewChangesNothing<R(!new)>(front: seq<string>, e: string, attempt: string -> Outcome<R>, pass: Pass<R>)
    requires DecidesInOrder(front, attempt, pass) && NothingNew(front + [e], |front|)
    ensures DecidesInOrder(front + [e], attempt, pass)
  {
    var all := front + [e];
    match pass
    case NoEndpoints =>
      assert forall j :: 0 <= j < |front| ==> all[j] == front[j] && Blank(all[j]);
    case Found(result, endpoint) =>
      var i: nat :| SucceedsAt(front, attempt, i, result, endpoint);
      SameFront(front, e, attempt);
      assert SucceedsAt(all, attempt, i, result, endpoint);
    case Failed(failure, endpoint) =>
      var i: nat :| FailsAt(front, attempt, i, failure, endpoint);
      RepeatedFailure(front, e, attempt, i, failure, endpoint);
  }

  lemma RepeatedFailure<R(!new)>(front: seq<string>, e: string, attempt: string -> Outcome<R>, i: nat, failure: Failure, endpoint: string)
    requires NothingNew(front + [e], |front|) && FailsAt(front, attempt, i, failure, endpoint)
    requires forall j :: 0 <= j < |front| ==> PassedOver(front, attempt, j)
    ensures forall j :: 0 <= j < |front + [e]| ==> PassedOver(front + [e], attempt, j)
    ensures FailsAt(front + [e], attempt, i, failure, endpoint)
  {
    var all, n := front + [e], |front|;
    SameFront(front, e, attempt);
    assert PassedOver(all, attempt, n) && (failure.terminal ==> Blank(e) || RefusesAt(all, attempt, n)) by {
      if !Blank(e) {
        var j :| 0 <= j < n && TrimSpace(all[j]) == TrimSpace(all[n]);
        assert PassedOver(front, attempt, j);
      }
    }
  }

  lemma NextEntryDecides<R(!new)>(front: seq<string>, e: string, attempt: string -> Outcome<R>, pass: Pass<R>)
    requires DecidesInOrder(front, attempt, pass) && !NothingNew(front + [e], |front|)
    ensures DecidesInOrder(front + [e], attempt, Next(pass, TrimSpace(e), attempt))
  {
    var all, n, last := front + [e], |front|, TrimSpace(e);
    SameFront(front, e, attempt);
    if pass.Found? {
      var i: nat :| SucceedsAt(front, attempt, i, pass.result, pass.endpoint);
      assert SucceedsAt(all, attempt, i, pass.result, pass.endpoint);
    } else {
      assert forall j :: 0 <= j < n ==> PassedOver(all, attempt, j) by {
        if pass.NoEndpoints? { assert forall j :: 0 <= j < n ==> Blank(front[j]); }
      }
      if attempt(last).Success? {
        assert SucceedsAt(all, attempt, n, attempt(last).result, last);
      } else {
        NextFailure(front, e, attempt, pass);
      }
    }
  }

  lemma NextFailure<R(!new)>(front: seq<string>, e: string, attempt: string -> Outcome<R>, pass: Pass<R>)
    requires DecidesInOrder(front, attempt, pass) && !NothingNew(front + [e], |front|)
    requires !pass.Found? && attempt(TrimSpace(e)).Error?
    ensures var next := Next(pass, TrimSpace(e), attempt);
            next.Failed? && exists i: nat :: FailsAt(front + [e], attempt, i, next.failure, next.endpoint)
  {
    var all, n, last := front + [e], |front|, TrimSpace(e);
    var failure := attempt(last).failure;
    SameFront(front, e, attempt);
    if pass.NoEndpoints? {
      assert forall j :: 0 <= j < n ==> Blank(front[j]);
      assert FailsAt(all, attempt, n, failure, last);
    } else {
      var i: nat :| FailsAt(front, attempt, i, pass.failure, pass.endpoint);
      if failure.terminal && !pass.failure.terminal {
        assert FailsAt(all, attempt, i, pass.failure, pass.endpoint);
      } else {
        assert FailsAt(all, attempt, n, failure, last);
      }
    }
  }

  /** Whatever the list, the pass over its normalised form is the decision on the list as it was given. */
  lemma {:induction false} PassInOrder<R(!new)>(endpoints: seq<string>, attempt: string -> Outcome<R>)
    ensures DecidesInOrder(endpoints, attempt, PassOver(Normalized(endpoints), attempt))
  {
    if endpoints != [] {
      var front, e := endpoints[..|endpoints| - 1], endpoints[|endpoints| - 1];
      assert endpoints == front + [e];
      PassInOrder(front, attempt);
      NormalizedSnoc(front, e);
      if NothingNew(front + [e], |front|) {
        NothingNewChangesNothing(front, e, attempt, PassOver(Normalized(front), attempt));
      } else {
        NextEntryDecides(front, e, attempt, PassOver(Normalized(front), attempt));
        assert (Normalized(front) + [TrimSpace(e)])[..|Normalized(front)|] == Normalized(front);
      }
    }
  }

  lemma DecidedInOrder<R(!new)>(endpoints: seq<string>, attempt: string -> Outcome<R>, pass: Pass<R>)
    ensures Decides(Normalized(endpoints), attempt, pass) <==> DecidesInOrder(endpoints, attempt, pass)
  {
    var computed := PassOver(Normalized(endpoints), attempt);
    PassOverDecides(Normalized(endpoints), attempt);
    PassInOrder(endpoints, attempt);
    if Decides(Normalized(endpoints), attempt, pass) { OneDecision(Normalized(endpoints), attempt, pass, computed); }
    if DecidesInOrder(endpoints, attempt, pass) { OneDecisionInOrder(endpoints, attempt, pass, computed); }
  }

  lemma AllDecidedInOrder<R(!new)>(endpoints: seq<string>, attempt: string -> Outcome<R>)
    ensures forall pass: Pass<R> :: Decides(Normalized(endpoints), attempt, pass) ==> DecidesInOrder(endpoints, attempt, pass)
  {
    forall pass: Pass<R> | Decides(Normalized(endpoints), attempt, pass) ensures DecidesInOrder(endpoints, attempt, pass) {
      DecidedInOrder(endpoints, attempt, pass);
    }
  }

  function TrimAll(es: seq<string>): (ts: seq<string>)
    ensures |ts| == |es| && forall i :: 0 <= i < |es| ==> ts[i] == TrimSpace(es[i])
  {
    seq(|es|, i requires 0 <= i < |es| => TrimSpace(es[i]))
  }

  /** The first entry that is `e` once trimmed, or the length if there is none. */
  function FirstAt(endpoints: seq<string>, e: string): (k: nat)
    ensures k <= |endpoints| && forall j :: 0 <= j < k ==> TrimSpace(endpoints[j]) != e
    ensures k < |endpoints| ==> TrimSpace(endpoints[k]) == e
  {
    var k := First(TrimAll(endpoints), e);
    assert forall j :: 0 <= j < k ==> TrimAll(endpoints)[..k][j] == TrimSpace(endpoints[j]);
    k
  }

  lemma FirstAtSnoc(front: seq<string>, z: string, e: string)
    ensures FirstAt(front + [z], e) ==
            if EndpointOrder.Mentions(front, e) then FirstAt(front, e) else if TrimSpace(z) == e then |front| else |front| + 1
  {
    assert TrimAll(front + [z]) == TrimAll(front) + [TrimSpace(z)];
    FirstSnoc(TrimAll(front), TrimSpace(z), e);
  }

  lemma {:induction false} CleanKeepsOrder(endpoints: seq<string>, x: string, y: string)
    requires x in EndpointOrder.Clean(endpoints) && y in EndpointOrder.Clean(endpoints)
    ensures First(EndpointOrder.Clean(endpoints), x) < First(EndpointOrder.Clean(endpoints), y) <==>
            FirstAt(endpoints, x) < FirstAt(endpoints, y)
  {
    var front, z := endpoints[..|endpoints| - 1], endpoints[|endpoints| - 1];
    var clean := EndpointOrder.Clean(front);
    assert endpoints == front + [z];
    EndpointOrder.CleanSnoc(front, z);
    EndpointOrder.InClean(front, x);
    EndpointOrder.InClean(front, y);
    FirstSnoc(clean, TrimSpace(z), x);
    FirstSnoc(clean, TrimSpace(z), y);
    FirstAtSnoc(front, z, x);
    FirstAtSnoc(front, z, y);
    if x in clean && y in clean {
      CleanKeepsOrder(front, x, y);
    }
  }

  /** The endpoints of a pass are in the order of their first occurrences. */
  lemma NormalizedKeepsOrder(endpoints: seq<string>, x: string, y: string)
    requires x in Normalized(endpoints) && y in Normalized(endpoints)
    ensures First(Normalized(endpoints), x) < First(Normalized(endpoints), y) <==> FirstAt(endpoints, x) < FirstAt(endpoints, y)
  {
    NormalizedIsClean(endpoints);
    EndpointOrder.AddedIsDedup(endpoints);
    DedupKeepsOrder(EndpointOrder.Clean(endpoints), x, y);
    CleanKeepsOrder(endpoints, x, y);
  }

  // ----- implementation

  method NormalizeEndpoints(endpoints: seq<string>) returns (out: seq<string>)
    ensures out == Normalized(endpoints)
  {
    out := [];
    var seen: set<string> := {};
    for i := 0 to |endpoints|
      invariant out == Normalized(endpoints[..i])
      invariant seen == Elements(out)
    {
      var e := TrimSpace(endpoints[i]);
      assert endpoints[..i + 1] == endpoints[..i] + [endpoints[i]];
      EndpointOrder.AddedSnoc(endpoints[..i], endpoints[i]);
      InElements(out, e);
      ElementsSnoc(out, e);
      if e == "" { continue; }
      if e in seen { continue; }
      seen := seen + {e};
      out := out + [e];
    }
    assert endpoints[..|endpoints|] == endpoints;
  }

  /** `asked` lists the requests made, in order. */
  method FetchAnyEndpoints<R(!new)>(endpoints: seq<string>, fetch: string -> Outcome<R>)
    returns (pass: Pass<R>, asked: seq<string>)
    ensures DecidesInOrder(endpoints, fetch, pass) && Decides(Normalized(endpoints), fetch, pass)
    ensures asked <= Normalized(endpoints)
    ensures pass.Found? ==> asked != [] && asked[|asked| - 1] == pass.endpoint && Tries(asked, fetch, |asked| - 1)
    ensures !pass.Found? ==> asked == Normalized(endpoints)
  {
    AllDecidedInOrder(endpoints, fetch);
    var order := NormalizeEndpoints(endpoints);
    if |order| == 0 {
      return NoEndpoints, [];
    }
    var lastTerminal: Option<Pass<R>>, lastNonTerminal: Option<Pass<R>> := None, None;
    var terminalCount := 0;
    for i := 0 to |order|
      invariant Tries(order, fetch, i)
      invariant terminalCount <= i
      invariant terminalCount == i <==> lastNonTerminal.None?
      invariant lastTerminal.None? ==> terminalCount == 0
      invariant lastTerminal.Some? && lastNonTerminal.None? ==>
                  IsFailureAt(order, fetch, lastTerminal.value, true, i - 1)
      invariant lastNonTerminal.None? ==> forall j :: 0 <= j < i ==> fetch(order[j]).failure.terminal
      invariant lastNonTerminal.Some? ==>
                  exists k :: 0 <= k < i && IsFailureAt(order, fetch, lastNonTerminal.value, false, k)
                              && forall j :: k < j < i ==> fetch(order[j]).failure.terminal
    {
      var ep := order[i];
      match fetch(ep)
      case Success(res) =>
        return Found(res, ep), order[..i + 1];
      case Error(failure) =>
        if failure.terminal {
          terminalCount := terminalCount + 1;
          lastTerminal := Some(Failed(failure, ep));
          continue;
        }
        lastNonTerminal := Some(Failed(failure, ep));
        assert IsFailureAt(order, fetch, lastNonTerminal.value, false, i);
    }
    if terminalCount == |order| && lastTerminal.Some? {
      return lastTerminal.value, order;
    }
    if lastNonTerminal.Some? {
      return lastNonTerminal.value, order;
    }
    // The fallbacks after this point in the source are never reached.
    assert false;
  }

  ghost predicate IsFailureAt<R(!new)>(order: seq<string>, attempt: string -> Outcome<R>, pass: Pass<R>, terminal: bool, k: int) {
    && 0 <= k < |order|
    && pass.Failed? && pass.endpoint == order[k] && attempt(order[k]) == Error(pass.failure)
    && pass.failure.terminal == terminal
  }

  method StreamSSEAnyEndpoints(endpoints: seq<string>, stream: string -> Outcome<StreamStop>)
    returns (pass: Pass<StreamStop>, asked: seq<string>)
    ensures DecidesInOrder(endpoints, stream, pass) && Decides(Normalized(endpoints), stream, pass)
    ensures asked <= Normalized(endpoints)
    ensures pass.Found? ==> asked != [] && asked[|asked| - 1] == pass.endpoint && Tries(asked, stream, |asked| - 1)
    ensures !pass.Found? ==> asked == Normalized(endpoints)
  {
    AllDecidedInOrder(endpoints, stream);
    var order := NormalizeEndpoints(endpoints);
    if |order| == 0 {
      return NoEndpoints, [];
    }
    var lastTerminal: Option<Pass<StreamStop>>, lastNonTerminal: Option<Pass<StreamStop>> := None, None;
    var terminalCount := 0;
    for i := 0 to |order|
      invariant Tries(order, stream, i)
      invariant terminalCount <= i
      invariant terminalCount == i <==> lastNonTerminal.None?
      invariant lastTerminal.None? ==> terminalCount == 0
      invariant lastTerminal.Some? && lastNonTerminal.None? ==>
                  IsFailureAt(order, stream, lastTerminal.value, true, i - 1)
      invariant lastNonTerminal.None? ==> forall j :: 0 <= j < i ==> stream(order[j]).failure.terminal
      invariant lastNonTerminal.Some? ==>
                  exists k :: 0 <= k < i && IsFailureAt(order, stream, lastNonTerminal.value, false, k)
                              && forall j :: k < j < i ==> stream(order[j]).failure.terminal
    {
      var ep := order[i];
      match stream(ep)
      case Success(stop) =>
        return Found(stop, ep), order[..i + 1];
      case Error(failure) =>
        if failure.terminal {
          terminalCount := terminalCount + 1;
          lastTerminal := Some(Failed(failure, ep));
          continue;
        }
        lastNonTerminal := Some(Failed(failure, ep));
        assert IsFailureAt(order, stream, lastNonTerminal.value, false, i);
    }
    if terminalCount == |order| && lastTerminal.Some? {
      return lastTerminal.value, order;
    }
    if lastNonTerminal.Some? {
      return lastNonTerminal.value, order;
    }
    // The fallbacks after this point in the source are never reached.
    assert false;
  }
}
