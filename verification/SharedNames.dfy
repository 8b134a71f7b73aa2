/** Profiles when feeds share names: what the documents of later operations do to a feed's tunnels. */
module SharedNames {
  import opened Text
  import opened Model
  import opened Device
  import opened Reconcile
  import opened Agreement
  import opened Installed
  import opened Leftovers
  import Store

  // ----- one operation and one name

  /** How many of the tunnels the work got to, the failing one included. */
  function Reached(work: Store.Work, fail: Option<nat>): nat {
    if fail.Some? && fail.value < |work.tunnels| then fail.value + 1 else |work.tunnels|
  }

  /** The work drops a tunnel recorded under `name`. */
  ghost predicate Drops(work: Store.Work, fail: Option<nat>, name: string) {
    fail.None? && DroppedName(work.recorded, work.tunnels, name)
  }

  /** Among the tunnels it got to, the work lists `name` or renames a tunnel away from it; or it drops one. */
  ghost predicate TakesUp(work: Store.Work, fail: Option<nat>, name: string) {
    || Drops(work, fail, name)
    || exists i :: 0 <= i < Reached(work, fail) && (work.tunnels[i].name == name || Releases(work.recorded, work.tunnels[i], name))
  }

  /** What the work leaves under a name that it takes up: nothing, if it drops it or the last tunnel concerned gives it
      up; otherwise what that tunnel asks for. Only a call that failed leaves what it leaves. */
  ghost function Leaves(work: Store.Work, fail: Option<nat>, made: seq<Event>, name: string): Option<Entry> {
    var last, fate := LastEvent(made, name), Last(work.recorded, work.tunnels, Reached(work, fail), name);
    if last.Some? && last.value.outcome.Failed? then Left(last.value)
    else if Drops(work, fail, name) || !fate.Written? then None
    else Some(Wanted(work.recorded, work.tunnels[fate.at]))
  }

  /** The last call under a name, by the document and the records. */
  lemma LastCallOfWork(work: Store.Work, fail: Option<nat>, made: seq<Event>, name: string)
    requires DistinctIds(work.tunnels) && Made(made, work.recorded, work.tunnels, fail)
    ensures LastCall(Calls(made), name) ==
            if Drops(work, fail, name) then Some(Remove(name)) else FatedCall(work.recorded, work.tunnels, Reached(work, fail), name)
  {
    if fail.None? {
      LastCallOfSuccess(made, work.recorded, work.tunnels, name);
    } else {
      CallsFollowLast(work.recorded, work.tunnels, Reached(work, fail), name);
    }
  }

  lemma TakesUpByFate(work: Store.Work, fail: Option<nat>, name: string)
    ensures TakesUp(work, fail, name) <==>
            Drops(work, fail, name) || !Last(work.recorded, work.tunnels, Reached(work, fail), name).Untouched?
  {
    var fate := Last(work.recorded, work.tunnels, Reached(work, fail), name);
    if !fate.Untouched? {
      assert work.tunnels[fate.at].name == name || Releases(work.recorded, work.tunnels[fate.at], name);
    }
  }

  /** Under every name the backend holds what the document says, or what was there before. */
  lemma WorkDecides(dev: Profiles, work: Store.Work, fail: Option<nat>, made: seq<Event>, name: string)
    requires DistinctIds(work.tunnels) && Made(made, work.recorded, work.tunnels, fail)
    ensures Lookup(Play(dev, made), name) ==
            if TakesUp(work, fail, name) then Leaves(work, fail, made, name) else Lookup(dev, name)
  {
    LastCallDecides(dev, made, name);
    LastCallOfWork(work, fail, made, name);
    TakesUpByFate(work, fail, name);
  }

  // ----- over whole runs

  /** What became of tunnel `i` of operation `k`: the last later operation, of whatever feed, that took up its name left
      it as it was wanted; or there was none, and its own feed's names did not clash. */
  ghost predicate StaysAt(c: Store.Crypto, st: State, ps: seq<Performed>, k: nat, work: Store.Work, i: nat)
    requires k < |ps| && i < |work.tunnels|
    decreases |ps|
  {
    var n, name := |ps| - 1, work.tunnels[i].name;
    if k == n then KeepsName(work.recorded, work.tunnels, i)
    else
      var later := WorkAt(c, st, ps, n);
      if later.Some? && TakesUp(later.value, FailOf(ps[n].op), name)
      then Leaves(later.value, FailOf(ps[n].op), ps[n].made, name) == Some(Wanted(work.recorded, work.tunnels[i]))
      else StaysAt(c, st, ps[..n], k, work, i)
  }

  lemma PresentAt(c: Store.Crypto, st: State, dev: Profiles, ps: seq<Performed>, k: nat, i: nat)
    requires Carried(c, st, ps) && k < |ps| && WorkAt(c, st, ps, k).Some? && FailOf(ps[k].op).None? && RemovesDone(ps[k].made)
    requires DistinctIds(WorkAt(c, st, ps, k).value.tunnels) && DistinctNames(WorkAt(c, st, ps, k).value.tunnels)
    requires i < |WorkAt(c, st, ps, k).value.tunnels|
    ensures var work := WorkAt(c, st, ps, k).value;
            Present(Play(dev, HistoryOf(ps[..k + 1])), work.recorded, work.tunnels, i) <==> KeepsName(work.recorded, work.tunnels, i)
  {
    var work := WorkAt(c, st, ps, k).value;
    CarriedUpTo(c, st, ps, k);
    HistoryUpTo(dev, ps, k);
    PresentExactlyWhenSettled(Play(dev, HistoryOf(ps[..k])), ps[k].made, work.recorded, work.tunnels, i);
    SettlesAlone(work.recorded, work.tunnels, i);
  }

  /** One more operation. */
  lemma LookupAfterLast(c: Store.Crypto, st: State, dev: Profiles, ps: seq<Performed>, name: string)
    requires Carried(c, st, ps) && RunDistinct(c, ps) && ps != []
    ensures var n, work := |ps| - 1, WorkAt(c, st, ps, |ps| - 1);
            Lookup(Play(dev, HistoryOf(ps)), name) ==
            if work.Some? && TakesUp(work.value, FailOf(ps[n].op), name) then Leaves(work.value, FailOf(ps[n].op), ps[n].made, name)
            else Lookup(Play(dev, HistoryOf(ps[..n])), name)
  {
    var n := |ps| - 1;
    var before, work := Play(dev, HistoryOf(ps[..n])), WorkAt(c, st, ps, n);
    PlayConcat(dev, HistoryOf(ps[..n]), ps[n].made);
    if work.Some? {
      WorkDistinct(c, StateAfter(c, st, ps[..n]), ps[n].op);
      WorkDecides(before, work.value, FailOf(ps[n].op), ps[n].made, name);
    }
  }

  /** The work was done at operation `k`, with success. */
  ghost predicate DoneAt(c: Store.Crypto, st: State, ps: seq<Performed>, k: nat, work: Store.Work)
    requires k < |ps|
  {
    WorkAt(c, st, ps, k) == Some(work) && FailOf(ps[k].op).None? && RemovesDone(ps[k].made)
  }

  lemma PresentWhenDone(c: Store.Crypto, st: State, dev: Profiles, ps: seq<Performed>, work: Store.Work, i: nat)
    requires ps != [] && Carried(c, st, ps) && RunDistinct(c, ps) && DoneAt(c, st, ps, |ps| - 1, work)
    requires DistinctNames(work.tunnels) && i < |work.tunnels|
    ensures Present(Play(dev, HistoryOf(ps)), work.recorded, work.tunnels, i) <==> KeepsName(work.recorded, work.tunnels, i)
  {
    var k := |ps| - 1;
    WorkDistinct(c, StateAfter(c, st, ps[..k]), ps[k].op);
    assert ps[..k + 1] == ps;
    PresentAt(c, st, dev, ps, k, i);
  }

  lemma DoneEarlier(c: Store.Crypto, st: State, ps: seq<Performed>, k: nat, work: Store.Work)
    requires k < |ps| - 1 && DoneAt(c, st, ps, k, work) && Carried(c, st, ps) && RunDistinct(c, ps)
    ensures DoneAt(c, st, ps[..|ps| - 1], k, work) && Carried(c, st, ps[..|ps| - 1]) && RunDistinct(c, ps[..|ps| - 1])
  {
    assert ps[..|ps| - 1][..k] == ps[..k] && ps[..|ps| - 1][k] == ps[k];
  }

  lemma {:induction false} PresentExactlyIfStays(c: Store.Crypto, st: State, dev: Profiles, ps: seq<Performed>, k: nat, work: Store.Work, i: nat)
    requires Carried(c, st, ps) && RunDistinct(c, ps) && k < |ps| && DoneAt(c, st, ps, k, work)
    requires DistinctNames(work.tunnels) && i < |work.tunnels|
    ensures Present(Play(dev, HistoryOf(ps)), work.recorded, work.tunnels, i) <==> StaysAt(c, st, ps, k, work, i)
    decreases |ps|
  {
    if k == |ps| - 1 {
      PresentWhenDone(c, st, dev, ps, work, i);
    } else {
      DoneEarlier(c, st, ps, k, work);
      PresentExactlyIfStays(c, st, dev, ps[..|ps| - 1], k, work, i);
      LookupAfterLast(c, st, dev, ps, work.tunnels[i].name);
    }
  }

  /** Every tunnel of operation `k` stays. */
  ghost predicate AllStay(c: Store.Crypto, st: State, ps: seq<Performed>, k: nat, work: Store.Work)
    requires k < |ps|
  {
    forall i :: 0 <= i < |work.tunnels| ==> StaysAt(c, st, ps, k, work, i)
  }

  /** Without any assumption on who owns which name: a feed reconciled successfully at operation `k` is still installed
      at the end of the run if and only if every one of its tunnels stays. Feeds with a name in common take it away
      from each other. */
  lemma StaysInstalledExactly(c: Store.Crypto, st: State, dev: Profiles, ps: seq<Performed>, k: nat)
    requires Carried(c, st, ps) && RunDistinct(c, ps)
    requires k < |ps| && WorkAt(c, st, ps, k).Some? && FailOf(ps[k].op).None? && RemovesDone(ps[k].made)
    requires DistinctNames(WorkAt(c, st, ps, k).value.tunnels)
    ensures var work := WorkAt(c, st, ps, k).value;
            AllPresent(Play(dev, HistoryOf(ps)), work.recorded, work.tunnels) <==> AllStay(c, st, ps, k, work)
  {
    var work := WorkAt(c, st, ps, k).value;
    forall i | 0 <= i < |work.tunnels|
      ensures Present(Play(dev, HistoryOf(ps)), work.recorded, work.tunnels, i) <==> StaysAt(c, st, ps, k, work, i)
    {
      PresentExactlyIfStays(c, st, dev, ps, k, work, i);
    }
  }
}
