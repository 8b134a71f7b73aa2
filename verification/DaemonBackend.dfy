/** The whole daemon at the backend: what the runs of the interleaved loops leave installed. */
module DaemonBackend {
  import opened Text
  import opened Model
  import opened Device
  import opened Agreement
  import opened Daemon
  import opened DaemonInvariants
  import opened DaemonRuns
  import opened Installed
  import opened Leftovers
  import BackendCalls
  import Store

  /** The action, had the state file been loaded and saved. */
  function Saving(a: Action): Action {
    match a
    case Resolve(newSalt, _) => Daemon.Resolve(newSalt, true)
    case BootApply(fail, newSalt, _) => BootApply(fail, newSalt, true)
    case Event(m, fail, newSalt, _) => Action.Event(m, fail, newSalt, true)
    case Poll(replies, fail, newSalt, _) => Poll(replies, fail, newSalt, true)
    case ReconcileOffline(fail, _) => ReconcileOffline(fail, true)
    case _ => a
  }

  /** The operation that a step carries out on the loaded state, whether or not it is saved. */
  ghost function Attempted(c: Store.Crypto, before: System, step: Step): Option<Store.Op> {
    if step.who < |before.loops| then EffectOf(c, before, step.(action := Saving(step.action))).op else None
  }

  ghost predicate IsSaved(c: Store.Crypto, before: System, step: Step) {
    step.who < |before.loops| && EffectOf(c, before, step).op.Some?
  }

  /** What a step may do at the backend: the work of its operation, or nothing if the state file could not be loaded. */
  ghost predicate StepDid(c: Store.Crypto, before: System, step: Step, made: seq<Event>) {
    match Attempted(c, before, step)
    case None => made == []
    case Some(op) =>
      Store.Did(Store.WorkOf(c, before.file, op), FailOf(op), made) || (!IsSaved(c, before, step) && made == [])
  }

  /** A run of the daemon with what each of its steps did at the backend. */
  ghost predicate RunDid(c: Store.Crypto, s: System, steps: seq<Step>, made: seq<seq<Event>>) {
    && |made| == |steps|
    && (steps == [] ||
        (RunDid(c, s, steps[..|steps| - 1], made[..|steps| - 1])
         && StepDid(c, Run(c, s, steps[..|steps| - 1]), steps[|steps| - 1], made[|steps| - 1])))
  }

  /** The operations of a run, each with what it did. A step that neither saved nor called anything is none. */
  ghost function PerformedBy(c: Store.Crypto, s: System, steps: seq<Step>, made: seq<seq<Event>>): seq<Performed>
    requires |made| == |steps|
  {
    if steps == [] then []
    else
      var n := |steps| - 1;
      PerformedBy(c, s, steps[..n], made[..n]) + PerformedIn(c, Run(c, s, steps[..n]), steps[n], made[n])
  }

  ghost function PerformedIn(c: Store.Crypto, before: System, step: Step, made: seq<Event>): seq<Performed> {
    var op := Attempted(c, before, step);
    if op.Some? && (IsSaved(c, before, step) || made != []) then [Performed(op.value, IsSaved(c, before, step), made)] else []
  }

  function AllEvents(made: seq<seq<Event>>): seq<Event> {
    if made == [] then [] else AllEvents(made[..|made| - 1]) + made[|made| - 1]
  }

  /** A step that saves attempts exactly what it saves. */
  lemma SavedIsAttempted(c: Store.Crypto, before: System, step: Step)
    requires IsSaved(c, before, step)
    ensures Attempted(c, before, step) == EffectOf(c, before, step).op
  {
  }

  /** Runs of the daemon are histories of operations: they leave the same file, and the backend saw the same events. */
  lemma {:induction false} RunIsCarried(c: Store.Crypto, s: System, steps: seq<Step>, made: seq<seq<Event>>)
    requires RunDid(c, s, steps, made)
    ensures var ps := PerformedBy(c, s, steps, made);
            && Carried(c, s.file, ps)
            && StateAfter(c, s.file, ps) == Run(c, s, steps).file
            && HistoryOf(ps) == AllEvents(made)
  {
    if steps != [] {
      var n := |steps| - 1;
      var before, ps, last := Run(c, s, steps[..n]), PerformedBy(c, s, steps[..n], made[..n]), PerformedIn(c, Run(c, s, steps[..n]), steps[n], made[n]);
      RunIsCarried(c, s, steps[..n], made[..n]);
      if IsSaved(c, before, steps[n]) {
        SavedIsAttempted(c, before, steps[n]);
      }
      if last == [] {
        assert ps + last == ps;
        assert HistoryOf(ps) + [] == HistoryOf(ps);
      } else {
        OneMorePerformed(c, s.file, map[], ps, last[0]);
        assert (ps + last)[..|ps + last| - 1] == ps;
      }
    }
  }

  // ----- agreement, for the whole daemon

  /** After any run, and whatever the other loops did since, a feed whose last work at the backend succeeded is
      installed if and only if its own names did not clash. */
  lemma FeedIsInstalled(c: Store.Crypto, owner: Owners, s: System, dev: Profiles, steps: seq<Step>, made: seq<seq<Event>>, k: nat, feedID: string)
    requires RunDid(c, s, steps, made) && StateOwned(owner, s.file) && !Blank(s.file.salt)
    requires var ps := PerformedBy(c, s, steps, made);
             && RunOwned(c, owner, ps)
             && k < |ps| && Store.FeedOf(ps[k].op) == Some(feedID) && WorkAt(c, s.file, ps, k).Some? && FailOf(ps[k].op).None?
             && RemovesDone(ps[k].made) && QuietSince(ps, k, feedID)
             && DistinctIds(WorkAt(c, s.file, ps, k).value.tunnels) && DistinctNames(WorkAt(c, s.file, ps, k).value.tunnels)
    ensures var work := WorkAt(c, s.file, PerformedBy(c, s, steps, made), k).value;
            AllPresent(Play(dev, AllEvents(made)), work.recorded, work.tunnels) <==> NamesDoNotClash(work.recorded, work.tunnels)
  {
    RunIsCarried(c, s, steps, made);
    FeedStaysInstalled(c, owner, s.file, dev, PerformedBy(c, s, steps, made), k, feedID);
  }

  /** And under each of its names that it keeps there is the configuration of that work's document, with the flag that
      the state file records at the end of the run. */
  lemma FeedIsInstalledAsFiled(c: Store.Crypto, owner: Owners, s: System, dev: Profiles, steps: seq<Step>, made: seq<seq<Event>>, k: nat, feedID: string, i: nat)
    requires RunDid(c, s, steps, made) && StateOwned(owner, s.file) && !Blank(s.file.salt)
    requires var ps := PerformedBy(c, s, steps, made);
             && RunOwned(c, owner, ps)
             && k < |ps| && Store.FeedOf(ps[k].op) == Some(feedID) && ps[k].saved && QuietSince(ps, k, feedID)
             && WorkAt(c, s.file, ps, k).Some? && FailOf(ps[k].op).None?
             && var work := WorkAt(c, s.file, ps, k).value;
                DistinctIds(work.tunnels) && DistinctNames(work.tunnels) && i < |work.tunnels| && KeepsName(work.recorded, work.tunnels, i)
    ensures var t, file := WorkAt(c, s.file, PerformedBy(c, s, steps, made), k).value.tunnels[i], Run(c, s, steps).file;
            && feedID in file.feeds && file.feeds[feedID].tunnels.Some? && t.id in file.feeds[feedID].tunnels.value
            && Lookup(Play(dev, AllEvents(made)), t.name) == Some(Entry(t.config, file.feeds[feedID].tunnels.value[t.id].enabled))
  {
    RunIsCarried(c, s, steps, made);
    BackendCalls.InstalledAsFiled(c, owner, s.file, dev, PerformedBy(c, s, steps, made), k, feedID, i);
  }

  /** After any run, a profile is left over if and only if the last operation that named it abandoned it. */
  lemma ProfileIsLeftOverExactly(c: Store.Crypto, owner: Owners, s: System, dev: Profiles, steps: seq<Step>, made: seq<seq<Event>>, name: string)
    requires RunDid(c, s, steps, made) && ProperOwners(owner) && StateOwned(owner, s.file) && !Blank(s.file.salt)
    requires RunOwned(c, owner, PerformedBy(c, s, steps, made)) && RunDistinct(c, PerformedBy(c, s, steps, made))
    requires !LeftOver(owner, s.file, dev, name)
    ensures LeftOver(owner, Run(c, s, steps).file, Play(dev, AllEvents(made)), name) <==>
            SomeAbandons(c, s.file, PerformedBy(c, s, steps, made), name)
  {
    RunIsCarried(c, s, steps, made);
    LeftOverExactly(c, owner, s.file, dev, PerformedBy(c, s, steps, made), name);
  }

  // ----- one loop's part

  /** The operations of one loop. */
  ghost function PerformedOf(c: Store.Crypto, s: System, steps: seq<Step>, made: seq<seq<Event>>, i: nat): seq<Performed>
    requires |made| == |steps|
  {
    if steps == [] then []
    else
      var n := |steps| - 1;
      PerformedOf(c, s, steps[..n], made[..n], i) + if steps[n].who == i then PerformedIn(c, Run(c, s, steps[..n]), steps[n], made[n]) else []
  }

  /** An attempted operation concerns the feed of the loop's own URL, which the loop has claimed. */
  lemma AttemptIsClaimants(c: Store.Crypto, idOf: FeedIds, before: System, step: Step)
    requires Faithful(c, idOf) && SystemGenuine(c, idOf, before) && Claims(c, before)
    requires step.who < |before.loops| ==> StepGenuine(idOf, before.loops[step.who].url, step.action)
    ensures var op := Attempted(c, before, step);
            op.Some? && Store.FeedOf(op.value).Some? ==>
              Store.FeedOf(op.value).value in before.claimant && before.claimant[Store.FeedOf(op.value).value] == step.who
  {
    if step.who < |before.loops| {
      var l := before.loops[step.who];
      SavingStaysGenuine(idOf, l.url, step.action);
      ActIsGenuine(c, idOf, before.file, before.claimed, before.loops, step.who, Saving(step.action));
      assert LoopGenuine(idOf, l);
    }
  }

  lemma SavingStaysGenuine(idOf: FeedIds, url: string, a: Action)
    requires StepGenuine(idOf, url, a)
    ensures StepGenuine(idOf, url, Saving(a))
  {
  }

  lemma OwnConcat(a: seq<Performed>, b: seq<Performed>, feedID: string)
    requires |b| <= 1
    ensures Own(a + b, feedID) == if b != [] && Store.FeedOf(b[0].op) == Some(feedID) then Own(a, feedID) + b else Own(a, feedID)
  {
    if b == [] {
      assert a + b == a;
    } else {
      assert (a + b)[..|a + b| - 1] == a && b == [b[0]];
    }
  }

  /** A feed's operations are those of the loop that claimed it; a feed that no loop claimed has none. */
  lemma {:induction false} OwnAreTheClaimants(c: Store.Crypto, idOf: FeedIds, s: System, steps: seq<Step>, made: seq<seq<Event>>, all: seq<Step>, feedID: string)
    requires Faithful(c, idOf) && Initial(s) && SystemGenuine(c, idOf, s) && RunGenuine(idOf, s.loops, all)
    requires |made| == |steps| && steps <= all
    ensures var after, ps := Run(c, s, all), PerformedBy(c, s, steps, made);
            Own(ps, feedID) ==
            if feedID in after.claimant then Own(PerformedOf(c, s, steps, made, after.claimant[feedID]), feedID) else []
  {
    if steps != [] {
      var n := |steps| - 1;
      OwnAreTheClaimants(c, idOf, s, steps[..n], made[..n], all, feedID);
      ClaimantOfLast(c, idOf, s, steps, all, feedID);
      var last := PerformedIn(c, Run(c, s, steps[..n]), steps[n], made[n]);
      OwnConcat(PerformedBy(c, s, steps[..n], made[..n]), last, feedID);
      if feedID in Run(c, s, all).claimant {
        var i := Run(c, s, all).claimant[feedID];
        OwnConcat(PerformedOf(c, s, steps[..n], made[..n], i), if steps[n].who == i then last else [], feedID);
      }
    }
  }

  lemma ClaimantOfLast(c: Store.Crypto, idOf: FeedIds, s: System, steps: seq<Step>, all: seq<Step>, feedID: string)
    requires Faithful(c, idOf) && Initial(s) && SystemGenuine(c, idOf, s) && RunGenuine(idOf, s.loops, all)
    requires steps != [] && steps <= all
    ensures var n := |steps| - 1;
            var op := Attempted(c, Run(c, s, steps[..n]), steps[n]);
            op.Some? && Store.FeedOf(op.value) == Some(feedID) ==>
              feedID in Run(c, s, all).claimant && Run(c, s, all).claimant[feedID] == steps[n].who
  {
    var n := |steps| - 1;
    assert steps[..n] == all[..n] && steps[n] == all[n];
    assert RunGenuine(idOf, s.loops, steps[..n]);
    RunStaysGenuine(c, idOf, s, steps[..n]);
    AttemptIsClaimants(c, idOf, Run(c, s, steps[..n]), steps[n]);
    if feedID in Run(c, s, all[..n]).claimed {
      ClaimsStay(c, s, all, n, feedID);
    }
  }

  /** Non-interference at the backend, for the whole daemon: what is installed under a feed's name is what the
      operations of the loop that claimed the feed would have installed alone; a feed that no loop claimed keeps what
      was there. */
  lemma NameIsItsClaimantsAlone(c: Store.Crypto, idOf: FeedIds, owner: Owners, s: System, dev: Profiles, steps: seq<Step>, made: seq<seq<Event>>, name: string)
    requires Faithful(c, idOf) && Initial(s) && SystemGenuine(c, idOf, s) && RunGenuine(idOf, s.loops, steps)
    requires RunDid(c, s, steps, made) && StateOwned(owner, s.file) && RunOwned(c, owner, PerformedBy(c, s, steps, made))
    ensures var after, feedID := Run(c, s, steps), owner(name);
            Lookup(Play(dev, AllEvents(made)), name) ==
            if feedID in after.claimant
            then Lookup(Play(dev, HistoryOf(Own(PerformedOf(c, s, steps, made, after.claimant[feedID]), feedID))), name)
            else Lookup(dev, name)
  {
    RunIsCarried(c, s, steps, made);
    NameIsItsFeedsAlone(c, owner, s.file, dev, PerformedBy(c, s, steps, made), name);
    OwnAreTheClaimants(c, idOf, s, steps, made, steps, owner(name));
  }
}
