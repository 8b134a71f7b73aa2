/** Fresh installs: a state file without a salt. From the first step that draws one, a run is the same as if the salt
    had been there from the start, so that everything said of runs with a salt holds of it too. */
module DaemonFresh {
  import opened Text
  import opened Model
  import opened Daemon
  import opened DaemonRuns
  import opened DaemonBackend
  import opened Device
  import Store

  /** The step resolves a setup URL for a loop that starts, and its state is saved. */
  predicate Draws(s: System, step: Step) {
    step.who < |s.loops| && s.loops[step.who].phase.Start? && step.action.Resolve? && step.action.saved
  }

  /** The salt drawn first in a run, if one is. */
  ghost function FirstSalt(c: Store.Crypto, s: System, steps: seq<Step>): Option<string> {
    if steps == [] then None
    else
      var front, step := steps[..|steps| - 1], steps[|steps| - 1];
      if FirstSalt(c, s, front).Some? then FirstSalt(c, s, front)
      else if Draws(Run(c, s, front), step) then Some(step.action.newSalt)
      else None
  }

  function Salted(s: System, salt: string): System {
    s.(file := s.file.(salt := salt))
  }

  /** Before the first salt every loop is about to start or has exited, and nothing else has happened. */
  ghost predicate Untouched(s: System, now: System) {
    && now.file == s.file && now.claimed == s.claimed && now.claimant == s.claimant && |now.loops| == |s.loops|
    && forall i :: 0 <= i < |now.loops| ==> now.loops[i].phase.Start? || now.loops[i].phase.Exited?
  }

  lemma IdleAct(c: Store.Crypto, file: State, claimed: map<string, string>, l: Loop, a: Action)
    requires l.phase.Exited? || (l.phase.Start? && !(a.Resolve? && a.saved))
    ensures var e := Act(c, file, claimed, l, a);
            && e.op.None? && e.claim.None? && (e.loop.phase.Start? || e.loop.phase.Exited?)
            && e.loop == l.(phase := if a.Cancel? || (l.phase.Start? && a.Resolve?) then Exited else l.phase)
  {
  }

  lemma IdleTake(c: Store.Crypto, s: System, now: System, step: Step)
    requires Untouched(s, now) && !Draws(now, step)
    ensures Untouched(s, Take(c, now, step))
    ensures forall salt :: Take(c, Salted(now, salt), step) == Salted(Take(c, now, step), salt)
    ensures step.who < |now.loops| ==> EffectOf(c, now, step).op.None?
    ensures forall salt :: step.who < |now.loops| ==> EffectOf(c, Salted(now, salt), step).op.None?
  {
    if step.who < |now.loops| {
      var l := now.loops[step.who];
      IdleAct(c, now.file, now.claimed, l, step.action);
      forall salt
        ensures EffectOf(c, Salted(now, salt), step) == EffectOf(c, now, step)
      {
        IdleAct(c, now.file.(salt := salt), now.claimed, l, step.action);
      }
    }
  }

  /** Resolving without a salt is resolving with the salt just drawn. */
  lemma DrawIsSalted(c: Store.Crypto, st: State, url: string, newSalt: string)
    requires Blank(st.salt) && !Blank(newSalt)
    ensures Store.Resolve(c, st, url, newSalt) == Store.Resolve(c, st.(salt := newSalt), url, newSalt)
  {
  }

  lemma DrawingTake(c: Store.Crypto, now: System, step: Step)
    requires Blank(now.file.salt) && Draws(now, step) && !Blank(step.action.newSalt)
    ensures Take(c, now, step) == Take(c, Salted(now, step.action.newSalt), step)
    ensures EffectOf(c, now, step) == EffectOf(c, Salted(now, step.action.newSalt), step)
  {
    DrawIsSalted(c, now.file, now.loops[step.who].url, step.action.newSalt);
  }

  /** The whole of it: the same system, up to the salt as long as none is drawn, and the same operations. */
  lemma {:induction false} FreshRun(c: Store.Crypto, s: System, steps: seq<Step>, salt: string)
    requires Initial(s) && Blank(s.file.salt) && !Blank(salt)
    requires FirstSalt(c, s, steps).Some? ==> FirstSalt(c, s, steps).value == salt
    ensures FirstSalt(c, s, steps).None? ==>
              Untouched(s, Run(c, s, steps)) && Run(c, Salted(s, salt), steps) == Salted(Run(c, s, steps), salt)
    ensures FirstSalt(c, s, steps).Some? ==> Run(c, Salted(s, salt), steps) == Run(c, s, steps)
    ensures Trace(c, Salted(s, salt), steps) == Trace(c, s, steps)
    ensures FirstSalt(c, s, steps).None? ==> Trace(c, s, steps) == []
  {
    if steps != [] {
      var front, step := steps[..|steps| - 1], steps[|steps| - 1];
      FreshRun(c, s, front, salt);
      if FirstSalt(c, s, front).None? {
        FreshStep(c, s, Run(c, s, front), step, salt);
      }
    }
  }

  lemma FreshStep(c: Store.Crypto, s: System, now: System, step: Step, salt: string)
    requires Untouched(s, now) && Blank(now.file.salt) && !Blank(salt)
    requires Draws(now, step) ==> step.action.newSalt == salt
    ensures Draws(now, step) ==> Take(c, Salted(now, salt), step) == Take(c, now, step)
    ensures !Draws(now, step) ==> Untouched(s, Take(c, now, step)) && Take(c, Salted(now, salt), step) == Salted(Take(c, now, step), salt)
    ensures step.who < |now.loops| ==> EffectOf(c, Salted(now, salt), step).op == EffectOf(c, now, step).op
    ensures step.who < |now.loops| && !Draws(now, step) ==> EffectOf(c, now, step).op.None?
  {
    if Draws(now, step) {
      DrawingTake(c, now, step);
    } else {
      IdleTake(c, s, now, step);
    }
  }

  /** Non-interference from a fresh install: with the salt drawn first, each claimed feed's entry is what its claimant's
      operations alone would have made it, and the others are as they were. */
  lemma FreshEntryIsTheClaimantsAlone(c: Store.Crypto, idOf: FeedIds, s: System, steps: seq<Step>, salt: string, feedID: string)
    requires Blank(s.file.salt) && FirstSalt(c, s, steps) == Some(salt) && !Blank(salt)
    requires Faithful(c, idOf) && Initial(s) && SystemGenuine(c, idOf, Salted(s, salt)) && RunGenuine(idOf, s.loops, steps)
    ensures var after := Run(c, s, steps);
            && after.file.salt == salt
            && Store.FeedEntry(after.file, feedID) ==
               if feedID in after.claimant
               then Store.FeedEntry(Store.Run(c, Salted(s, salt).file, OpsBy(Trace(c, s, steps), after.claimant[feedID])), feedID)
               else Store.FeedEntry(s.file, feedID)
  {
    FreshRun(c, s, steps, salt);
    EntryIsTheClaimantsAlone(c, idOf, Salted(s, salt), steps, feedID);
    RunStaysGenuine(c, idOf, Salted(s, salt), steps);
  }

  // ----- at the backend

  lemma AttemptedUntouched(c: Store.Crypto, s: System, now: System, step: Step, salt: string)
    requires Untouched(s, now)
    ensures Attempted(c, Salted(now, salt), step) == Attempted(c, now, step)
    ensures Attempted(c, now, step).Some? ==> Attempted(c, now, step).value.Lookup?
    ensures IsSaved(c, Salted(now, salt), step) == IsSaved(c, now, step)
  {
    if step.who < |now.loops| {
      IdleOp(c, now.file, now.claimed, now.loops[step.who], step.action);
      IdleOp(c, now.file, now.claimed, now.loops[step.who], Saving(step.action));
      IdleOp(c, now.file.(salt := salt), now.claimed, now.loops[step.who], step.action);
      IdleOp(c, now.file.(salt := salt), now.claimed, now.loops[step.who], Saving(step.action));
    }
  }

  lemma IdleOp(c: Store.Crypto, file: State, claimed: map<string, string>, l: Loop, a: Action)
    requires l.phase.Start? || l.phase.Exited?
    ensures Act(c, file, claimed, l, a).op ==
            if l.phase.Start? && a.Resolve? && a.saved then Some(Store.Lookup(l.url, a.newSalt)) else None
  {
  }

  /** What the backend saw of a fresh install is what it would have seen with the salt there from the start. */
  lemma {:induction false} FreshRunDid(c: Store.Crypto, s: System, steps: seq<Step>, made: seq<seq<Event>>, salt: string)
    requires Initial(s) && Blank(s.file.salt) && !Blank(salt) && RunDid(c, s, steps, made)
    requires FirstSalt(c, s, steps).Some? ==> FirstSalt(c, s, steps).value == salt
    ensures RunDid(c, Salted(s, salt), steps, made)
    ensures PerformedBy(c, Salted(s, salt), steps, made) == PerformedBy(c, s, steps, made)
  {
    if steps != [] {
      var n := |steps| - 1;
      FreshRunDid(c, s, steps[..n], made[..n], salt);
      FreshRun(c, s, steps[..n], salt);
      if FirstSalt(c, s, steps[..n]).None? {
        AttemptedUntouched(c, s, Run(c, s, steps[..n]), steps[n], salt);
      }
    }
  }
}
