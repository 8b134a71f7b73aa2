/** Inputs at which the properties fail that hold only under a condition. All documents are valid. */
module Witnesses {
  import opened Text
  import opened Model
  import opened Device
  import opened Reconcile
  import opened Agreement
  import opened Runs
  import opened RevisionGate
  import opened Leftovers
  import Store

  // ----- small documents

  function Doc(ts: seq<Tunnel>): FeedDocument {
    FeedDocument("f", ["e"], ts)
  }

  function Named(id: string, name: string): Tunnel {
    Tunnel(id, name, true, false, "x")
  }

  function Applied(name: string): Event {
    Event(Apply(name, Entry("x", true)), Done)
  }

  function Removed(name: string): Event {
    Event(Remove(name), Done)
  }

  predicate Letter(s: string) {
    |s| == 1 && !IsSpace(s[0])
  }

  lemma LettersAreProper(s: string)
    requires Letter(s)
    ensures Trimmed(s) && !Blank(s) && TrimSpace(s) == s
  {
  }

  lemma ValidDocs(a: Tunnel, b: Tunnel)
    requires Letter(a.id) && Letter(b.id) && a.id != b.id && Letter(a.name) && Letter(b.name)
    ensures ValidDocument(Doc([a])) && ValidDocument(Doc([b])) && ValidDocument(Doc([a, b]))
    ensures DistinctIds([a]) && DistinctIds([b]) && DistinctIds([a, b]) && Ids([a]) == {a.id} && Ids([a, b]) == {a.id, b.id}
  {
    LettersAreProper("f");
    LettersAreProper("e");
    LettersAreProper(a.id);
    LettersAreProper(b.id);
    LettersAreProper(a.name);
    LettersAreProper(b.name);
    assert [a][0] == a && [a, b][0] == a && [a, b][1] == b;
  }

  function Record(t: Tunnel): TunnelState {
    TunnelState(t.name, t.enabled)
  }

  /** The table after reconciling one or two new tunnels. */
  lemma FreshTable(a: Tunnel, b: Tunnel)
    requires Letter(a.id) && Letter(b.id) && a.id != b.id && Letter(a.name) && Letter(b.name)
    ensures Reconciled(map[], [a]) == map[a.id := Record(a)]
    ensures Reconciled(map[], [a, b]) == map[a.id := Record(a), b.id := Record(b)]
  {
    ValidDocs(a, b);
    SuccessRecordsDocument(map[], [a]);
    SuccessRecordsDocument(map[], [a, b]);
    assert [a][0] == a && [a, b][0] == a && [a, b][1] == b;
  }

  /** The first call sequences and tables of a document, one tunnel at a time. */
  lemma OneApplied(tbl: Table, ts: seq<Tunnel>)
    requires ts != []
    ensures AppliedTo(tbl, ts, 1) == Recorded(tbl, ts[0]) && CallsUpTo(tbl, ts, 1) == CallsFor(tbl, ts[0])
  {
    assert AppliedTo(tbl, ts, 0) == tbl && CallsUpTo(tbl, ts, 0) == [];
  }

  lemma TwoApplied(tbl: Table, ts: seq<Tunnel>)
    requires |ts| == 2
    ensures AppliedTo(tbl, ts, 2) == Recorded(Recorded(tbl, ts[0]), ts[1])
    ensures CallsUpTo(tbl, ts, 2) == CallsFor(tbl, ts[0]) + CallsFor(Recorded(tbl, ts[0]), ts[1])
  {
    OneApplied(tbl, ts);
  }

  /** A reconciliation that drops nothing needs no sweep. */
  lemma ListedSucceeds(tbl: Table, ts: seq<Tunnel>, es: seq<Event>)
    requires tbl.Keys <= Ids(ts) && Calls(es) == CallsUpTo(tbl, ts, |ts|) && AppliesDone(es)
    ensures Succeeds(es, tbl, ts)
  {
    KeysAfter(tbl, ts, |ts|);
    assert ts[..|ts|] == ts;
    var applied := AppliedTo(tbl, ts, |ts|);
    assert Dropped(applied, ts) == {};
    assert es[..|es|] == es && es[|es|..] == [];
    assert SweepsInOrder(es[|es|..], applied, {}, []);
  }

  /** A single tunnel that is new, or was recorded under the same name. */
  lemma OneSucceeds(t: Tunnel, es: seq<Event>)
    requires Calls(es) == [Apply(t.name, Wanted(map[], t))] && AppliesDone(es)
    ensures Succeeds(es, map[], [t])
  {
    OneApplied(map[], [t]);
    ListedSucceeds(map[], [t], es);
  }

  // ----- names that clash

  /** A tunnel is dropped, and another takes over its name: every call works, and nothing is installed. */
  lemma DroppedNameTakenOver(dev: Profiles, i: string, j: string, x: string) returns (tbl: Table, ts: seq<Tunnel>, es: seq<Event>)
    requires Letter(i) && Letter(j) && i != j && Letter(x)
    ensures tbl == Reconciled(map[], [Named(i, x)]) && ts == [Named(j, x)]
    ensures ValidDocument(Doc([Named(i, x)])) && ValidDocument(Doc(ts)) && DistinctIds(ts) && DistinctNames(ts)
    ensures Succeeds(es, tbl, ts) && RemovesDone(es) && !Present(Play(dev, es), tbl, ts, 0) && !NamesDoNotClash(tbl, ts)
  {
    ValidDocs(Named(i, x), Named(j, x));
    FreshTable(Named(i, x), Named(j, x));
    tbl, ts, es := Reconciled(map[], [Named(i, x)]), [Named(j, x)], [Applied(x), Removed(x)];
    TakeoverSucceeds(i, j, x);
    assert DroppedName(tbl, ts, x) by { assert i in Dropped(tbl, ts); }
    PresentExactlyWhenSettled(dev, es, tbl, ts, 0);
    assert !KeepsName(tbl, ts, 0);
  }

  lemma TakeoverSucceeds(i: string, j: string, x: string)
    requires Letter(i) && Letter(j) && i != j && Letter(x)
    ensures Succeeds([Applied(x), Removed(x)], map[i := TunnelState(x, true)], [Named(j, x)])
    ensures Dropped(map[i := TunnelState(x, true)], [Named(j, x)]) == {i}
  {
    var tbl: Table, ts, es := map[i := TunnelState(x, true)], [Named(j, x)], [Applied(x), Removed(x)];
    ValidDocs(ts[0], Named(i, x));
    OneApplied(tbl, ts);
    var applied := AppliedTo(tbl, ts, 1);
    assert Dropped(applied, ts) == {i};
    assert es[..1] == [Applied(x)] && es[1..] == [Removed(x)];
    assert SweepsInOrder(es[1..], applied, {i}, [i]);
  }

  /** Two tunnels swap their names: every call works, and the first one is not installed. */
  lemma SwappedNames(dev: Profiles, i: string, j: string, x: string, y: string) returns (tbl: Table, ts: seq<Tunnel>, es: seq<Event>)
    requires Letter(i) && Letter(j) && i != j && Letter(x) && Letter(y) && x != y
    ensures tbl == Reconciled(map[], [Named(i, x), Named(j, y)]) && ts == [Named(i, y), Named(j, x)]
    ensures ValidDocument(Doc([Named(i, x), Named(j, y)])) && ValidDocument(Doc(ts)) && DistinctIds(ts) && DistinctNames(ts)
    ensures Succeeds(es, tbl, ts) && RemovesDone(es) && !Present(Play(dev, es), tbl, ts, 0) && !NamesDoNotClash(tbl, ts)
  {
    ValidDocs(Named(i, x), Named(j, y));
    ValidDocs(Named(i, y), Named(j, x));
    FreshTable(Named(i, x), Named(j, y));
    tbl, ts := Reconciled(map[], [Named(i, x), Named(j, y)]), [Named(i, y), Named(j, x)];
    es := [Removed(x), Applied(y), Removed(y), Applied(x)];
    SwapSucceeds(tbl, ts, x, y);
    SwapClashes(dev, tbl, ts, es, x, y);
  }

  lemma SwapSucceeds(tbl: Table, ts: seq<Tunnel>, x: string, y: string)
    requires |ts| == 2 && ts[0].id != ts[1].id && tbl == map[ts[0].id := TunnelState(x, true), ts[1].id := TunnelState(y, true)]
    requires ts[0] == Named(ts[0].id, y) && ts[1] == Named(ts[1].id, x) && Letter(x) && Letter(y) && x != y
    ensures Succeeds([Removed(x), Applied(y), Removed(y), Applied(x)], tbl, ts)
  {
    LettersAreProper(x);
    LettersAreProper(y);
    SwapCalls(tbl, ts, x, y);
    assert ts[0].id in Ids(ts) && ts[1].id in Ids(ts);
    SwapEvents(x, y);
    ListedSucceeds(tbl, ts, [Removed(x), Applied(y), Removed(y), Applied(x)]);
  }

  lemma SwapEvents(x: string, y: string)
    ensures var es := [Removed(x), Applied(y), Removed(y), Applied(x)];
            && Calls(es) == [Remove(x), Apply(y, Entry("x", true)), Remove(y), Apply(x, Entry("x", true))]
            && AppliesDone(es) && RemovesDone(es)
  {
  }

  lemma SwapClashes(dev: Profiles, tbl: Table, ts: seq<Tunnel>, es: seq<Event>, x: string, y: string)
    requires |ts| == 2 && DistinctIds(ts) && tbl == map[ts[0].id := TunnelState(x, true), ts[1].id := TunnelState(y, true)]
    requires ts[0].name == y && ts[1].name == x && Letter(x) && Letter(y) && x != y
    requires Succeeds(es, tbl, ts) && RemovesDone(es)
    ensures DistinctNames(ts) && !Present(Play(dev, es), tbl, ts, 0) && !NamesDoNotClash(tbl, ts)
  {
    LettersAreProper(x);
    LettersAreProper(y);
    assert Releases(tbl, ts[1], y);
    PresentExactlyWhenSettled(dev, es, tbl, ts, 0);
    SettlesAlone(tbl, ts, 0);
  }

  lemma SwapCalls(tbl: Table, ts: seq<Tunnel>, x: string, y: string)
    requires |ts| == 2 && ts[0].id != ts[1].id && tbl == map[ts[0].id := TunnelState(x, true), ts[1].id := TunnelState(y, true)]
    requires ts[0] == Named(ts[0].id, y) && ts[1] == Named(ts[1].id, x)
    requires Trimmed(x) && !Blank(x) && Trimmed(y) && !Blank(y) && x != y
    ensures CallsUpTo(tbl, ts, 2) == [Remove(x), Apply(y, Entry("x", true)), Remove(y), Apply(x, Entry("x", true))]
  {
    TwoApplied(tbl, ts);
    assert CallsFor(tbl, ts[0]) == [Remove(x), Apply(y, Entry("x", true))];
    assert CallsFor(Recorded(tbl, ts[0]), ts[1]) == [Remove(y), Apply(x, Entry("x", true))];
  }

  // ----- a flag that is lost

  /** Tunnel 1 was switched off. It is renamed by a document that would switch new tunnels on, and that fails once: the
      retry switches it on. */
  lemma RenameLosesFlag() returns (tbl: Table, ts: seq<Tunnel>)
    ensures tbl == Reconciled(map[], [Tunnel("1", "a", false, false, "x")]) && ts == [Named("1", "b")]
    ensures ValidDocument(Doc([Tunnel("1", "a", false, false, "x")])) && ValidDocument(Doc(ts)) && DistinctIds(ts)
    ensures InRange(ts, [0]) && Reconciled(AfterFailures(tbl, ts, [0]), ts) != Reconciled(tbl, ts)
    ensures "1" in Reconciled(tbl, ts) && !Reconciled(tbl, ts)["1"].enabled
    ensures "1" in Reconciled(AfterFailures(tbl, ts, [0]), ts) && Reconciled(AfterFailures(tbl, ts, [0]), ts)["1"].enabled
  {
    var off := Tunnel("1", "a", false, false, "x");
    ValidDocs(off, Named("2", "b"));
    ValidDocs(Named("1", "b"), Named("2", "a"));
    FreshTable(off, Named("2", "b"));
    LettersAreProper("a");
    LettersAreProper("b");
    tbl, ts := map["1" := TunnelState("a", false)], [Named("1", "b")];
    assert AppliedTo(tbl, ts, 0) == tbl;
    assert [0][1..] == [];
    assert AfterFailures(Interrupted(tbl, ts, 0), ts, [0][1..]) == Interrupted(tbl, ts, 0);
    assert AfterFailures(tbl, ts, [0]) == map[];
    assert ts[0].id == "1";
    SuccessRecordsDocument(tbl, ts);
    SuccessRecordsDocument(map[], ts);
  }

  // ----- a rollback that is gated away

  function Revision(ts: seq<Tunnel>, revision: string): Store.Update {
    Store.Update("u", "u", Doc(ts), revision, 60, "")
  }

  /** Revision `r` is reconciled; revision `s` adds tunnel `j` and then fails; the server goes back to `r`, and tunnel
      `j` stays recorded. */
  lemma RolledBack(c: Store.Crypto, salt: string, t: Tunnel, added: Tunnel, r: string, s: string)
    requires c.key(salt, "u").Some? && Letter(r) && Letter(s) && r != s
    requires Letter(t.id) && Letter(added.id) && t.id != added.id && Letter(t.name) && Letter(added.name)
    ensures ValidDocument(Doc([t])) && ValidDocument(Doc([added, t]))
    ensures var tbl: Table := map[t.id := Record(t)];
            var entry := Some(FeedState(r, Some(60), "", [], Some(tbl)));
            var fs := Store.OrZero(Store.EntryRun(c, salt, entry,
                        [Store.Remote(Revision([added, t], s), Some(1), "t"), Store.Remote(Revision([t], r), None, "t")]));
            Records(tbl, [t]) && fs.lastReconciledRevision == r && fs.tunnels.Some? && !Records(fs.tunnels.value, [t])
  {
    var tbl: Table := map[t.id := Record(t)];
    var entry := FeedState(r, Some(60), "", [], Some(tbl));
    ValidDocs(t, added);
    ValidDocs(added, t);
    Gates(entry, r, s);
    LettersAreProper("f");
    assert [t][0] == t && [added, t][0] == added && added.id !in tbl;
    RollbackIsGatedAway(c, salt, Some(entry), Revision([added, t], s), 1, Revision([t], r), None, "t");
  }

  lemma Gates(fs: FeedState, r: string, s: string)
    requires fs.lastReconciledRevision == r && Letter(r) && Letter(s) && r != s
    ensures Store.Gated(fs, r) && !Store.Gated(fs, s) && TrimSpace(fs.lastReconciledRevision) == r
  {
    LettersAreProper(r);
    LettersAreProper(s);
  }

  // ----- a profile left behind

  /** The very first reconciliation installs one tunnel and stops at the next, so that nothing is recorded. The next
      document lists the second tunnel only, and succeeds: the first one stays installed for good. */
  lemma FirstFailureLeavesProfile(dev: Profiles, i: string, j: string, x: string, y: string)
    returns (ts: seq<Tunnel>, es: seq<Event>, later: seq<Tunnel>, more: seq<Event>)
    requires Letter(i) && Letter(j) && i != j && Letter(x) && Letter(y) && x != y
    ensures ValidDocument(Doc(ts)) && ValidDocument(Doc(later))
    ensures StopsAt(es, map[], ts, 1) && Store.ReconcileEntry(None, ts, Some(1)).0 == None
    ensures Succeeds(more, map[], later) && RemovesDone(more)
    ensures x in Play(dev, es + more) && !NamedIn(Reconciled(map[], later), x)
  {
    ValidDocs(Named(i, x), Named(j, y));
    FreshTable(Named(j, y), Named(i, x));
    ts, later := [Named(i, x), Named(j, y)], [Named(j, y)];
    es, more := [Applied(x), Event(Apply(y, Entry("x", true)), Failed(None))], [Applied(y)];
    SecondStops(Named(i, x), Named(j, y), es);
    OneSucceeds(Named(j, y), more);
    LastNamesOrNot(dev, es + more, x);
    assert es + more == [es[0], es[1], more[0]];
    LastIsFirst(es + more, x);
  }

  lemma SecondStops(a: Tunnel, b: Tunnel, es: seq<Event>)
    requires a.id != b.id && |es| == 2 && es[0].outcome.Done? && es[1].outcome.Failed?
    requires es[0].call == Apply(a.name, Wanted(map[], a)) && es[1].call == Apply(b.name, Wanted(map[], b))
    ensures StopsAt(es, map[], [a, b], 1)
  {
    TwoApplied(map[], [a, b]);
    assert es[..1] == [es[0]];
  }

  lemma LastIsFirst(es: seq<Event>, name: string)
    requires |es| == 3 && es[0].call.name == name && es[1].call.name != name && es[2].call.name != name
    ensures LastEvent(es, name) == Some(es[0])
  {
    assert es[..2][..1] == es[..1];
    assert LastEvent(es[..1], name) == Some(es[0]);
    assert LastEvent(es[..2], name) == Some(es[0]);
  }

  // ----- two feeds with one name

  /** Two feeds call a tunnel "a". Both reconcile without any clash of their own, and the first one's tunnel is gone. */
  lemma SharedName(dev: Profiles) returns (mine: Tunnel, es: seq<Event>, theirs: Tunnel, more: seq<Event>)
    ensures ValidDocument(Doc([mine])) && ValidDocument(Doc([theirs])) && mine.name == theirs.name
    ensures Succeeds(es, map[], [mine]) && RemovesDone(es) && NamesDoNotClash(map[], [mine])
    ensures Succeeds(more, map[], [theirs]) && RemovesDone(more) && NamesDoNotClash(map[], [theirs])
    ensures Present(Play(dev, es), map[], [mine], 0) && !Present(Play(dev, es + more), map[], [mine], 0)
  {
    mine, theirs := Named("1", "a"), Tunnel("2", "a", true, false, "y");
    ValidDocs(mine, theirs);
    es, more := [Applied("a")], [Event(Apply("a", Entry("y", true)), Done)];
    OneSucceeds(mine, es);
    OneSucceeds(theirs, more);
    LastCallDecides(dev, es, "a");
    LastCallDecides(dev, es + more, "a");
    assert (es + more)[1] == more[0];
  }
}
