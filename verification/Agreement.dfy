/** When a successful reconciliation leaves the backend agreeing with the document. */
module Agreement {
  import opened Text
  import opened Model
  import opened Device
  import opened Reconcile

  /** Tunnel `t` gives up the name `name` because the feed renamed it. */
  predicate Releases(tbl: Table, t: Tunnel, name: string) {
    Renamed(tbl, t) && tbl[t.id].name == name
  }

  /** A tunnel the feed no longer lists was recorded under `name`. */
  ghost predicate DroppedName(tbl: Table, ts: seq<Tunnel>, name: string) {
    exists id :: id in Dropped(tbl, ts) && tbl[id].name == name
  }

  datatype Fate = Untouched | Written(at: nat) | Cleared(at: nat)

  /** What the tunnel calls (without the final sweep) do last to a name. */
  function Last(tbl: Table, ts: seq<Tunnel>, n: nat, name: string): (w: Fate)
    requires n <= |ts|
    ensures !w.Untouched? ==> w.at < n
    ensures w.Written? ==> ts[w.at].name == name
    ensures w.Cleared? ==> Releases(tbl, ts[w.at], name) && ts[w.at].name != name
    ensures forall j :: (if w.Untouched? then 0 else w.at + 1) <= j < n ==>
                          ts[j].name != name && !Releases(tbl, ts[j], name)
  {
    if n == 0 then Untouched
    else if ts[n - 1].name == name then Written(n - 1)
    else if Releases(tbl, ts[n - 1], name) then Cleared(n - 1)
    else Last(tbl, ts, n - 1, name)
  }

  /** The last tunnel call that names `name` is the one `Last` predicts. */
  lemma {:induction false} CallsFollowLast(tbl: Table, ts: seq<Tunnel>, n: nat, name: string)
    requires DistinctIds(ts) && n <= |ts|
    ensures LastCall(CallsUpTo(tbl, ts, n), name) == FatedCall(tbl, ts, n, name)
  {
    if n == 0 {
      FollowsNone(tbl, ts, name);
    } else {
      CallsFollowLast(tbl, ts, n - 1, name);
      FollowsOn(tbl, ts, n, name);
    }
  }

  lemma FollowsNone(tbl: Table, ts: seq<Tunnel>, name: string)
    ensures LastCall(CallsUpTo(tbl, ts, 0), name) == FatedCall(tbl, ts, 0, name)
  {
    assert CallsUpTo(tbl, ts, 0) == [];
  }

  lemma FollowsOn(tbl: Table, ts: seq<Tunnel>, n: nat, name: string)
    requires DistinctIds(ts) && 0 < n <= |ts|
    requires LastCall(CallsUpTo(tbl, ts, n - 1), name) == FatedCall(tbl, ts, n - 1, name)
    ensures LastCall(CallsUpTo(tbl, ts, n), name) == FatedCall(tbl, ts, n, name)
  {
    LastCallOneMore(tbl, ts, n, name);
    NextFated(tbl, ts, n, name);
  }

  /** The call that `Last` predicts. */
  function FatedCall(tbl: Table, ts: seq<Tunnel>, n: nat, name: string): Option<Call>
    requires n <= |ts|
  {
    match Last(tbl, ts, n, name)
    case Untouched => None
    case Written(k) => Some(Apply(name, Wanted(tbl, ts[k])))
    case Cleared(_) => Some(Remove(name))
  }

  lemma NextFated(tbl: Table, ts: seq<Tunnel>, n: nat, name: string)
    requires 0 < n <= |ts|
    ensures FatedCall(tbl, ts, n, name) == if OwnCall(tbl, ts[n - 1], name).Some? then OwnCall(tbl, ts[n - 1], name) else FatedCall(tbl, ts, n - 1, name)
  {
  }

  lemma CallsOneMore(tbl: Table, ts: seq<Tunnel>, n: nat)
    requires DistinctIds(ts) && 0 < n <= |ts|
    ensures CallsUpTo(tbl, ts, n) == CallsUpTo(tbl, ts, n - 1) + CallsFor(tbl, ts[n - 1])
  {
    JudgedAtStart(tbl, ts, n - 1);
  }

  lemma LastCallOneMore(tbl: Table, ts: seq<Tunnel>, n: nat, name: string)
    requires DistinctIds(ts) && 0 < n <= |ts|
    ensures LastCall(CallsUpTo(tbl, ts, n), name) ==
            if OwnCall(tbl, ts[n - 1], name).Some? then OwnCall(tbl, ts[n - 1], name) else LastCall(CallsUpTo(tbl, ts, n - 1), name)
  {
    CallsOneMore(tbl, ts, n);
    LastCallConcat(CallsUpTo(tbl, ts, n - 1), CallsFor(tbl, ts[n - 1]), name);
    LastOwnCall(tbl, ts[n - 1], name);
  }

  function OwnCall(tbl: Table, t: Tunnel, name: string): Option<Call> {
    if t.name == name then Some(Apply(name, Wanted(tbl, t)))
    else if Releases(tbl, t, name) then Some(Remove(name))
    else None
  }

  lemma LastOwnCall(tbl: Table, t: Tunnel, name: string)
    ensures LastCall(CallsFor(tbl, t), name) == OwnCall(tbl, t, name)
  {
    var own := CallsFor(tbl, t);
    assert own[..|own| - 1] == if Renamed(tbl, t) then [Remove(tbl[t.id].name)] else [];
    assert own[..|own| - 1][..0] == [];
  }

  /** Dropped tunnels are swept under the names recorded at the start. */
  lemma DroppedAtStart(tbl: Table, ts: seq<Tunnel>)
    ensures Dropped(AppliedTo(tbl, ts, |ts|), ts) == Dropped(tbl, ts)
    ensures forall id :: id in Dropped(tbl, ts) ==> AppliedTo(tbl, ts, |ts|)[id] == tbl[id]
  {
    KeysAfter(tbl, ts, |ts|);
    assert ts[..|ts|] == ts;
    forall id | id in Dropped(tbl, ts) ensures AppliedTo(tbl, ts, |ts|)[id] == tbl[id] {
      forall j | 0 <= j < |ts| ensures ts[j].id != id {
        assert ts[j].id in Ids(ts);
      }
      UntouchedBefore(tbl, ts, |ts|, id);
    }
  }

  /** The sweep names exactly the dropped tunnels' recorded names, and only removes. */
  lemma SweepNames(es: seq<Event>, tbl: Table, ts: seq<Tunnel>, name: string)
    requires Sweeps(es, AppliedTo(tbl, ts, |ts|), Dropped(AppliedTo(tbl, ts, |ts|), ts))
    ensures LastCall(Calls(es), name).Some? <==> DroppedName(tbl, ts, name)
    ensures forall e <- es :: e.call.Remove?
  {
    DroppedAtStart(tbl, ts);
    var after := AppliedTo(tbl, ts, |ts|);
    var order :| SweepsInOrder(es, after, Dropped(after, ts), order);
    var l := LastCall(Calls(es), name);
    if l.Some? {
      var i :| 0 <= i < |es| && Calls(es)[i] == l.value;
      assert es[i].call == Remove(after[order[i]].name);
      assert order[i] in order;
      assert order[i] in Dropped(tbl, ts);
    }
    if DroppedName(tbl, ts, name) {
      var id :| id in Dropped(tbl, ts) && tbl[id].name == name;
      assert id in order;
      var i :| 0 <= i < |order| && order[i] == id;
      assert Calls(es)[i].name == name && Calls(es)[i] in Calls(es);
    }
  }

  ghost predicate RemovalLeft(es: seq<Event>, name: string, content: Option<Entry>) {
    exists e :: e in es && e.call == Remove(name) && content == Left(e)
  }

  lemma LastCallSplit(es: seq<Event>, n: nat, name: string)
    requires n <= |es|
    ensures LastCall(Calls(es), name) ==
            if LastCall(Calls(es[n..]), name).Some? then LastCall(Calls(es[n..]), name) else LastCall(Calls(es[..n]), name)
  {
    assert Calls(es) == Calls(es[..n]) + Calls(es[n..]);
    LastCallConcat(Calls(es[..n]), Calls(es[n..]), name);
  }

  lemma LastIsRemove(es: seq<Event>, name: string)
    requires forall e <- es :: e.call.Remove?
    ensures LastCall(Calls(es), name).Some? ==> LastCall(Calls(es), name).value == Remove(name)
  {
    if LastCall(Calls(es), name).Some? {
      var i :| 0 <= i < |es| && Calls(es)[i] == LastCall(Calls(es), name).value;
      assert es[i] in es;
    }
  }

  /** The last call under a name is the sweep's if the name was dropped. */
  lemma LastCallOfSuccess(es: seq<Event>, tbl: Table, ts: seq<Tunnel>, name: string)
    requires DistinctIds(ts) && Succeeds(es, tbl, ts)
    ensures LastCall(Calls(es), name) == if DroppedName(tbl, ts, name) then Some(Remove(name)) else FatedCall(tbl, ts, |ts|, name)
  {
    var n := |CallsUpTo(tbl, ts, |ts|)|;
    LastCallSplit(es, n, name);
    SweepNames(es[n..], tbl, ts, name);
    LastIsRemove(es[n..], name);
    CallsFollowLast(tbl, ts, |ts|, name);
  }

  /** What a successful reconciliation leaves under any name whatever. */
  lemma ContentAfter(dev: Profiles, es: seq<Event>, tbl: Table, ts: seq<Tunnel>, name: string)
    requires DistinctIds(ts) && Succeeds(es, tbl, ts)
    ensures DroppedName(tbl, ts, name) ==> RemovalLeft(es, name, Lookup(Play(dev, es), name))
    ensures !DroppedName(tbl, ts, name) ==>
              var w, left := Last(tbl, ts, |ts|, name), Lookup(Play(dev, es), name);
              && (w.Untouched? ==> left == Lookup(dev, name))
              && (w.Written? ==> left == Some(Wanted(tbl, ts[w.at])))
              && (w.Cleared? ==> RemovalLeft(es, name, left))
  {
    LastCallDecides(dev, es, name);
    LastCallOfSuccess(es, tbl, ts, name);
  }

  ghost predicate RemovesDone(es: seq<Event>) {
    forall e <- es :: e.call.Remove? ==> e.outcome.Done?
  }

  /** The document's tunnel `i` is installed as the feed wants it. */
  predicate Present(dev: Profiles, tbl: Table, ts: seq<Tunnel>, i: nat)
    requires i < |ts|
  {
    Lookup(dev, ts[i].name) == Some(Wanted(tbl, ts[i]))
  }

  /** Tunnel `i`, or a later one that asks for the same profile, is the last to be written under its name,
      and neither a later rename nor a dropped tunnel takes the name away. */
  ghost predicate Settles(tbl: Table, ts: seq<Tunnel>, i: nat)
    requires i < |ts|
  {
    && !DroppedName(tbl, ts, ts[i].name)
    && exists k :: i <= k < |ts| && SettledBy(tbl, ts, i, k)
  }

  ghost predicate SettledBy(tbl: Table, ts: seq<Tunnel>, i: nat, k: nat)
    requires i < |ts| && k < |ts|
  {
    && ts[k].name == ts[i].name
    && Wanted(tbl, ts[k]) == Wanted(tbl, ts[i])
    && forall j :: k < j < |ts| ==> ts[j].name != ts[i].name && !Releases(tbl, ts[j], ts[i].name)
  }

  lemma SettlesByLast(tbl: Table, ts: seq<Tunnel>, i: nat)
    requires i < |ts|
    ensures Settles(tbl, ts, i) <==>
            && !DroppedName(tbl, ts, ts[i].name)
            && Last(tbl, ts, |ts|, ts[i].name).Written?
            && Wanted(tbl, ts[Last(tbl, ts, |ts|, ts[i].name).at]) == Wanted(tbl, ts[i])
  {
    var w := Last(tbl, ts, |ts|, ts[i].name);
    if Settles(tbl, ts, i) {
      var k :| i <= k < |ts| && SettledBy(tbl, ts, i, k);
      assert !w.Untouched? && w.at == k;
    }
    if !DroppedName(tbl, ts, ts[i].name) && w.Written? && Wanted(tbl, ts[w.at]) == Wanted(tbl, ts[i]) {
      assert SettledBy(tbl, ts, i, w.at);
    }
  }

  /** Exactly which tunnels of the document are installed after a success whose removals all worked. */
  lemma PresentExactlyWhenSettled(dev: Profiles, es: seq<Event>, tbl: Table, ts: seq<Tunnel>, i: nat)
    requires DistinctIds(ts) && Succeeds(es, tbl, ts) && RemovesDone(es) && i < |ts|
    ensures Present(Play(dev, es), tbl, ts, i) <==> Settles(tbl, ts, i)
  {
    ContentAfter(dev, es, tbl, ts, ts[i].name);
    SettlesByLast(tbl, ts, i);
  }

  /** A failed removal never costs a settled tunnel its profile. */
  lemma SettledIsPresent(dev: Profiles, es: seq<Event>, tbl: Table, ts: seq<Tunnel>, i: nat)
    requires DistinctIds(ts) && Succeeds(es, tbl, ts) && i < |ts| && Settles(tbl, ts, i)
    ensures Present(Play(dev, es), tbl, ts, i)
  {
    ContentAfter(dev, es, tbl, ts, ts[i].name);
    SettlesByLast(tbl, ts, i);
  }

  ghost predicate DistinctNames(ts: seq<Tunnel>) {
    forall i, j :: 0 <= i < j < |ts| ==> ts[i].name != ts[j].name
  }

  ghost predicate KeepsName(tbl: Table, ts: seq<Tunnel>, i: nat)
    requires i < |ts|
  {
    && !DroppedName(tbl, ts, ts[i].name)
    && forall j :: i < j < |ts| ==> !Releases(tbl, ts[j], ts[i].name)
  }

  lemma SettlesAlone(tbl: Table, ts: seq<Tunnel>, i: nat)
    requires DistinctNames(ts) && i < |ts|
    ensures Settles(tbl, ts, i) <==> KeepsName(tbl, ts, i)
  {
    if KeepsName(tbl, ts, i) {
      assert SettledBy(tbl, ts, i, i);
    }
  }

  /** No recorded name that the feed gives up is the new name of a tunnel handled before. */
  ghost predicate NamesDoNotClash(tbl: Table, ts: seq<Tunnel>) {
    forall i :: 0 <= i < |ts| ==> KeepsName(tbl, ts, i)
  }

  /** The whole document is installed as the feed wants it. */
  ghost predicate AllPresent(dev: Profiles, tbl: Table, ts: seq<Tunnel>) {
    forall i :: 0 <= i < |ts| ==> Present(dev, tbl, ts, i)
  }

  /** With distinct names, the whole document is installed if and only if no name clashes. */
  lemma AgreesExactlyWithoutClashes(dev: Profiles, es: seq<Event>, tbl: Table, ts: seq<Tunnel>)
    requires DistinctIds(ts) && DistinctNames(ts) && Succeeds(es, tbl, ts) && RemovesDone(es)
    ensures AllPresent(Play(dev, es), tbl, ts) <==> NamesDoNotClash(tbl, ts)
  {
    forall i | 0 <= i < |ts| ensures Present(Play(dev, es), tbl, ts, i) <==> KeepsName(tbl, ts, i) {
      PresentExactlyWhenSettled(dev, es, tbl, ts, i);
      SettlesAlone(tbl, ts, i);
    }
  }

  /** Names the feed gave up and does not ask for again are gone; names it never had are as before. */
  lemma OtherNames(dev: Profiles, es: seq<Event>, tbl: Table, ts: seq<Tunnel>, name: string)
    requires DistinctIds(ts) && Succeeds(es, tbl, ts)
    requires forall i :: 0 <= i < |ts| ==> ts[i].name != name
    ensures var released := DroppedName(tbl, ts, name) || exists j :: 0 <= j < |ts| && Releases(tbl, ts[j], name);
            && (released && RemovesDone(es) ==> name !in Play(dev, es))
            && (!released ==> Lookup(Play(dev, es), name) == Lookup(dev, name))
  {
    ContentAfter(dev, es, tbl, ts, name);
    var w := Last(tbl, ts, |ts|, name);
    if w.Cleared? {
      assert Releases(tbl, ts[w.at], name);
    }
  }

  // ----- applying the same document again

  /** Once a document was reconciled, doing so again changes no record and removes nothing. */
  lemma AgainChangesNothing(tbl: Table, ts: seq<Tunnel>)
    requires DistinctIds(ts)
    ensures Reconciled(Reconciled(tbl, ts), ts) == Reconciled(tbl, ts)
    ensures Dropped(Reconciled(tbl, ts), ts) == {}
    ensures forall i :: 0 <= i < |ts| ==>
              !Renamed(Reconciled(tbl, ts), ts[i]) && Wanted(Reconciled(tbl, ts), ts[i]) == Wanted(tbl, ts[i])
  {
    var once := Reconciled(tbl, ts);
    SuccessRecordsDocument(tbl, ts);
    SuccessRecordsDocument(once, ts);
    assert forall i :: 0 <= i < |ts| ==> Effective(once, ts[i]) == Effective(tbl, ts[i]);
    forall id | id in once.Keys ensures Reconciled(once, ts)[id] == once[id] {
      var i :| 0 <= i < |ts| && ts[i].id == id;
    }
    assert Reconciled(once, ts).Keys == once.Keys;
  }

  /** A second success installs everything, whatever clashes cost the first one. */
  lemma SecondSuccessRepairs(dev: Profiles, es: seq<Event>, tbl: Table, ts: seq<Tunnel>, i: nat)
    requires DistinctIds(ts) && DistinctNames(ts) && i < |ts|
    requires Succeeds(es, Reconciled(tbl, ts), ts)
    ensures Present(Play(dev, es), tbl, ts, i)
    ensures forall e <- es :: e.call.Apply?
  {
    var once := Reconciled(tbl, ts);
    AgainChangesNothing(tbl, ts);
    assert KeepsName(once, ts, i);
    SettlesAlone(once, ts, i);
    SettledIsPresent(dev, es, once, ts, i);
    var n := |CallsUpTo(once, ts, |ts|)|;
    OnlyApplies(once, ts, |ts|);
    DroppedAtStart(once, ts);
    var order :| SweepsInOrder(es[n..], AppliedTo(once, ts, |ts|), {}, order);
    assert (set id <- order) == {};
    assert es == es[..n];
    forall e | e in es ensures e.call.Apply? {
      var k :| 0 <= k < |es| && es[k] == e;
      assert Calls(es[..n])[k] == e.call;
    }
  }

  lemma {:induction false} OnlyApplies(tbl: Table, ts: seq<Tunnel>, n: nat)
    requires DistinctIds(ts) && n <= |ts|
    requires forall i :: 0 <= i < |ts| ==> !Renamed(tbl, ts[i])
    ensures forall c <- CallsUpTo(tbl, ts, n) :: c.Apply?
  {
    if n > 0 {
      OnlyApplies(tbl, ts, n - 1);
      CallsOneMore(tbl, ts, n);
      assert CallsFor(tbl, ts[n - 1]) == [Apply(ts[n - 1].name, Wanted(tbl, ts[n - 1]))];
    }
  }
}
