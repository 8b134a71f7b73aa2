/** The tunnel backend: profiles by name, and the history of calls made to it. */
module Device {
  import opened Text

  /** One installed profile. */
  datatype Entry = Entry(config: string, enabled: bool)

  datatype Call = Apply(name: string, entry: Entry) | Remove(name: string)

  /** A failed call may leave anything, or nothing, under the name it was called with. */
  datatype Outcome = Done | Failed(left: Option<Entry>)

  datatype Event = Event(call: Call, outcome: Outcome)

  type Profiles = map<string, Entry>

  /** What the event leaves under its own name. */
  function Left(e: Event): Option<Entry> {
    match e.outcome
    case Failed(left) => left
    case Done => if e.call.Apply? then Some(e.call.entry) else None
  }

  function Put(dev: Profiles, name: string, content: Option<Entry>): Profiles {
    match content
    case Some(entry) => dev[name := entry]
    case None => dev - {name}
  }

  function Lookup(dev: Profiles, name: string): Option<Entry> {
    if name in dev then Some(dev[name]) else None
  }

  /** The profiles after a history. */
  function Play(dev: Profiles, es: seq<Event>): Profiles {
    if es == [] then dev
    else Put(Play(dev, es[..|es| - 1]), es[|es| - 1].call.name, Left(es[|es| - 1]))
  }

  function Calls(es: seq<Event>): (cs: seq<Call>)
    ensures |cs| == |es| && forall i :: 0 <= i < |es| ==> cs[i] == es[i].call
  {
    seq(|es|, i requires 0 <= i < |es| => es[i].call)
  }

  /** The last event that names `name`, if any. */
  function LastEvent(es: seq<Event>, name: string): (r: Option<Event>)
    ensures r.Some? ==> r.value in es && r.value.call.name == name
    ensures r.None? ==> forall e <- es :: e.call.name != name
  {
    if es == [] then None
    else if es[|es| - 1].call.name == name then Some(es[|es| - 1])
    else LastEvent(es[..|es| - 1], name)
  }

  function LastCall(cs: seq<Call>, name: string): (r: Option<Call>)
    ensures r.Some? ==> r.value in cs && r.value.name == name
    ensures r.None? ==> forall c <- cs :: c.name != name
  {
    if cs == [] then None
    else if cs[|cs| - 1].name == name then Some(cs[|cs| - 1])
    else LastCall(cs[..|cs| - 1], name)
  }

  lemma {:induction false} LastCallConcat(a: seq<Call>, b: seq<Call>, name: string)
    ensures LastCall(a + b, name) == if LastCall(b, name).Some? then LastCall(b, name) else LastCall(a, name)
  {
    if b == [] {
      assert a + b == a;
    } else {
      assert (a + b)[..|a + b| - 1] == a + b[..|b| - 1];
      LastCallConcat(a, b[..|b| - 1], name);
    }
  }

  /** The last call under a name decides what is under it; names never called are as they were. */
  lemma {:induction false} LastCallDecides(dev: Profiles, es: seq<Event>, name: string)
    ensures LastEvent(es, name).Some? <==> LastCall(Calls(es), name).Some?
    ensures LastEvent(es, name).Some? ==>
              && LastEvent(es, name).value.call == LastCall(Calls(es), name).value
              && Lookup(Play(dev, es), name) == Left(LastEvent(es, name).value)
    ensures LastEvent(es, name).None? ==> Lookup(Play(dev, es), name) == Lookup(dev, name)
  {
    if es != [] {
      var front := es[..|es| - 1];
      assert Calls(es)[..|es| - 1] == Calls(front);
      LastCallDecides(dev, front, name);
    }
  }

  lemma {:induction false} PlayConcat(dev: Profiles, es: seq<Event>, more: seq<Event>)
    ensures Play(dev, es + more) == Play(Play(dev, es), more)
  {
    if more == [] {
      assert es + more == es;
    } else {
      assert (es + more)[..|es + more| - 1] == es + more[..|more| - 1];
      PlayConcat(dev, es, more[..|more| - 1]);
    }
  }

  /** A tunnel backend. Each call's outcome is up to the system underneath; the history records it. */
  class Backend {
    var profiles: Profiles
    var history: seq<Event>

    method Run(call: Call) returns (ok: bool)
      modifies this
      ensures |history| == |old(history)| + 1 && old(history) <= history
      ensures history[|old(history)|].call == call
      ensures ok == history[|old(history)|].outcome.Done?
      ensures profiles == Play(old(profiles), history[|old(history)|..])
    {
      var outcome: Outcome := *;
      var e := Event(call, outcome);
      profiles := Put(profiles, call.name, Left(e));
      history := history + [e];
      assert history[|history| - 1..] == [e];
      assert [e][..0] == [];
      ok := outcome.Done?;
    }
  }
}
