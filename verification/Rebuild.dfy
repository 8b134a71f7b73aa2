/** What rebuilding a connection file keeps, replaces and repeats. */
module Rebuild {
  import opened Text
  import opened WgQuick
  import opened Keyfile
  import opened Lists
  import opened EndpointOrder

  // ----- what a list of writes leaves

  ghost predicate Proper(ws: seq<Write>) {
    forall i :: 0 <= i < |ws| ==> !Blank(ws[i].section) && !Blank(ws[i].key)
  }

  predicate WritesTo(ws: seq<Write>, section: string) {
    ws != [] && (ws[|ws| - 1].section == section || WritesTo(ws[..|ws| - 1], section))
  }

  function LastWrite(ws: seq<Write>, section: string, key: string): Option<string> {
    if ws == [] then None
    else
      var w := ws[|ws| - 1];
      if w.section == section && w.key == key then Some(w.value) else LastWrite(ws[..|ws| - 1], section, key)
  }

  lemma {:induction false} FindAfter(s: Sections, ws: seq<Write>, section: string, key: string)
    requires Proper(ws)
    ensures Find(AllWritten(s, ws), section, key) ==
            if LastWrite(ws, section, key).Some? then LastWrite(ws, section, key) else Find(s, section, key)
  {
    if ws != [] {
      FindAfter(s, ws[..|ws| - 1], section, key);
    }
  }

  lemma {:induction false} InAfter(s: Sections, ws: seq<Write>, section: string)
    requires Proper(ws)
    ensures section in AllWritten(s, ws) <==> section in s || WritesTo(ws, section)
  {
    if ws != [] {
      InAfter(s, ws[..|ws| - 1], section);
    }
  }

  lemma {:induction false} LastWriteConcat(a: seq<Write>, b: seq<Write>, section: string, key: string)
    ensures LastWrite(a + b, section, key) ==
            if LastWrite(b, section, key).Some? then LastWrite(b, section, key) else LastWrite(a, section, key)
  {
    if b == [] {
      assert a + b == a;
    } else {
      assert (a + b)[..|a + b| - 1] == a + b[..|b| - 1];
      LastWriteConcat(a, b[..|b| - 1], section, key);
    }
  }

  lemma {:induction false} LastWriteElsewhere(ws: seq<Write>, section: string, key: string)
    ensures LastWrite(ws, section, key).Some? ==> WritesTo(ws, section)
  {
    if ws != [] {
      LastWriteElsewhere(ws[..|ws| - 1], section, key);
    }
  }

  /** Two files with the same sections and the same values are the same. */
  lemma SameFile(s: Sections, t: Sections)
    requires forall x :: x in s <==> x in t
    requires forall x, k :: Find(s, x, k) == Find(t, x, k)
    ensures s == t
  {
    forall x | x in s ensures s[x] == t[x] {
      assert forall k :: k in s[x] <==> Find(s, x, k).Some?;
      assert forall k :: k in t[x] <==> Find(t, x, k).Some?;
      forall k | k in s[x] ensures s[x][k] == t[x][k] {
        assert Find(s, x, k) == Find(t, x, k);
      }
    }
  }

  // ----- which sections are written

  function Head(name: string, uuid: string, cfg: Config): seq<Write> {
    ConnectionWrites(name, uuid) + WireguardWrites(cfg.iface)
  }

  function Tail(cfg: Config): seq<Write> {
    PeersWrites(cfg.peers) + (Ipv4Writes(cfg.iface) + Ipv6Writes(cfg.iface))
  }

  ghost predicate Only(ws: seq<Write>, where: string -> bool) {
    forall i :: 0 <= i < |ws| ==> where(ws[i].section) && !Blank(ws[i].key)
  }

  lemma OnlyBoth(a: seq<Write>, b: seq<Write>, where: string -> bool)
    requires Only(a, where) && Only(b, where)
    ensures Only(a + b, where)
  {
  }

  lemma {:induction false} OnlyThere(ws: seq<Write>, where: string -> bool, x: string)
    requires Only(ws, where) && !where(x)
    ensures !WritesTo(ws, x)
  {
    if ws != [] {
      OnlyThere(ws[..|ws| - 1], where, x);
    }
  }

  predicate InHead(x: string) {
    x == "connection" || x == "wireguard"
  }

  predicate InIp(x: string) {
    x == "ipv4" || x == "ipv6"
  }

  predicate IsPeer(x: string) {
    PEER <= x
  }

  lemma HeadOnly(name: string, uuid: string, cfg: Config)
    ensures Only(Head(name, uuid, cfg), InHead)
  {
    OnlyBoth(ConnectionWrites(name, uuid), WireguardWrites(cfg.iface), InHead);
  }

  lemma IpOnly(i: Interface)
    ensures Only(Ipv4Writes(i) + Ipv6Writes(i), InIp)
  {
    AddressOnly(i);
    DNSOnly(i);
    Ipv6Only(i);
    OnlyBoth(AddressWrites(i), DNSWrites(i), InIp);
    OnlyBoth(Ipv4Writes(i), Ipv6Writes(i), InIp);
  }

  lemma TwoOnly(w: Write, v: Write, where: string -> bool)
    requires where(w.section) && where(v.section) && !Blank(w.key) && !Blank(v.key)
    ensures Only([w, v], where)
  {
  }

  lemma AddressOnly(i: Interface)
    ensures Only(AddressWrites(i), InIp)
  {
  }

  lemma DNSOnly(i: Interface)
    ensures Only(DNSWrites(i), InIp)
  {
  }

  lemma Ipv6Only(i: Interface)
    ensures Only(Ipv6Writes(i), InIp)
  {
    KeysAreNotBlank();
    var addresses := Filter(Clean(i.addresses), IsV6);
    if addresses != [] {
      TwoOnly(Write("ipv6", "method", "manual"), Write("ipv6", "address1", addresses[0]), InIp);
    } else {
      TwoOnly(Write("ipv6", "method", "disabled"), Write("ipv6", "addr-gen-mode", "default"), InIp);
    }
  }

  lemma KeysAreNotBlank()
    ensures !Blank("method") && !Blank("address1") && !Blank("addr-gen-mode")
  {
    StartsWithNoSpace("method");
    StartsWithNoSpace("address1");
    StartsWithNoSpace("addr-gen-mode");
  }

  lemma StartsWithNoSpace(s: string)
    requires s != "" && !IsSpace(s[0])
    ensures !Blank(s)
  {
    TrimRightKeeps(s);
  }

  lemma ManagedNames(x: string)
    requires InHead(x) || InIp(x)
    ensures !Blank(x) && !IsPeer(x)
  {
    assert "connection"[0] != PEER[0] && "ipv4"[0] != PEER[0] && "ipv6"[0] != PEER[0];
  }

  lemma {:induction false} TrimRightKeeps(s: string)
    requires s != "" && !IsSpace(s[0])
    ensures TrimRight(s) != ""
  {
    if IsSpace(s[|s| - 1]) {
      TrimRightKeeps(s[..|s| - 1]);
    }
  }

  lemma PeerNamesNotBlank(x: string)
    requires PEER <= x
    ensures !Blank(x)
  {
    assert x[0] == PEER[0] && TrimLeft(x) == x;
    TrimRightKeeps(x);
  }

  /** A peer is written when it has a key and anything else to say. */
  predicate Configured(p: Peer) {
    !Blank(p.publicKey) && (p.endpoint != "" || p.presharedKey != "" || p.allowedIPs != [])
  }

  function Named(section: string): string -> bool {
    x => x == section
  }

  lemma EndpointOnly(sec: string, p: Peer)
    ensures Only(EndpointWrites(sec, p), Named(sec))
  {
  }

  lemma PresharedOnly(sec: string, p: Peer)
    ensures Only(PresharedWrites(sec, p), Named(sec))
  {
  }

  lemma AllowedOnly(sec: string, p: Peer)
    ensures Only(AllowedWrites(sec, p), Named(sec))
  {
  }

  lemma PeerOnly(p: Peer)
    ensures Only(PeerWrites(p), Named(PeerSection(p))) && Only(PeerWrites(p), IsPeer)
    ensures PeerWrites(p) != [] <==> Configured(p)
  {
    var sec := PeerSection(p);
    var a, b, d := EndpointWrites(sec, p), PresharedWrites(sec, p), AllowedWrites(sec, p);
    EndpointOnly(sec, p);
    PresharedOnly(sec, p);
    AllowedOnly(sec, p);
    OnlyBoth(a, b, Named(sec));
    OnlyBoth(a + b, d, Named(sec));
    assert |a + b + d| == |a| + |b| + |d|;
  }

  lemma PeerWritesTo(p: Peer, x: string)
    ensures WritesTo(PeerWrites(p), x) <==> Configured(p) && x == PeerSection(p)
  {
    PeerOnly(p);
    if x != PeerSection(p) {
      OnlyThere(PeerWrites(p), Named(PeerSection(p)), x);
    }
  }

  /** Peer `i` is written, to section `x`. */
  predicate Names(ps: seq<Peer>, i: nat, x: string)
    requires i < |ps|
  {
    Configured(ps[i]) && PeerSection(ps[i]) == x
  }

  ghost predicate SomeNames(ps: seq<Peer>, x: string) {
    exists i :: 0 <= i < |ps| && Names(ps, i, x)
  }

  lemma SomeNamesLast(ps: seq<Peer>, x: string)
    requires ps != []
    ensures SomeNames(ps, x) <==> SomeNames(ps[..|ps| - 1], x) || Names(ps, |ps| - 1, x)
  {
    var front := ps[..|ps| - 1];
    assert forall i :: 0 <= i < |front| ==> (Names(front, i, x) <==> Names(ps, i, x));
  }

  lemma {:induction false} PeersOnly(ps: seq<Peer>)
    ensures Only(PeersWrites(ps), IsPeer)
  {
    if ps != [] {
      PeersOnly(ps[..|ps| - 1]);
      PeerOnly(ps[|ps| - 1]);
      OnlyBoth(PeersWrites(ps[..|ps| - 1]), PeerWrites(ps[|ps| - 1]), IsPeer);
    }
  }

  lemma {:induction false} PeersWriteTo(ps: seq<Peer>, x: string)
    ensures WritesTo(PeersWrites(ps), x) <==> SomeNames(ps, x)
  {
    if ps != [] {
      PeersWriteTo(ps[..|ps| - 1], x);
      PeerWritesTo(ps[|ps| - 1], x);
      WritesToConcat(PeersWrites(ps[..|ps| - 1]), PeerWrites(ps[|ps| - 1]), x);
      SomeNamesLast(ps, x);
    }
  }

  lemma {:induction false} WritesToConcat(a: seq<Write>, b: seq<Write>, x: string)
    ensures WritesTo(a + b, x) <==> WritesTo(a, x) || WritesTo(b, x)
  {
    if b == [] {
      assert a + b == a;
    } else {
      assert (a + b)[..|a + b| - 1] == a + b[..|b| - 1];
      WritesToConcat(a, b[..|b| - 1], x);
    }
  }

  // ----- the rebuilt file

  lemma AllProper(name: string, uuid: string, cfg: Config)
    ensures Proper(Head(name, uuid, cfg)) && Proper(Tail(cfg))
  {
    HeadOnly(name, uuid, cfg);
    IpOnly(cfg.iface);
    PeersOnly(cfg.peers);
    forall x | InHead(x) || InIp(x) ensures !Blank(x) { ManagedNames(x); }
    forall x | IsPeer(x) ensures !Blank(x) { PeerNamesNotBlank(x); }
    OnlyProper(Head(name, uuid, cfg), InHead);
    OnlyProper(PeersWrites(cfg.peers), IsPeer);
    OnlyProper(Ipv4Writes(cfg.iface) + Ipv6Writes(cfg.iface), InIp);
    ProperBoth(PeersWrites(cfg.peers), Ipv4Writes(cfg.iface) + Ipv6Writes(cfg.iface));
  }

  lemma OnlyProper(ws: seq<Write>, where: string -> bool)
    requires Only(ws, where) && forall x :: where(x) ==> !Blank(x)
    ensures Proper(ws)
  {
  }

  lemma ProperBoth(a: seq<Write>, b: seq<Write>)
    requires Proper(a) && Proper(b)
    ensures Proper(a + b)
  {
  }

  /** What a section of the rebuilt file was before the tail was written. */
  lemma FoundAfter(s: Sections, name: string, cfg: Config, generated: string, x: string, k: string)
    ensures var after, uuid := Rebuilt(s, name, cfg, generated), Uuid(s, generated);
            Find(after, x, k) ==
            if LastWrite(Tail(cfg), x, k).Some? then LastWrite(Tail(cfg), x, k)
            else if IsPeer(x) then None
            else if LastWrite(Head(name, uuid, cfg), x, k).Some? then LastWrite(Head(name, uuid, cfg), x, k)
            else Find(s, x, k)
  {
    var uuid := Uuid(s, generated);
    var head := AllWritten(s, Head(name, uuid, cfg));
    AllProper(name, uuid, cfg);
    FindAfter(s, Head(name, uuid, cfg), x, k);
    FindAfter(Without(head, PEER), Tail(cfg), x, k);
  }

  lemma InRebuilt(s: Sections, name: string, cfg: Config, generated: string, x: string)
    ensures var after, uuid := Rebuilt(s, name, cfg, generated), Uuid(s, generated);
            x in after <==> WritesTo(Tail(cfg), x) || (!IsPeer(x) && (x in s || WritesTo(Head(name, uuid, cfg), x)))
  {
    var uuid := Uuid(s, generated);
    var head := AllWritten(s, Head(name, uuid, cfg));
    AllProper(name, uuid, cfg);
    InAfter(s, Head(name, uuid, cfg), x);
    InAfter(Without(head, PEER), Tail(cfg), x);
  }

  lemma TailWritesTo(cfg: Config, x: string)
    ensures IsPeer(x) ==> (WritesTo(Tail(cfg), x) <==> SomeNames(cfg.peers, x))
    ensures !IsPeer(x) && !InIp(x) ==> !WritesTo(Tail(cfg), x)
  {
    var a, b := PeersWrites(cfg.peers), Ipv4Writes(cfg.iface) + Ipv6Writes(cfg.iface);
    WritesToConcat(a, b, x);
    PeersWriteTo(cfg.peers, x);
    PeersOnly(cfg.peers);
    IpOnly(cfg.iface);
    if !IsPeer(x) { OnlyThere(a, IsPeer, x); }
    if !InIp(x) { OnlyThere(b, InIp, x); }
    if InIp(x) { ManagedNames(x); }
  }

  lemma HeadWritesTo(name: string, uuid: string, cfg: Config, x: string)
    requires !InHead(x)
    ensures !WritesTo(Head(name, uuid, cfg), x)
  {
    HeadOnly(name, uuid, cfg);
    OnlyThere(Head(name, uuid, cfg), InHead, x);
  }

  /** Sections the rebuild does not manage are kept as they were. */
  lemma OtherSectionsKept(s: Sections, name: string, cfg: Config, generated: string, x: string)
    requires !InHead(x) && !InIp(x) && !IsPeer(x)
    ensures x in Rebuilt(s, name, cfg, generated) <==> x in s
    ensures x in s ==> Rebuilt(s, name, cfg, generated)[x] == s[x]
  {
    var after, uuid := Rebuilt(s, name, cfg, generated), Uuid(s, generated);
    InRebuilt(s, name, cfg, generated, x);
    TailWritesTo(cfg, x);
    HeadWritesTo(name, uuid, cfg, x);
    if x in s {
      forall k ensures Find(after, x, k) == Find(s, x, k) {
        FoundAfter(s, name, cfg, generated, x, k);
        LastWriteElsewhere(Tail(cfg), x, k);
        LastWriteElsewhere(Head(name, uuid, cfg), x, k);
      }
      assert forall k :: k in after[x] <==> Find(after, x, k).Some?;
      assert forall k :: k in s[x] <==> Find(s, x, k).Some?;
      assert forall k <- s[x] :: after[x][k] == Find(after, x, k).value;
    }
  }

  /** The peer sections are exactly those of the peers with a key and anything else to say. */
  lemma PeerSectionsExactly(s: Sections, name: string, cfg: Config, generated: string, x: string)
    requires IsPeer(x)
    ensures x in Rebuilt(s, name, cfg, generated) <==> SomeNames(cfg.peers, x)
  {
    InRebuilt(s, name, cfg, generated, x);
    TailWritesTo(cfg, x);
  }

  /** And nothing in them depends on the file before. */
  lemma PeersComeFromConfiguration(s: Sections, t: Sections, name: string, cfg: Config, generated: string, x: string, k: string)
    requires IsPeer(x)
    ensures Find(Rebuilt(s, name, cfg, generated), x, k) == Find(Rebuilt(t, name, cfg, generated), x, k)
  {
    FoundAfter(s, name, cfg, generated, x, k);
    FoundAfter(t, name, cfg, generated, x, k);
  }

  lemma UuidWritten(s: Sections, name: string, cfg: Config, generated: string)
    ensures Find(Rebuilt(s, name, cfg, generated), "connection", "uuid") == Some(Uuid(s, generated))
  {
    var uuid := Uuid(s, generated);
    FoundAfter(s, name, cfg, generated, "connection", "uuid");
    ManagedNames("connection");
    TailWritesTo(cfg, "connection");
    LastWriteElsewhere(Tail(cfg), "connection", "uuid");
    LastUuid(name, uuid, cfg);
  }

  lemma LastOfFour(a: Write, b: Write, c: Write, d: Write, section: string, key: string)
    requires b.section == section && b.key == key && c.key != key && d.key != key
    ensures LastWrite([a, b, c, d], section, key) == Some(b.value)
  {
    assert [a, b, c, d][..3] == [a, b, c] && [a, b, c][..2] == [a, b];
    assert LastWrite([a, b], section, key) == Some(b.value);
    assert LastWrite([a, b, c], section, key) == Some(b.value);
  }

  lemma WireguardElsewhere(i: Interface)
    ensures !WritesTo(WireguardWrites(i), "connection")
  {
    assert Only(WireguardWrites(i), Named("wireguard"));
    OnlyThere(WireguardWrites(i), Named("wireguard"), "connection");
  }

  lemma LastUuid(name: string, uuid: string, cfg: Config)
    ensures LastWrite(Head(name, uuid, cfg), "connection", "uuid") == Some(uuid)
  {
    var a, b := ConnectionWrites(name, uuid), WireguardWrites(cfg.iface);
    LastWriteConcat(a, b, "connection", "uuid");
    WireguardElsewhere(cfg.iface);
    LastWriteElsewhere(b, "connection", "uuid");
    LastOfFour(a[0], a[1], a[2], a[3], "connection", "uuid");
    assert a == [a[0], a[1], a[2], a[3]];
  }

  /** A non-blank identifier survives; rebuilding again with the same configuration changes nothing, if and only if
      the identifier written is not blank or the next one generated is the same. */
  lemma AgainExactly(s: Sections, name: string, cfg: Config, generated: string, next: string)
    ensures var once := Rebuilt(s, name, cfg, generated);
            Rebuilt(once, name, cfg, next) == once <==> !Blank(Uuid(s, generated)) || next == Uuid(s, generated)
  {
    var once := Rebuilt(s, name, cfg, generated);
    var twice := Rebuilt(once, name, cfg, next);
    UuidWritten(s, name, cfg, generated);
    UuidWritten(once, name, cfg, next);
    if Uuid(once, next) == Uuid(s, generated) {
      forall x ensures x in twice <==> x in once {
        InRebuilt(s, name, cfg, generated, x);
        InRebuilt(once, name, cfg, next, x);
      }
      forall x, k ensures Find(twice, x, k) == Find(once, x, k) {
        FoundAfter(s, name, cfg, generated, x, k);
        FoundAfter(once, name, cfg, next, x, k);
      }
      SameFile(twice, once);
    }
  }
}
