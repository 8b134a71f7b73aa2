/** What a rebuilt connection file says, key by key, in terms of the configuration. */
module RebuiltValues {
  import opened Text
  import opened WgQuick
  import opened Keyfile
  import opened Rebuild
  import opened Lists
  import opened EndpointOrder

  lemma LastOfOne(w: Write, x: string, k: string)
    ensures LastWrite([w], x, k) == if w.section == x && w.key == k then Some(w.value) else None
  {
    assert [w][..0] == [];
  }

  lemma LastOfTwo(w: Write, v: Write, x: string, k: string)
    ensures LastWrite([w, v], x, k) == if v.section == x && v.key == k then Some(v.value) else LastWrite([w], x, k)
  {
    assert [w, v][..1] == [w];
  }

  /** One write sets one value, creating its section if need be, and changes nothing if its names are blank. */
  lemma WrittenSays(s: Sections, w: Write, x: string, k: string)
    ensures Find(Written(s, w), x, k) == if !Blank(w.section) && !Blank(w.key) && x == w.section && k == w.key then Some(w.value) else Find(s, x, k)
    ensures x in Written(s, w) <==> x in s || (x == w.section && !Blank(w.section) && !Blank(w.key))
  {
  }

  // ----- [connection] and [wireguard]

  /** Outside the peer and address sections the last value written, or else the old one. */
  lemma FoundInHead(s: Sections, name: string, cfg: Config, generated: string, x: string, k: string)
    requires InHead(x)
    ensures var written := LastWrite(Head(name, Uuid(s, generated), cfg), x, k);
            Find(Rebuilt(s, name, cfg, generated), x, k) == if written.Some? then written else Find(s, x, k)
  {
    FoundAfter(s, name, cfg, generated, x, k);
    ManagedNames(x);
    TailWritesTo(cfg, x);
    LastWriteElsewhere(Tail(cfg), x, k);
  }

  lemma ConnectionWritten(name: string, uuid: string, k: string)
    ensures LastWrite(ConnectionWrites(name, uuid), "connection", k) ==
            if k == "id" || k == "interface-name" then Some(name)
            else if k == "uuid" then Some(uuid)
            else if k == "type" then Some("wireguard")
            else None
  {
    var a, b := Write("connection", "id", name), Write("connection", "uuid", uuid);
    var d, e := Write("connection", "type", "wireguard"), Write("connection", "interface-name", name);
    LastWriteConcat([a, b], [d, e], "connection", k);
    assert [a, b] + [d, e] == ConnectionWrites(name, uuid);
    LastOfTwo(a, b, "connection", k);
    LastOfTwo(d, e, "connection", k);
    LastOfOne(a, "connection", k);
    LastOfOne(d, "connection", k);
  }

  /** The connection carries its name twice, its identifier and its type; other keys keep their values. */
  lemma ConnectionSays(s: Sections, name: string, cfg: Config, generated: string, k: string)
    ensures Find(Rebuilt(s, name, cfg, generated), "connection", k) ==
            if k == "id" || k == "interface-name" then Some(name)
            else if k == "uuid" then
              (if Find(s, "connection", "uuid").Some? && !Blank(Find(s, "connection", "uuid").value) then Find(s, "connection", "uuid") else Some(generated))
            else if k == "type" then Some("wireguard")
            else Find(s, "connection", k)
  {
    var uuid := Uuid(s, generated);
    FoundInHead(s, name, cfg, generated, "connection", k);
    LastWriteConcat(ConnectionWrites(name, uuid), WireguardWrites(cfg.iface), "connection", k);
    WireguardElsewhere(cfg.iface);
    LastWriteElsewhere(WireguardWrites(cfg.iface), "connection", k);
    ConnectionWritten(name, uuid, k);
  }

  lemma WireguardWritten(i: Interface, k: string)
    ensures LastWrite(WireguardWrites(i), "wireguard", k) ==
            if k == "private-key" then Some(i.privateKey)
            else if k == "mtu" && i.mtu.Some? then Some(Number(i.mtu.value))
            else None
  {
    var key := Write("wireguard", "private-key", i.privateKey);
    LastOfOne(key, "wireguard", k);
    if i.mtu.Some? {
      var mtu := Write("wireguard", "mtu", Number(i.mtu.value));
      LastOfTwo(mtu, key, "wireguard", k);
      LastOfOne(mtu, "wireguard", k);
      assert WireguardWrites(i) == [mtu, key];
    } else {
      assert WireguardWrites(i) == [key];
    }
  }

  /** The interface's private key; its MTU if it has one, and otherwise the old one. */
  lemma WireguardSays(s: Sections, name: string, cfg: Config, generated: string, k: string)
    ensures Find(Rebuilt(s, name, cfg, generated), "wireguard", k) ==
            if k == "private-key" then Some(cfg.iface.privateKey)
            else if k == "mtu" && cfg.iface.mtu.Some? then Some(Number(cfg.iface.mtu.value))
            else Find(s, "wireguard", k)
  {
    var uuid := Uuid(s, generated);
    FoundInHead(s, name, cfg, generated, "wireguard", k);
    LastWriteConcat(ConnectionWrites(name, uuid), WireguardWrites(cfg.iface), "wireguard", k);
    ConnectionElsewhere(name, uuid);
    LastWriteElsewhere(ConnectionWrites(name, uuid), "wireguard", k);
    WireguardWritten(cfg.iface, k);
  }

  lemma ConnectionElsewhere(name: string, uuid: string)
    ensures !WritesTo(ConnectionWrites(name, uuid), "wireguard")
  {
    assert Only(ConnectionWrites(name, uuid), Rebuild.Named("connection"));
    OnlyThere(ConnectionWrites(name, uuid), Rebuild.Named("connection"), "wireguard");
  }

  // ----- the peers

  /** What a peer's own section says. */
  function PeerSays(p: Peer, k: string): Option<string> {
    if k == "endpoint" && p.endpoint != "" then Some(p.endpoint)
    else if k == "preshared-key" && p.presharedKey != "" then Some(p.presharedKey)
    else if k == "preshared-key-flags" && p.presharedKey != "" then Some("0")
    else if k == "allowed-ips" && p.allowedIPs != [] then Some(NmList(p.allowedIPs))
    else None
  }

  lemma PartsWritten(sec: string, p: Peer, k: string)
    ensures LastWrite(EndpointWrites(sec, p), sec, k) == if k == "endpoint" && p.endpoint != "" then Some(p.endpoint) else None
    ensures LastWrite(AllowedWrites(sec, p), sec, k) == if k == "allowed-ips" && p.allowedIPs != [] then Some(NmList(p.allowedIPs)) else None
    ensures LastWrite(PresharedWrites(sec, p), sec, k) ==
            if p.presharedKey == "" then None
            else if k == "preshared-key" then Some(p.presharedKey)
            else if k == "preshared-key-flags" then Some("0")
            else None
  {
    var a, b := Write(sec, "preshared-key", p.presharedKey), Write(sec, "preshared-key-flags", "0");
    LastOfOne(Write(sec, "endpoint", p.endpoint), sec, k);
    LastOfOne(Write(sec, "allowed-ips", NmList(p.allowedIPs)), sec, k);
    LastOfOne(a, sec, k);
    LastOfTwo(a, b, sec, k);
  }

  lemma PeerWritten(p: Peer, k: string)
    requires !Blank(p.publicKey)
    ensures LastWrite(PeerWrites(p), PeerSection(p), k) == PeerSays(p, k)
  {
    var sec := PeerSection(p);
    var a, b, d := EndpointWrites(sec, p), PresharedWrites(sec, p), AllowedWrites(sec, p);
    LastWriteConcat(a + b, d, sec, k);
    LastWriteConcat(a, b, sec, k);
    PartsWritten(sec, p, k);
  }

  /** The last peer with a key that is written to section `x` and says something about `k` decides. */
  function PeersSay(ps: seq<Peer>, x: string, k: string): Option<string> {
    if ps == [] then None
    else
      var p := ps[|ps| - 1];
      if !Blank(p.publicKey) && PEER + TrimSpace(p.publicKey) == x && PeerSays(p, k).Some? then PeerSays(p, k)
      else PeersSay(ps[..|ps| - 1], x, k)
  }

  lemma {:induction false} PeersWritten(ps: seq<Peer>, x: string, k: string)
    ensures LastWrite(PeersWrites(ps), x, k) == PeersSay(ps, x, k)
  {
    if ps != [] {
      var p := ps[|ps| - 1];
      PeersWritten(ps[..|ps| - 1], x, k);
      LastWriteConcat(PeersWrites(ps[..|ps| - 1]), PeerWrites(p), x, k);
      LastPeerWritten(p, x, k);
    }
  }

  lemma LastPeerWritten(p: Peer, x: string, k: string)
    ensures LastWrite(PeerWrites(p), x, k) == if !Blank(p.publicKey) && PEER + TrimSpace(p.publicKey) == x then PeerSays(p, k) else None
  {
    if !Blank(p.publicKey) && PeerSection(p) == x {
      PeerWritten(p, k);
    } else {
      PeerWritesTo(p, x);
      LastWriteElsewhere(PeerWrites(p), x, k);
    }
  }

  /** Every peer section says what the last peers with its key say, and nothing that the file said before. */
  lemma PeerSectionSays(s: Sections, name: string, cfg: Config, generated: string, x: string, k: string)
    requires IsPeer(x)
    ensures Find(Rebuilt(s, name, cfg, generated), x, k) == PeersSay(cfg.peers, x, k)
  {
    FoundAfter(s, name, cfg, generated, x, k);
    LastWriteConcat(PeersWrites(cfg.peers), Ipv4Writes(cfg.iface) + Ipv6Writes(cfg.iface), x, k);
    IpElsewhere(cfg.iface, x);
    LastWriteElsewhere(Ipv4Writes(cfg.iface) + Ipv6Writes(cfg.iface), x, k);
    PeersWritten(cfg.peers, x, k);
  }

  lemma IpElsewhere(i: Interface, x: string)
    requires IsPeer(x)
    ensures !WritesTo(Ipv4Writes(i) + Ipv6Writes(i), x)
  {
    IpOnly(i);
    if InIp(x) { ManagedNames(x); }
    OnlyThere(Ipv4Writes(i) + Ipv6Writes(i), InIp, x);
  }

  lemma OtherSection(a: string, b: string)
    requires a != b
    ensures PEER + a != PEER + b
  {
    assert (PEER + a)[|PEER|..] == a && (PEER + b)[|PEER|..] == b;
  }

  lemma OneMorePeer(front: seq<Peer>, p: Peer, x: string, k: string)
    ensures PeersSay(front + [p], x, k) ==
            if !Blank(p.publicKey) && PEER + TrimSpace(p.publicKey) == x && PeerSays(p, k).Some? then PeerSays(p, k) else PeersSay(front, x, k)
  {
    assert (front + [p])[..|front + [p]| - 1] == front;
  }

  /** A peer whose key no other peer has says exactly what its configuration says. */
  lemma {:induction false} OnlyPeerSays(ps: seq<Peer>, i: nat, k: string)
    requires i < |ps| && !Blank(ps[i].publicKey)
    requires forall j :: 0 <= j < |ps| && j != i ==> TrimSpace(ps[j].publicKey) != TrimSpace(ps[i].publicKey)
    ensures PeersSay(ps, PEER + TrimSpace(ps[i].publicKey), k) == PeerSays(ps[i], k)
  {
    var n := |ps| - 1;
    assert ps == ps[..n] + [ps[n]];
    OneMorePeer(ps[..n], ps[n], PEER + TrimSpace(ps[i].publicKey), k);
    if i < n {
      OtherSection(TrimSpace(ps[n].publicKey), TrimSpace(ps[i].publicKey));
      OnlyPeerSays(ps[..n], i, k);
    } else {
      NoPeerSays(ps[..n], ps[i], k);
    }
  }

  lemma {:induction false} NoPeerSays(ps: seq<Peer>, p: Peer, k: string)
    requires forall j :: 0 <= j < |ps| ==> TrimSpace(ps[j].publicKey) != TrimSpace(p.publicKey)
    ensures PeersSay(ps, PEER + TrimSpace(p.publicKey), k) == None
  {
    if ps != [] {
      var n := |ps| - 1;
      OtherSection(TrimSpace(ps[n].publicKey), TrimSpace(p.publicKey));
      NoPeerSays(ps[..n], p, k);
    }
  }

  // ----- [ipv4] and [ipv6]

  /** The first address of one family: those of IPv6 have a colon. */
  function FirstAddress(addresses: seq<string>, six: bool): Option<string> {
    if addresses == [] then None
    else
      var front, a := FirstAddress(addresses[..|addresses| - 1], six), TrimSpace(addresses[|addresses| - 1]);
      if front.Some? then front else if a != "" && (':' in a <==> six) then Some(a) else None
  }

  lemma FirstAddressSnoc(front: seq<string>, a: string, six: bool)
    ensures FirstAddress(front + [a], six) ==
            if FirstAddress(front, six).Some? then FirstAddress(front, six)
            else if !Blank(a) && (':' in TrimSpace(a) <==> six) then Some(TrimSpace(a))
            else None
  {
    assert (front + [a])[..|front + [a]| - 1] == front;
  }

  lemma {:induction false} FirstOfFamily(addresses: seq<string>, family: string -> bool, six: bool)
    requires forall a :: family(a) <==> (':' in a <==> six)
    ensures var own := Filter(Clean(addresses), family); FirstAddress(addresses, six) == if own == [] then None else Some(own[0])
  {
    if addresses != [] {
      var front, a := addresses[..|addresses| - 1], addresses[|addresses| - 1];
      assert addresses == front + [a];
      FirstOfFamily(front, family, six);
      FirstAddressSnoc(front, a, six);
      CleanSnoc(front, a);
      FilterSnoc(Clean(front), TrimSpace(a), family);
    }
  }

  lemma FoundInIp(s: Sections, name: string, cfg: Config, generated: string, x: string, k: string)
    requires InIp(x)
    ensures var written := LastWrite(Ipv4Writes(cfg.iface) + Ipv6Writes(cfg.iface), x, k);
            Find(Rebuilt(s, name, cfg, generated), x, k) == if written.Some? then written else Find(s, x, k)
  {
    FoundAfter(s, name, cfg, generated, x, k);
    ManagedNames(x);
    HeadWritesTo(name, Uuid(s, generated), cfg, x);
    LastWriteElsewhere(Head(name, Uuid(s, generated), cfg), x, k);
    LastWriteConcat(PeersWrites(cfg.peers), Ipv4Writes(cfg.iface) + Ipv6Writes(cfg.iface), x, k);
    PeersOnly(cfg.peers);
    OnlyThere(PeersWrites(cfg.peers), IsPeer, x);
    LastWriteElsewhere(PeersWrites(cfg.peers), x, k);
  }

  lemma FamiliesApart(i: Interface, k: string)
    ensures LastWrite(Ipv4Writes(i) + Ipv6Writes(i), "ipv4", k) == LastWrite(Ipv4Writes(i), "ipv4", k)
    ensures LastWrite(Ipv4Writes(i) + Ipv6Writes(i), "ipv6", k) == LastWrite(Ipv6Writes(i), "ipv6", k)
  {
    var four, six := Ipv4Writes(i), Ipv6Writes(i);
    LastWriteConcat(four, six, "ipv4", k);
    LastWriteConcat(four, six, "ipv6", k);
    Ipv4Only(i);
    Ipv6OnlySix(i);
    OnlyThere(four, Rebuild.Named("ipv4"), "ipv6");
    OnlyThere(six, Rebuild.Named("ipv6"), "ipv4");
    LastWriteElsewhere(four, "ipv6", k);
    LastWriteElsewhere(six, "ipv4", k);
  }

  lemma OneOnly(w: Write, x: string)
    requires w.section == x && !Blank(w.key)
    ensures Only([w], Rebuild.Named(x))
  {
  }

  lemma AddressInFour(i: Interface)
    ensures Only(AddressWrites(i), Rebuild.Named("ipv4"))
  {
    KeysAreNotBlank();
    var own := Filter(Clean(i.addresses), IsV4);
    if own != [] {
      TwoOnly(Write("ipv4", "method", "manual"), Write("ipv4", "address1", own[0]), Rebuild.Named("ipv4"));
    } else {
      OneOnly(Write("ipv4", "method", "disabled"), "ipv4");
    }
  }

  lemma DNSInFour(i: Interface)
    ensures Only(DNSWrites(i), Rebuild.Named("ipv4"))
  {
    StartsWithNoSpace("dns");
    StartsWithNoSpace("dns-search");
    TwoOnly(Write("ipv4", "dns", NmList(i.dns)), Write("ipv4", "dns-search", "~;"), Rebuild.Named("ipv4"));
  }

  lemma Ipv4Only(i: Interface)
    ensures Only(Ipv4Writes(i), Rebuild.Named("ipv4"))
  {
    AddressInFour(i);
    DNSInFour(i);
    OnlyBoth(AddressWrites(i), DNSWrites(i), Rebuild.Named("ipv4"));
  }

  lemma Ipv6OnlySix(i: Interface)
    ensures Only(Ipv6Writes(i), Rebuild.Named("ipv6"))
  {
    KeysAreNotBlank();
    var own := Filter(Clean(i.addresses), IsV6);
    if own != [] {
      TwoOnly(Write("ipv6", "method", "manual"), Write("ipv6", "address1", own[0]), Rebuild.Named("ipv6"));
    } else {
      TwoOnly(Write("ipv6", "method", "disabled"), Write("ipv6", "addr-gen-mode", "default"), Rebuild.Named("ipv6"));
    }
  }

  /** The first IPv4 address and the name servers; without an address the method is disabled, and an old address stays. */
  lemma Ipv4Says(s: Sections, name: string, cfg: Config, generated: string, k: string)
    ensures var first, dns := FirstAddress(cfg.iface.addresses, false), cfg.iface.dns;
            Find(Rebuilt(s, name, cfg, generated), "ipv4", k) ==
            if k == "method" then Some(if first.Some? then "manual" else "disabled")
            else if k == "address1" && first.Some? then first
            else if k == "dns" && dns != [] then Some(NmList(dns))
            else if k == "dns-search" && dns != [] then Some("~;")
            else Find(s, "ipv4", k)
  {
    FoundInIp(s, name, cfg, generated, "ipv4", k);
    FamiliesApart(cfg.iface, k);
    LastWriteConcat(AddressWrites(cfg.iface), DNSWrites(cfg.iface), "ipv4", k);
    AddressWritten(cfg.iface, k);
    DNSWritten(cfg.iface, k);
  }

  lemma AddressWritten(i: Interface, k: string)
    ensures var first := FirstAddress(i.addresses, false);
            LastWrite(AddressWrites(i), "ipv4", k) ==
            if k == "method" then Some(if first.Some? then "manual" else "disabled") else if k == "address1" then first else None
  {
    FirstOfFamily(i.addresses, IsV4, false);
    var own := Filter(Clean(i.addresses), IsV4);
    LastOfOne(Write("ipv4", "method", "disabled"), "ipv4", k);
    if own != [] {
      var a, b := Write("ipv4", "method", "manual"), Write("ipv4", "address1", own[0]);
      LastOfTwo(a, b, "ipv4", k);
      LastOfOne(a, "ipv4", k);
    }
  }

  lemma DNSWritten(i: Interface, k: string)
    ensures LastWrite(DNSWrites(i), "ipv4", k) ==
            if i.dns == [] then None else if k == "dns" then Some(NmList(i.dns)) else if k == "dns-search" then Some("~;") else None
  {
    var a, b := Write("ipv4", "dns", NmList(i.dns)), Write("ipv4", "dns-search", "~;");
    LastOfTwo(a, b, "ipv4", k);
    LastOfOne(a, "ipv4", k);
  }

  /** The first IPv6 address; without one the method is disabled, and an old address stays. */
  lemma Ipv6Says(s: Sections, name: string, cfg: Config, generated: string, k: string)
    ensures var first := FirstAddress(cfg.iface.addresses, true);
            Find(Rebuilt(s, name, cfg, generated), "ipv6", k) ==
            if k == "method" then Some(if first.Some? then "manual" else "disabled")
            else if k == "address1" && first.Some? then first
            else if k == "addr-gen-mode" && first.None? then Some("default")
            else Find(s, "ipv6", k)
  {
    FoundInIp(s, name, cfg, generated, "ipv6", k);
    FamiliesApart(cfg.iface, k);
    Ipv6Written(cfg.iface, k);
  }

  lemma Ipv6Written(i: Interface, k: string)
    ensures var first := FirstAddress(i.addresses, true);
            LastWrite(Ipv6Writes(i), "ipv6", k) ==
            if k == "method" then Some(if first.Some? then "manual" else "disabled")
            else if k == "address1" then first
            else if k == "addr-gen-mode" && first.None? then Some("default")
            else None
  {
    FirstOfFamily(i.addresses, IsV6, true);
    var own := Filter(Clean(i.addresses), IsV6);
    if own != [] {
      var a, b := Write("ipv6", "method", "manual"), Write("ipv6", "address1", own[0]);
      LastOfTwo(a, b, "ipv6", k);
      LastOfOne(a, "ipv6", k);
    } else {
      var a, b := Write("ipv6", "method", "disabled"), Write("ipv6", "addr-gen-mode", "default");
      LastOfTwo(a, b, "ipv6", k);
      LastOfOne(a, "ipv6", k);
    }
  }

  // ----- values that outlive the configuration

  /** Keys that are only written if the configuration has something for them. */
  predicate Optional(x: string, k: string) {
    || (x == "wireguard" && k == "mtu")
    || (x == "ipv4" && (k == "address1" || k == "dns" || k == "dns-search"))
    || (x == "ipv6" && (k == "address1" || k == "addr-gen-mode"))
  }

  predicate Gives(cfg: Config, x: string, k: string) {
    if x == "wireguard" then cfg.iface.mtu.Some?
    else if k == "address1" then FirstAddress(cfg.iface.addresses, x == "ipv6").Some?
    else if k == "addr-gen-mode" then FirstAddress(cfg.iface.addresses, true).None?
    else cfg.iface.dns != []
  }

  /** The value does not depend on the file before. */
  ghost predicate FromConfiguration(name: string, cfg: Config, generated: string, x: string, k: string) {
    forall s, t :: Find(Rebuilt(s, name, cfg, generated), x, k) == Find(Rebuilt(t, name, cfg, generated), x, k)
  }

  lemma OptionalSays(s: Sections, name: string, cfg: Config, generated: string, x: string, k: string)
    requires Optional(x, k) && !Gives(cfg, x, k)
    ensures Find(Rebuilt(s, name, cfg, generated), x, k) == Find(s, x, k)
  {
    if x == "wireguard" {
      WireguardSays(s, name, cfg, generated, k);
    } else if x == "ipv4" {
      Ipv4Says(s, name, cfg, generated, k);
    } else {
      Ipv6Says(s, name, cfg, generated, k);
    }
  }

  lemma GivenSays(s: Sections, t: Sections, name: string, cfg: Config, generated: string, x: string, k: string)
    requires Optional(x, k) && Gives(cfg, x, k)
    ensures Find(Rebuilt(s, name, cfg, generated), x, k) == Find(Rebuilt(t, name, cfg, generated), x, k)
  {
    if x == "wireguard" {
      WireguardSays(s, name, cfg, generated, k);
      WireguardSays(t, name, cfg, generated, k);
    } else if x == "ipv4" {
      Ipv4Says(s, name, cfg, generated, k);
      Ipv4Says(t, name, cfg, generated, k);
    } else {
      Ipv6Says(s, name, cfg, generated, k);
      Ipv6Says(t, name, cfg, generated, k);
    }
  }

  /** A rebuilt file can keep an MTU, an address or name servers that the configuration no longer has: these values come
      from the configuration alone if and only if it gives them. */
  lemma StaleExactly(name: string, cfg: Config, generated: string, x: string, k: string)
    requires Optional(x, k)
    ensures FromConfiguration(name, cfg, generated, x, k) <==> Gives(cfg, x, k)
  {
    if Gives(cfg, x, k) {
      forall s, t ensures Find(Rebuilt(s, name, cfg, generated), x, k) == Find(Rebuilt(t, name, cfg, generated), x, k) {
        GivenSays(s, t, name, cfg, generated, x, k);
      }
    } else {
      OldValueStays(name, cfg, generated, x, k);
      DependsOnFile(map[], map[x := map[k := "old"]], name, cfg, generated, x, k);
    }
  }

  lemma DependsOnFile(s: Sections, t: Sections, name: string, cfg: Config, generated: string, x: string, k: string)
    requires Find(Rebuilt(s, name, cfg, generated), x, k) != Find(Rebuilt(t, name, cfg, generated), x, k)
    ensures !FromConfiguration(name, cfg, generated, x, k)
  {
  }

  lemma OldValueStays(name: string, cfg: Config, generated: string, x: string, k: string)
    requires Optional(x, k) && !Gives(cfg, x, k)
    ensures Find(Rebuilt(map[], name, cfg, generated), x, k) != Find(Rebuilt(map[x := map[k := "old"]], name, cfg, generated), x, k)
  {
    OptionalSays(map[], name, cfg, generated, x, k);
    OptionalSays(map[x := map[k := "old"]], name, cfg, generated, x, k);
  }

  /** A list value names every non-blank item, trimmed, each with a semicolon after it. */
  lemma NmListSnoc(values: seq<string>, v: string)
    ensures NmList([]) == ""
    ensures NmList(values + [v]) == NmList(values) + if Blank(v) then "" else TrimSpace(v) + ";"
  {
    CleanSnoc(values, v);
    if !Blank(v) {
      var items := Clean(values) + [TrimSpace(v)];
      assert items[..|items| - 1] == Clean(values);
      assert Join(items) == Join(Clean(values)) + TrimSpace(v) + ";";
    }
  }
}
