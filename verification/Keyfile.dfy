/** NetworkManager connection files: a section/key/value store, and its rebuilding from a wg-quick configuration. */
module Keyfile {
  import opened Text
  import opened Lists
  import opened EndpointOrder
  import opened WgQuick

  type Sections = map<string, map<string, string>>

  function Find(s: Sections, section: string, key: string): Option<string> {
    if section in s && key in s[section] then Some(s[section][key]) else None
  }

  // ----- writing

  datatype Write = Write(section: string, key: string, value: string)

  /** A write creates its section if need be. */
  function Written(s: Sections, w: Write): Sections {
    if Blank(w.section) || Blank(w.key) then s
    else s[w.section := (if w.section in s then s[w.section] else map[])[w.key := w.value]]
  }

  function AllWritten(s: Sections, ws: seq<Write>): Sections {
    if ws == [] then s else Written(AllWritten(s, ws[..|ws| - 1]), ws[|ws| - 1])
  }

  function Without(s: Sections, prefix: string): Sections {
    map x | x in s && !(prefix <= x) :: s[x]
  }

  const PEER := "wireguard-peer."

  // ----- what a configuration writes

  function Decimal(n: nat): string {
    if n < 10 then [('0' as int + n) as char] else Decimal(n / 10) + [('0' as int + n % 10) as char]
  }

  function Number(n: int): string {
    if n < 0 then "-" + Decimal(-n) else Decimal(n)
  }

  function Join(xs: seq<string>): string {
    if xs == [] then "" else Join(xs[..|xs| - 1]) + xs[|xs| - 1] + ";"
  }

  function NmList(values: seq<string>): string {
    Join(Clean(values))
  }

  predicate IsV6(a: string) {
    ':' in a
  }

  predicate IsV4(a: string) {
    !IsV6(a)
  }

  function ConnectionWrites(name: string, uuid: string): seq<Write> {
    [Write("connection", "id", name), Write("connection", "uuid", uuid),
     Write("connection", "type", "wireguard"), Write("connection", "interface-name", name)]
  }

  function WireguardWrites(i: Interface): seq<Write> {
    (if i.mtu.Some? then [Write("wireguard", "mtu", Number(i.mtu.value))] else [])
    + [Write("wireguard", "private-key", i.privateKey)]
  }

  function PeerSection(p: Peer): string {
    PEER + TrimSpace(p.publicKey)
  }

  function EndpointWrites(section: string, p: Peer): seq<Write> {
    if p.endpoint != "" then [Write(section, "endpoint", p.endpoint)] else []
  }

  function PresharedWrites(section: string, p: Peer): seq<Write> {
    if p.presharedKey != "" then [Write(section, "preshared-key", p.presharedKey), Write(section, "preshared-key-flags", "0")] else []
  }

  function AllowedWrites(section: string, p: Peer): seq<Write> {
    if p.allowedIPs != [] then [Write(section, "allowed-ips", NmList(p.allowedIPs))] else []
  }

  function PeerWrites(p: Peer): seq<Write> {
    if Blank(p.publicKey) then []
    else EndpointWrites(PeerSection(p), p) + PresharedWrites(PeerSection(p), p) + AllowedWrites(PeerSection(p), p)
  }

  function PeersWrites(ps: seq<Peer>): seq<Write> {
    if ps == [] then [] else PeersWrites(ps[..|ps| - 1]) + PeerWrites(ps[|ps| - 1])
  }

  function AddressWrites(i: Interface): seq<Write> {
    var addresses := Filter(Clean(i.addresses), IsV4);
    if addresses != [] then [Write("ipv4", "method", "manual"), Write("ipv4", "address1", addresses[0])]
    else [Write("ipv4", "method", "disabled")]
  }

  function DNSWrites(i: Interface): seq<Write> {
    if i.dns != [] then [Write("ipv4", "dns", NmList(i.dns)), Write("ipv4", "dns-search", "~;")] else []
  }

  function Ipv4Writes(i: Interface): seq<Write> {
    AddressWrites(i) + DNSWrites(i)
  }

  function Ipv6Writes(i: Interface): seq<Write> {
    var addresses := Filter(Clean(i.addresses), IsV6);
    if addresses != [] then [Write("ipv6", "method", "manual"), Write("ipv6", "address1", addresses[0])]
    else [Write("ipv6", "method", "disabled"), Write("ipv6", "addr-gen-mode", "default")]
  }

  function Uuid(s: Sections, generated: string): string {
    var existing := Find(s, "connection", "uuid");
    if existing.Some? && !Blank(existing.value) then existing.value else generated
  }

  /** The order of the source: the peer sections go after [connection] and [wireguard] were written. */
  function Rebuilt(s: Sections, name: string, cfg: Config, generated: string): Sections {
    var head := AllWritten(s, ConnectionWrites(name, Uuid(s, generated)) + WireguardWrites(cfg.iface));
    AllWritten(Without(head, PEER), PeersWrites(cfg.peers) + (Ipv4Writes(cfg.iface) + Ipv6Writes(cfg.iface)))
  }

  // ----- the store

  class KeyFile {
    var sections: Sections

    constructor (sections: Sections)
      ensures this.sections == sections
    {
      this.sections := sections;
    }

    method Get(section: string, key: string) returns (value: Option<string>)
      ensures value == Find(sections, section, key)
    {
      if section !in sections || key !in sections[section] { return None; }
      return Some(sections[section][key]);
    }

    method Set(section: string, key: string, value: string)
      modifies this
      ensures sections == Written(old(sections), Write(section, key, value))
    {
      if TrimSpace(section) == "" || TrimSpace(key) == "" { return; }
      if section !in sections {
        sections := sections[section := map[]];
      }
      sections := sections[section := sections[section][key := value]];
    }

    method RemoveSectionsWithPrefix(prefix: string)
      modifies this
      ensures sections == if prefix == "" then old(sections) else Without(old(sections), prefix)
    {
      if prefix == "" { return; }
      var left := sections.Keys;
      while left != {}
        invariant left <= old(sections).Keys && sections.Keys <= old(sections).Keys
        invariant forall x <- old(sections) :: x in sections <==> x in left || !(prefix <= x)
        invariant forall x <- sections :: sections[x] == old(sections)[x]
      {
        var name :| name in left;
        if prefix <= name {
          sections := sections - {name};
        }
        left := left - {name};
      }
    }
  }

  /** Splits the addresses by family. */
  method SplitIPs(addresses: seq<string>) returns (ipv4: seq<string>, ipv6: seq<string>)
    ensures ipv4 == Filter(Clean(addresses), IsV4) && ipv6 == Filter(Clean(addresses), IsV6)
  {
    ipv4, ipv6 := [], [];
    for i := 0 to |addresses|
      invariant ipv4 == Filter(Clean(addresses[..i]), IsV4) && ipv6 == Filter(Clean(addresses[..i]), IsV6)
    {
      CleanNext(addresses, i);
      var a := TrimSpace(addresses[i]);
      if a == "" { continue; }
      FilterSnoc(Clean(addresses[..i]), a, IsV4);
      FilterSnoc(Clean(addresses[..i]), a, IsV6);
      if ':' in a {
        ipv6 := ipv6 + [a];
      } else {
        ipv4 := ipv4 + [a];
      }
    }
    assert addresses[..|addresses|] == addresses;
  }

  /** The connection file before: none, one that cannot be read, or its sections. */
  datatype Existing = Absent | Unreadable | File(sections: Sections)

  function SectionsOf(e: Existing): Sections {
    if e.File? then e.sections else map[]
  }

  lemma {:induction false} WrittenConcat(s: Sections, a: seq<Write>, b: seq<Write>)
    ensures AllWritten(s, a + b) == AllWritten(AllWritten(s, a), b)
  {
    if b == [] {
      assert a + b == a;
    } else {
      assert (a + b)[..|a + b| - 1] == a + b[..|b| - 1];
      WrittenConcat(s, a, b[..|b| - 1]);
    }
  }

  lemma WrittenSnoc(s: Sections, a: seq<Write>, w: Write)
    ensures AllWritten(s, a + [w]) == Written(AllWritten(s, a), w)
    ensures AllWritten(s, [w]) == Written(s, w)
  {
    assert (a + [w])[..|a + [w]| - 1] == a;
    assert [w][..0] == [] && AllWritten(s, [w][..0]) == s;
  }

  /** Sets one more key. `before` is what was written since the file was `base`. */
  method SetNext(kf: KeyFile, ghost base: Sections, ghost before: seq<Write>, section: string, key: string, value: string)
    returns (ghost all: seq<Write>)
    requires kf.sections == AllWritten(base, before)
    modifies kf
    ensures all == before + [Write(section, key, value)]
    ensures kf.sections == AllWritten(base, all)
  {
    kf.Set(section, key, value);
    all := before + [Write(section, key, value)];
    WrittenSnoc(base, before, Write(section, key, value));
  }

  method SetTwo(kf: KeyFile, section: string, key: string, value: string, key': string, value': string)
    modifies kf
    ensures kf.sections == AllWritten(old(kf.sections), [Write(section, key, value), Write(section, key', value')])
  {
    ghost var base := kf.sections;
    var ws := SetNext(kf, base, [], section, key, value);
    ws := SetNext(kf, base, ws, section, key', value');
    assert ws == [Write(section, key, value), Write(section, key', value')];
  }

  method SetConnection(kf: KeyFile, name: string, uuid: string)
    modifies kf
    ensures kf.sections == AllWritten(old(kf.sections), ConnectionWrites(name, uuid))
  {
    SetTwo(kf, "connection", "id", name, "uuid", uuid);
    SetTwo(kf, "connection", "type", "wireguard", "interface-name", name);
    ghost var a := [Write("connection", "id", name), Write("connection", "uuid", uuid)];
    ghost var b := [Write("connection", "type", "wireguard"), Write("connection", "interface-name", name)];
    WrittenConcat(old(kf.sections), a, b);
    assert a + b == ConnectionWrites(name, uuid);
  }

  method SetWireguard(kf: KeyFile, i: Interface)
    modifies kf
    ensures kf.sections == AllWritten(old(kf.sections), WireguardWrites(i))
  {
    ghost var base := kf.sections;
    ghost var ws := [];
    if i.mtu.Some? {
      ws := SetNext(kf, base, ws, "wireguard", "mtu", Number(i.mtu.value));
    }
    ws := SetNext(kf, base, ws, "wireguard", "private-key", i.privateKey);
    assert ws == WireguardWrites(i);
  }

  method SetEndpoint(kf: KeyFile, sec: string, p: Peer)
    modifies kf
    ensures kf.sections == AllWritten(old(kf.sections), EndpointWrites(sec, p))
  {
    if p.endpoint != "" {
      var _ := SetNext(kf, kf.sections, [], sec, "endpoint", p.endpoint);
    }
  }

  method SetPresharedKey(kf: KeyFile, sec: string, p: Peer)
    modifies kf
    ensures kf.sections == AllWritten(old(kf.sections), PresharedWrites(sec, p))
  {
    if p.presharedKey != "" {
      ghost var base := kf.sections;
      var ws := SetNext(kf, base, [], sec, "preshared-key", p.presharedKey);
      ws := SetNext(kf, base, ws, sec, "preshared-key-flags", "0");
      assert ws == PresharedWrites(sec, p);
    }
  }

  method SetAllowedIPs(kf: KeyFile, sec: string, p: Peer)
    modifies kf
    ensures kf.sections == AllWritten(old(kf.sections), AllowedWrites(sec, p))
  {
    if |p.allowedIPs| > 0 {
      var _ := SetNext(kf, kf.sections, [], sec, "allowed-ips", NmList(p.allowedIPs));
    }
  }

  method SetPeer(kf: KeyFile, p: Peer)
    modifies kf
    ensures kf.sections == AllWritten(old(kf.sections), PeerWrites(p))
  {
    var pk := TrimSpace(p.publicKey);
    if pk == "" { return; }
    var sec := PEER + pk;
    SetEndpoint(kf, sec, p);
    SetPresharedKey(kf, sec, p);
    SetAllowedIPs(kf, sec, p);
    WrittenConcat(old(kf.sections), EndpointWrites(sec, p), PresharedWrites(sec, p));
    WrittenConcat(old(kf.sections), EndpointWrites(sec, p) + PresharedWrites(sec, p), AllowedWrites(sec, p));
  }

  method SetPeers(kf: KeyFile, ps: seq<Peer>)
    modifies kf
    ensures kf.sections == AllWritten(old(kf.sections), PeersWrites(ps))
  {
    for i := 0 to |ps|
      invariant kf.sections == AllWritten(old(kf.sections), PeersWrites(ps[..i]))
    {
      assert ps[..i + 1][..i] == ps[..i];
      WrittenConcat(old(kf.sections), PeersWrites(ps[..i]), PeerWrites(ps[i]));
      SetPeer(kf, ps[i]);
    }
    assert ps[..|ps|] == ps;
  }

  method SetAddress(kf: KeyFile, i: Interface, addresses: seq<string>)
    requires addresses == Filter(Clean(i.addresses), IsV4)
    modifies kf
    ensures kf.sections == AllWritten(old(kf.sections), AddressWrites(i))
  {
    if |addresses| > 0 {
      SetTwo(kf, "ipv4", "method", "manual", "address1", addresses[0]);
    } else {
      var _ := SetNext(kf, kf.sections, [], "ipv4", "method", "disabled");
    }
  }

  method SetDNS(kf: KeyFile, i: Interface)
    modifies kf
    ensures kf.sections == AllWritten(old(kf.sections), DNSWrites(i))
  {
    if |i.dns| > 0 {
      SetTwo(kf, "ipv4", "dns", NmList(i.dns), "dns-search", "~;");
    }
  }

  method SetIpv6(kf: KeyFile, i: Interface, addresses: seq<string>)
    requires addresses == Filter(Clean(i.addresses), IsV6)
    modifies kf
    ensures kf.sections == AllWritten(old(kf.sections), Ipv6Writes(i))
  {
    if |addresses| > 0 {
      SetTwo(kf, "ipv6", "method", "manual", "address1", addresses[0]);
    } else {
      SetTwo(kf, "ipv6", "method", "disabled", "addr-gen-mode", "default");
    }
  }

  method SetHead(kf: KeyFile, name: string, uuid: string, i: Interface)
    modifies kf
    ensures kf.sections == AllWritten(old(kf.sections), ConnectionWrites(name, uuid) + WireguardWrites(i))
  {
    SetConnection(kf, name, uuid);
    SetWireguard(kf, i);
    WrittenConcat(old(kf.sections), ConnectionWrites(name, uuid), WireguardWrites(i));
  }

  method SetTail(kf: KeyFile, cfg: Config)
    modifies kf
    ensures kf.sections == AllWritten(old(kf.sections), PeersWrites(cfg.peers) + (Ipv4Writes(cfg.iface) + Ipv6Writes(cfg.iface)))
  {
    ghost var base := kf.sections;
    SetPeers(kf, cfg.peers);
    ghost var s := kf.sections;
    var ipv4, ipv6 := SplitIPs(cfg.iface.addresses);
    SetAddress(kf, cfg.iface, ipv4);
    SetDNS(kf, cfg.iface);
    WrittenConcat(s, AddressWrites(cfg.iface), DNSWrites(cfg.iface));
    SetIpv6(kf, cfg.iface, ipv6);
    WrittenConcat(s, Ipv4Writes(cfg.iface), Ipv6Writes(cfg.iface));
    WrittenConcat(base, PeersWrites(cfg.peers), Ipv4Writes(cfg.iface) + Ipv6Writes(cfg.iface));
  }

  /** Rebuilds a connection file; one that exists but cannot be read is an error. */
  method BuildNMConnection(existing: Existing, name: string, parsed: Config, generated: string) returns (r: Option<Sections>)
    ensures r == if existing.Unreadable? then None else Some(Rebuilt(SectionsOf(existing), name, parsed, generated))
  {
    if existing.Unreadable? { return None; }
    var kf := new KeyFile(SectionsOf(existing));
    var uuidVal := kf.Get("connection", "uuid");
    if uuidVal.None? || TrimSpace(uuidVal.value) == "" {
      uuidVal := Some(generated);
    }
    SetHead(kf, name, uuidVal.value, parsed.iface);
    kf.RemoveSectionsWithPrefix(PEER);
    SetTail(kf, parsed);
    return Some(kf.sections);
  }
}
