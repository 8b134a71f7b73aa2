/** The wg-quick reader: sections of `key = value` lines, with a pointer to the peer being filled in. */
module WgQuick {
  import opened Text
  import opened EndpointOrder
  import ETag

  datatype Interface = Interface(privateKey: string, addresses: seq<string>, dns: seq<string>, mtu: Option<int>)

  datatype Peer = Peer(publicKey: string, presharedKey: string, endpoint: string, allowedIPs: seq<string>, keepalive: Option<int>)

  datatype Config = Config(iface: Interface, peers: seq<Peer>)

  const NO_INTERFACE := Interface("", [], [], None)
  const NO_PEER := Peer("", "", "", [], None)

  // ----- one line

  datatype Line = Skip | Header(section: string) | Field(key: string, val: string)

  /** Lower case as far as it matters here: two letters outside ASCII have a lower case inside it. */
  function LowerChar(c: char): char {
    if 'A' <= c <= 'Z' then ((c as int) + 32) as char
    else if c == '\U{130}' then 'i'
    else if c == '\U{212A}' then 'k'
    else c
  }

  function ToLower(s: string): string {
    seq(|s|, i requires 0 <= i < |s| => LowerChar(s[i]))
  }

  /** Where the first equals sign is, or the length if there is none. */
  function EqualsAt(s: string): (n: nat)
    ensures n <= |s| && '=' !in s[..n]
    ensures n < |s| ==> s[n] == '='
  {
    if s == "" || s[0] == '=' then 0
    else
      assert s[..1 + EqualsAt(s[1..])] == [s[0]] + s[1..][..EqualsAt(s[1..])];
      1 + EqualsAt(s[1..])
  }

  function Classify(text: string): Line {
    var line := TrimSpace(text);
    if line == "" || line[0] == '#' || line[0] == ';' then Skip
    else if line[0] == '[' && line[|line| - 1] == ']' then
      Header(ToLower(TrimSpace(line[1..|line| - 1])))
    else if EqualsAt(line) == |line| then Skip
    else Field(ToLower(TrimSpace(line[..EqualsAt(line)])), TrimSpace(line[EqualsAt(line) + 1..]))
  }

  function Items(val: string): seq<string> {
    Clean(ETag.SplitCommas(val))
  }

  // ----- numbers

  const MAX_INT := 0x7FFF_FFFF_FFFF_FFFF

  function Digits(s: string): Option<nat> {
    if s == "" then Some(0)
    else
      var front, c := Digits(s[..|s| - 1]), s[|s| - 1];
      if front.Some? && '0' <= c <= '9' then Some(10 * front.value + (c as int - '0' as int)) else None
  }

  function Atoi(s: string): Option<int> {
    var negative := s != "" && s[0] == '-';
    var digits := if s != "" && (s[0] == '-' || s[0] == '+') then s[1..] else s;
    if digits == "" || Digits(digits).None? then None
    else
      var value: int := Digits(digits).value;
      var n := if negative then -value else value;
      if -MAX_INT - 1 <= n <= MAX_INT then Some(n) else None
  }

  // ----- specification

  function SetInterface(i: Interface, key: string, val: string): Option<Interface> {
    if key == "privatekey" then Some(i.(privateKey := val))
    else if key == "address" then Some(i.(addresses := i.addresses + Items(val)))
    else if key == "dns" then Some(i.(dns := i.dns + Items(val)))
    else if key == "mtu" then (if Atoi(val).None? then None else Some(i.(mtu := Atoi(val))))
    else Some(i)
  }

  function SetPeer(p: Peer, key: string, val: string): Option<Peer> {
    if key == "publickey" then Some(p.(publicKey := val))
    else if key == "presharedkey" then Some(p.(presharedKey := val))
    else if key == "endpoint" then Some(p.(endpoint := val))
    else if key == "allowedips" then Some(p.(allowedIPs := p.allowedIPs + Items(val)))
    else if key == "persistentkeepalive" then (if Atoi(val).None? then None else Some(p.(keepalive := Atoi(val))))
    else Some(p)
  }

  /** What has been read: a peer section is always the last peer's. */
  datatype Parse = Parse(section: string, config: Config)

  const START := Parse("", Config(NO_INTERFACE, []))

  ghost predicate WellFormed(p: Parse) {
    p.section == "peer" ==> p.config.peers != []
  }

  function WithLast(peers: seq<Peer>, peer: Peer): seq<Peer>
    requires peers != []
  {
    peers[..|peers| - 1] + [peer]
  }

  function StepField(p: Parse, key: string, val: string): Option<Parse> {
    if p.section == "interface" then
      match SetInterface(p.config.iface, key, val)
      case None => None
      case Some(i) => Some(p.(config := p.config.(iface := i)))
    else if p.section == "peer" && p.config.peers != [] then
      match SetPeer(p.config.peers[|p.config.peers| - 1], key, val)
      case None => None
      case Some(peer) => Some(p.(config := p.config.(peers := WithLast(p.config.peers, peer))))
    else Some(p)
  }

  function StepLine(p: Parse, line: Line): Option<Parse> {
    match line
    case Skip => Some(p)
    case Header(section) =>
      Some(Parse(section, if section == "peer" then p.config.(peers := p.config.peers + [NO_PEER]) else p.config))
    case Field(key, val) => StepField(p, key, val)
  }

  function Step(p: Parse, text: string): Option<Parse> {
    StepLine(p, Classify(text))
  }

  function Read(p: Parse, lines: seq<string>): Option<Parse> {
    if lines == [] then Some(p)
    else match Read(p, lines[..|lines| - 1])
      case None => None
      case Some(before) => Step(before, lines[|lines| - 1])
  }

  // ----- what reading promises

  lemma {:induction false} ReadConcat(p: Parse, a: seq<string>, b: seq<string>)
    ensures Read(p, a + b) == var mid := Read(p, a); if mid.Some? then Read(mid.value, b) else None
  {
    if b == [] {
      assert a + b == a;
    } else {
      assert (a + b)[..|a + b| - 1] == a + b[..|b| - 1];
      ReadConcat(p, a, b[..|b| - 1]);
    }
  }

  function PeerHeaders(lines: seq<string>): nat {
    if lines == [] then 0
    else PeerHeaders(lines[..|lines| - 1]) + if Classify(lines[|lines| - 1]) == Header("peer") then 1 else 0
  }

  /** On success there is one peer for every peer header. */
  lemma {:induction false} OnePeerPerHeader(p: Parse, lines: seq<string>)
    requires WellFormed(p) && Read(p, lines).Some?
    ensures WellFormed(Read(p, lines).value)
    ensures |Read(p, lines).value.config.peers| == |p.config.peers| + PeerHeaders(lines)
  {
    if lines != [] {
      OnePeerPerHeader(p, lines[..|lines| - 1]);
      StepCounts(Read(p, lines[..|lines| - 1]).value, Classify(lines[|lines| - 1]));
    }
  }

  lemma StepCounts(p: Parse, line: Line)
    requires WellFormed(p) && StepLine(p, line).Some?
    ensures WellFormed(StepLine(p, line).value)
    ensures |StepLine(p, line).value.config.peers| == |p.config.peers| + if line == Header("peer") then 1 else 0
  {
  }

  function WithPeersBefore(peers: seq<Peer>, p: Option<Parse>): Option<Parse> {
    match p
    case None => None
    case Some(p) => Some(p.(config := p.config.(peers := peers + p.config.peers)))
  }

  /** From a header on, the peers read before are left alone, and matter to nothing that follows. */
  lemma {:induction false} EarlierPeersStay(p: Parse, lines: seq<string>)
    requires lines != [] && Classify(lines[0]).Header?
    ensures Read(p, lines) == WithPeersBefore(p.config.peers, Read(Parse("", Config(p.config.iface, [])), lines))
  {
    var rest := Parse("", Config(p.config.iface, []));
    if |lines| == 1 {
      assert lines[..0] == [];
      assert Read(p, lines[..0]) == Some(p) && Read(rest, lines[..0]) == Some(rest);
      assert p.config.peers + [] == p.config.peers && p.config.peers + ([] + [NO_PEER]) == p.config.peers + [NO_PEER];
    } else {
      var front := lines[..|lines| - 1];
      EarlierPeersStay(p, front);
      if Read(rest, front).Some? {
        StartWellFormed(rest, front);
        StepAfterPeers(p.config.peers, Read(rest, front).value, lines[|lines| - 1]);
      }
    }
  }

  lemma StartWellFormed(p: Parse, lines: seq<string>)
    requires p.section == "" && Read(p, lines).Some?
    ensures WellFormed(Read(p, lines).value)
  {
    OnePeerPerHeader(p, lines);
  }

  lemma StepAfterPeers(peers: seq<Peer>, p: Parse, text: string)
    requires WellFormed(p)
    ensures Step(WithPeersBefore(peers, Some(p)).value, text) == WithPeersBefore(peers, Step(p, text))
  {
    var line := Classify(text);
    assert peers + p.config.peers + [NO_PEER] == peers + (p.config.peers + [NO_PEER]);
    if line.Field? && p.section == "peer" {
      FieldAfterPeers(peers, p, line.key, line.val);
    }
  }

  lemma FieldAfterPeers(peers: seq<Peer>, p: Parse, key: string, val: string)
    requires p.section == "peer" && p.config.peers != []
    ensures StepField(WithPeersBefore(peers, Some(p)).value, key, val) == WithPeersBefore(peers, StepField(p, key, val))
  {
    var last := p.config.peers[|p.config.peers| - 1];
    assert (peers + p.config.peers)[|peers + p.config.peers| - 1] == last;
    var peer := SetPeer(last, key, val);
    if peer.Some? {
      LastOfConcat(peers, p.config.peers, peer.value);
    }
  }

  lemma LastOfConcat(a: seq<Peer>, b: seq<Peer>, peer: Peer)
    requires b != []
    ensures WithLast(a + b, peer) == a + WithLast(b, peer)
  {
    assert (a + b)[..|a + b| - 1] == a + b[..|b| - 1];
  }

  const INTERFACE_VALUES := {"privatekey", "mtu"}
  const PEER_VALUES := {"publickey", "presharedkey", "endpoint", "persistentkeepalive"}
  const LISTS := {"address", "dns", "allowedips"}

  /** Blank lines, comments, lines without an equals sign, unknown keys, and list keys with no items. */
  predicate NeutralLine(line: Line) {
    match line
    case Skip => true
    case Header(_) => false
    case Field(key, val) => key !in INTERFACE_VALUES && key !in PEER_VALUES && (key in LISTS ==> Items(val) == [])
  }

  predicate Neutral(text: string) {
    NeutralLine(Classify(text))
  }

  ghost predicate ChangesNothing(text: string) {
    forall p: Parse :: Step(p, text) == Some(p)
  }

  /** Exactly which lines can be put anywhere without changing what is read. */
  lemma NeutralExactly(text: string)
    ensures ChangesNothing(text) <==> Neutral(text)
  {
    if Neutral(text) {
      forall p: Parse ensures Step(p, text) == Some(p) {
        NeutralStep(p, Classify(text));
      }
    } else {
      SomethingChanges(Classify(text));
    }
  }

  lemma NeutralStep(p: Parse, line: Line)
    requires NeutralLine(line)
    ensures StepLine(p, line) == Some(p)
  {
    var peers := p.config.peers;
    if line.Field? {
      InterfaceKept(p.config.iface, line.key, line.val);
      if peers != [] {
        PeerKept(peers[|peers| - 1], line.key, line.val);
        assert peers[..|peers| - 1] + [peers[|peers| - 1]] == peers;
      }
    }
  }

  lemma InterfaceKept(i: Interface, key: string, val: string)
    requires key !in INTERFACE_VALUES && (key in LISTS ==> Items(val) == [])
    ensures SetInterface(i, key, val) == Some(i)
  {
    assert i.addresses + [] == i.addresses && i.dns + [] == i.dns;
  }

  lemma PeerKept(p: Peer, key: string, val: string)
    requires key !in PEER_VALUES && (key in LISTS ==> Items(val) == [])
    ensures SetPeer(p, key, val) == Some(p)
  {
    assert p.allowedIPs + [] == p.allowedIPs;
  }

  lemma SomethingChanges(line: Line)
    requires !NeutralLine(line)
    ensures exists p: Parse :: StepLine(p, line) != Some(p)
  {
    match line
    case Header(section) =>
      var p := Parse(section + "x", Config(NO_INTERFACE, []));
      assert StepLine(p, line).value.section == section;
      assert |section| != |p.section|;
      assert StepLine(p, line) != Some(p);
    case Field(key, val) =>
      if key in INTERFACE_VALUES || (key in {"address", "dns"} && Items(val) != []) {
        InterfaceFieldChanges(key, val);
      } else {
        PeerFieldChanges(key, val);
      }
  }

  lemma InterfaceFieldChanges(key: string, val: string)
    requires key in INTERFACE_VALUES || (key in {"address", "dns"} && Items(val) != [])
    ensures exists p: Parse :: StepLine(p, Field(key, val)) != Some(p)
  {
    var i := Interface(val + "x", [], [], None);
    InterfaceChanges(i, key, val);
    var p := Parse("interface", Config(i, []));
    assert StepLine(p, Field(key, val)) != Some(p);
  }

  lemma PeerFieldChanges(key: string, val: string)
    requires key in PEER_VALUES || (key == "allowedips" && Items(val) != [])
    ensures exists p: Parse :: StepLine(p, Field(key, val)) != Some(p)
  {
    var peer := Peer(val + "x", val + "x", val + "x", [], None);
    PeerChanges(peer, key, val);
    OnlyPeerChanges(peer, key, val);
    var p := Parse("peer", Config(NO_INTERFACE, [peer]));
    assert StepLine(p, Field(key, val)) != Some(p);
  }

  lemma OnlyPeerChanges(peer: Peer, key: string, val: string)
    requires SetPeer(peer, key, val) != Some(peer)
    ensures var p := Parse("peer", Config(NO_INTERFACE, [peer])); StepField(p, key, val) != Some(p)
  {
    var changed := SetPeer(peer, key, val);
    assert [peer][..0] == [] && [peer][0] == peer;
    assert changed.Some? ==> WithLast([peer], changed.value)[0] == changed.value;
  }

  lemma InterfaceChanges(i: Interface, key: string, val: string)
    requires i.privateKey != val && i.mtu == None && i.addresses == [] && i.dns == []
    requires key in INTERFACE_VALUES || (key in {"address", "dns"} && Items(val) != [])
    ensures SetInterface(i, key, val) != Some(i)
  {
  }

  lemma PeerChanges(p: Peer, key: string, val: string)
    requires p.publicKey != val && p.presharedKey != val && p.endpoint != val && p.allowedIPs == [] && p.keepalive == None
    requires key in PEER_VALUES || (key == "allowedips" && Items(val) != [])
    ensures SetPeer(p, key, val) != Some(p)
  {
  }

  /** Inserting such a line anywhere leaves the result, good or bad, as it was. */
  lemma InsertedAnywhere(a: seq<string>, text: string, b: seq<string>)
    requires Neutral(text)
    ensures Read(START, a + [text] + b) == Read(START, a + b)
  {
    ReadConcat(START, a + [text], b);
    ReadConcat(START, a, [text]);
    ReadConcat(START, a, b);
    if Read(START, a).Some? {
      var mid := Read(START, a).value;
      NeutralStep(mid, Classify(text));
      assert [text][..0] == [];
      assert Read(mid, [text][..0]) == Some(mid);
    }
  }

  // ----- implementation

  /** A pointer to an element of a backing array. */
  datatype Pointer = Nil | To(buf: array<Peer>, at: nat)

  /** Appends to the slice `buf[..n]`: in place while there is room, otherwise in a new backing array. */
  method Append(buf: array<Peer>, n: nat, peer: Peer) returns (buf': array<Peer>)
    requires n <= buf.Length
    modifies buf
    ensures n < buf'.Length && (buf' == buf || fresh(buf'))
    ensures buf'[..n + 1] == old(buf[..n]) + [peer]
  {
    buf' := buf;
    if n == buf.Length {
      buf' := new Peer[2 * n + 1](_ => NO_PEER);
      for i := 0 to n
        invariant buf'[..i] == buf[..i]
        invariant buf[..n] == old(buf[..n])
      {
        buf'[i] := buf[i];
      }
    }
    buf'[n] := peer;
  }

  /** Sets a field of the peer pointed to, and nothing else in its array. */
  method SetField(p: Pointer, key: string, val: string) returns (ok: bool)
    requires p.To? && p.at < p.buf.Length
    modifies if p.To? then {p.buf} else {}
    ensures ok == SetPeer(old(p.buf[p.at]), key, val).Some?
    ensures ok ==> p.buf[..p.at + 1] == WithLast(old(p.buf[..p.at + 1]), SetPeer(old(p.buf[p.at]), key, val).value)
  {
    var changed := SetPeer(p.buf[p.at], key, val);
    if changed.None? { return false; }
    p.buf[p.at] := changed.value;
    return true;
  }

  /** The next line, and what reading up to it makes of the lines so far. */
  method ScanLine(lines: seq<string>, i: nat) returns (line: Line)
    requires i < |lines|
    ensures Read(START, lines[..i + 1]) == var before := Read(START, lines[..i]); if before.Some? then StepLine(before.value, line) else None
  {
    line := Classify(lines[i]);
    assert lines[..i + 1][..i] == lines[..i];
  }

  method ReadConfig(lines: seq<string>) returns (r: Option<Config>)
    ensures r == var p := Read(START, lines); if p.Some? then Some(p.value.config) else None
  {
    var iface, section := NO_INTERFACE, "";
    var peers, n := new Peer[0], 0;
    var currentPeer := Nil;
    for i := 0 to |lines|
      invariant n <= peers.Length && fresh(peers)
      invariant Read(START, lines[..i]) == Some(Parse(section, Config(iface, peers[..n])))
      invariant currentPeer.To? <==> section == "peer"
      invariant currentPeer.To? ==> n > 0 && currentPeer == To(peers, n - 1)
    {
      var line := ScanLine(lines, i);
      match line
      case Skip =>
      case Header(name) =>
        section := name;
        if section == "peer" {
          peers := Append(peers, n, NO_PEER);
          n := n + 1;
          currentPeer := To(peers, n - 1);
        } else {
          currentPeer := Nil;
        }
      case Field(key, val) =>
        if section == "interface" {
          var changed := SetInterface(iface, key, val);
          if changed.None? { ReadStops(lines, i); return None; }
          iface := changed.value;
        } else if section == "peer" && currentPeer.To? {
          var ok := SetField(currentPeer, key, val);
          if !ok { ReadStops(lines, i); return None; }
        }
    }
    assert lines[..|lines|] == lines;
    r := Some(Config(iface, peers[..n]));
  }

  /** A line that cannot be read spoils the rest. */
  lemma ReadStops(lines: seq<string>, i: nat)
    requires i < |lines| && Read(START, lines[..i + 1]).None?
    ensures Read(START, lines).None?
  {
    assert lines == lines[..i + 1] + lines[i + 1..];
    ReadConcat(START, lines[..i + 1], lines[i + 1..]);
  }
}
