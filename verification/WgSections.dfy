/** What each section of a wg-quick file says: which lines are fields, and which line decides which value. */
module WgSections {
  import opened Text
  import opened EndpointOrder
  import opened WgQuick
  import ETag
  import Keyfile

  // ----- one line

  /** Blank lines, comments, and other lines that are neither a header nor have an equals sign. */
  lemma SkippedLine(text: string)
    requires var line := TrimSpace(text); line == "" || line[0] == '#' || line[0] == ';' || ('=' !in line && line[0] != '[')
    ensures Classify(text) == Skip
  {
    var line := TrimSpace(text);
    assert EqualsAt(line) < |line| ==> line[EqualsAt(line)] == '=';
  }

  lemma HeaderLine(text: string, name: string)
    requires TrimSpace(text) == "[" + name + "]"
    ensures Classify(text) == Header(ToLower(TrimSpace(name)))
  {
    var line := TrimSpace(text);
    assert line[0] == '[' && line[|line| - 1] == ']' && line[1..|line| - 1] == name;
  }

  /** A field ends its key at the first equals sign; its value may have more of them. */
  lemma FieldLine(text: string, left: string, right: string)
    requires TrimSpace(text) == left + "=" + right && '=' !in left
    requires left == "" || (left[0] != '#' && left[0] != ';' && left[0] != '[')
    ensures Classify(text) == Field(ToLower(TrimSpace(left)), TrimSpace(right))
  {
    var line := TrimSpace(text);
    FirstEquals(left, right);
    assert line[..|left|] == left && line[|left| + 1..] == right;
    assert line[0] == if left == "" then '=' else left[0];
  }

  lemma {:induction false} FirstEquals(left: string, right: string)
    requires '=' !in left
    ensures EqualsAt(left + "=" + right) == |left|
  {
    var s := left + "=" + right;
    if left != "" {
      assert s[0] == left[0] && s[1..] == left[1..] + "=" + right;
      FirstEquals(left[1..], right);
    }
  }

  /** Keys and section names that differ in the case of ASCII letters only are the same; lower-case ones stay. */
  lemma CaseIgnored(s: string, t: string)
    requires |s| == |t|
    requires forall i :: 0 <= i < |s| ==> s[i] == t[i] || ('A' <= s[i] <= 'Z' && t[i] as int == s[i] as int + 32)
    ensures ToLower(s) == ToLower(t)
    ensures (forall i :: 0 <= i < |t| ==> 'a' <= t[i] <= 'z') ==> ToLower(s) == t
  {
  }

  // ----- lists of items

  lemma {:induction false} CleanConcat(a: seq<string>, b: seq<string>)
    ensures Clean(a + b) == Clean(a) + Clean(b)
  {
    if b == [] {
      assert a + b == a;
    } else {
      assert a + b == (a + b[..|b| - 1]) + [b[|b| - 1]] && b == b[..|b| - 1] + [b[|b| - 1]];
      CleanConcat(a, b[..|b| - 1]);
      CleanSnoc(a + b[..|b| - 1], b[|b| - 1]);
      CleanSnoc(b[..|b| - 1], b[|b| - 1]);
    }
  }

  /** The items of a list are the trimmed parts between its commas, without the blank ones. */
  lemma ItemsByCommas(first: string, rest: string)
    requires ',' !in first
    ensures Items(first) == if Blank(first) then [] else [TrimSpace(first)]
    ensures Items(first + "," + rest) == Items(first) + Items(rest)
  {
    assert ETag.SplitCommas(first) == [first];
    assert [first] == [] + [first] && Clean([]) == [];
    CleanSnoc([], first);
    ETag.SplitFirst(first, rest);
    CleanConcat([first], ETag.SplitCommas(rest));
  }

  // ----- numbers

  predicate AllDigits(s: string) {
    forall i :: 0 <= i < |s| ==> '0' <= s[i] <= '9'
  }

  lemma {:induction false} DigitsExactly(s: string)
    ensures Digits(s).Some? <==> AllDigits(s)
  {
    if s != "" {
      DigitsExactly(s[..|s| - 1]);
      assert AllDigits(s) <==> AllDigits(s[..|s| - 1]) && '0' <= s[|s| - 1] <= '9';
    }
  }

  /** Digits are read from the most significant one on. */
  lemma NextDigit(s: string, c: char)
    requires Digits(s).Some? && '0' <= c <= '9'
    ensures Digits(s + [c]) == Some(10 * Digits(s).value + (c as int - '0' as int))
  {
    assert (s + [c])[..|s + [c]| - 1] == s;
  }

  lemma {:induction false} DecimalRead(n: nat)
    ensures Keyfile.Decimal(n) != "" && Digits(Keyfile.Decimal(n)) == Some(n)
  {
    if n >= 10 {
      DecimalRead(n / 10);
      var s := Keyfile.Decimal(n);
      assert s[..|s| - 1] == Keyfile.Decimal(n / 10);
    } else {
      var s := Keyfile.Decimal(n);
      assert s[..|s| - 1] == "";
    }
  }

  /** Every number within 64 bits is written so that it reads back. */
  lemma NumberReadsBack(n: int)
    requires -MAX_INT - 1 <= n <= MAX_INT
    ensures Atoi(Keyfile.Number(n)) == Some(n)
  {
    var digits := Keyfile.Decimal(if n < 0 then -n else n);
    DecimalRead(if n < 0 then -n else n);
    DigitsExactly(digits);
    assert digits[0] != '-' && digits[0] != '+';
    if n < 0 {
      assert Keyfile.Number(n)[1..] == digits;
    }
  }

  /** Exactly what a number looks like: an optional sign and digits, within 64 bits. */
  lemma AtoiExactly(s: string)
    ensures var signed := s != "" && (s[0] == '-' || s[0] == '+');
            var digits := if signed then s[1..] else s;
            Atoi(s).Some? <==>
              && digits != "" && AllDigits(digits)
              && Digits(digits).Some? && Digits(digits).value <= if signed && s[0] == '-' then MAX_INT + 1 else MAX_INT
  {
    DigitsExactly(if s != "" && (s[0] == '-' || s[0] == '+') then s[1..] else s);
  }

  // ----- the fields of a section

  ghost predicate NoHeaders(lines: seq<string>) {
    forall i :: 0 <= i < |lines| ==> !Classify(lines[i]).Header?
  }

  /** The value of the last field with this key, if there is one. */
  function LastValue(lines: seq<string>, key: string): Option<string> {
    if lines == [] then None
    else match Classify(lines[|lines| - 1])
      case Field(k, val) => if k == key then Some(val) else LastValue(lines[..|lines| - 1], key)
      case _ => LastValue(lines[..|lines| - 1], key)
  }

  /** The items of all fields with this key, in order. */
  function AllItems(lines: seq<string>, key: string): seq<string> {
    if lines == [] then []
    else match Classify(lines[|lines| - 1])
      case Field(k, val) => if k == key then AllItems(lines[..|lines| - 1], key) + Items(val) else AllItems(lines[..|lines| - 1], key)
      case _ => AllItems(lines[..|lines| - 1], key)
  }

  function Or<T>(value: Option<T>, otherwise: T): T {
    if value.Some? then value.value else otherwise
  }

  /** The number that the last field with this key gives, if there is one. */
  function LastNumber(lines: seq<string>, key: string, before: Option<int>): Option<int> {
    match LastValue(lines, key)
    case Some(val) => Atoi(val)
    case None => before
  }

  /** Some field with this key is not a number. */
  ghost predicate HasBadNumber(lines: seq<string>, key: string) {
    exists i :: 0 <= i < |lines| && BadNumber(lines[i], key)
  }

  predicate BadNumber(text: string, key: string) {
    Classify(text).Field? && Classify(text).key == key && Atoi(Classify(text).val).None?
  }

  /** The peer says what the fields of its section say, on top of what it said before. */
  predicate SaysPeer(p: Peer, before: Peer, lines: seq<string>) {
    && p.publicKey == Or(LastValue(lines, "publickey"), before.publicKey)
    && p.presharedKey == Or(LastValue(lines, "presharedkey"), before.presharedKey)
    && p.endpoint == Or(LastValue(lines, "endpoint"), before.endpoint)
    && p.allowedIPs == before.allowedIPs + AllItems(lines, "allowedips")
    && p.keepalive == LastNumber(lines, "persistentkeepalive", before.keepalive)
  }

  predicate SaysInterface(i: Interface, before: Interface, lines: seq<string>) {
    && i.privateKey == Or(LastValue(lines, "privatekey"), before.privateKey)
    && i.addresses == before.addresses + AllItems(lines, "address")
    && i.dns == before.dns + AllItems(lines, "dns")
    && i.mtu == LastNumber(lines, "mtu", before.mtu)
  }

  lemma HasBadSnoc(front: seq<string>, text: string, key: string)
    ensures HasBadNumber(front + [text], key) <==> HasBadNumber(front, key) || BadNumber(text, key)
  {
    var all := front + [text];
    assert all[|front|] == text && forall i :: 0 <= i < |front| ==> front[i] == all[i];
  }

  lemma ValueSnoc(front: seq<string>, text: string, key: string)
    requires Classify(text).Field?
    ensures LastValue(front + [text], key) == if Classify(text).key == key then Some(Classify(text).val) else LastValue(front, key)
    ensures AllItems(front + [text], key) == AllItems(front, key) + if Classify(text).key == key then Items(Classify(text).val) else []
  {
    assert (front + [text])[..|front + [text]| - 1] == front;
    assert AllItems(front, key) + [] == AllItems(front, key);
  }

  lemma SkipSnoc(front: seq<string>, text: string, key: string)
    requires Classify(text).Skip?
    ensures LastValue(front + [text], key) == LastValue(front, key) && AllItems(front + [text], key) == AllItems(front, key)
  {
    assert (front + [text])[..|front + [text]| - 1] == front;
  }

  /** Which field of a peer a key sets. */
  lemma PeerFieldSet(p: Peer, key: string, val: string)
    ensures var next := SetPeer(p, key, val);
            && (next.None? <==> key == "persistentkeepalive" && Atoi(val).None?)
            && (next.Some? ==>
                  next.value == Peer(
                    if key == "publickey" then val else p.publicKey,
                    if key == "presharedkey" then val else p.presharedKey,
                    if key == "endpoint" then val else p.endpoint,
                    if key == "allowedips" then p.allowedIPs + Items(val) else p.allowedIPs,
                    if key == "persistentkeepalive" then Atoi(val) else p.keepalive))
  {
  }

  lemma InterfaceFieldSet(i: Interface, key: string, val: string)
    ensures var next := SetInterface(i, key, val);
            && (next.None? <==> key == "mtu" && Atoi(val).None?)
            && (next.Some? ==>
                  next.value == Interface(
                    if key == "privatekey" then val else i.privateKey,
                    if key == "address" then i.addresses + Items(val) else i.addresses,
                    if key == "dns" then i.dns + Items(val) else i.dns,
                    if key == "mtu" then Atoi(val) else i.mtu))
  {
  }

  lemma NextPeerField(p: Peer, before: Peer, front: seq<string>, text: string)
    requires SaysPeer(p, before, front) && Classify(text).Field?
    ensures var next := SetPeer(p, Classify(text).key, Classify(text).val); next.Some? ==> SaysPeer(next.value, before, front + [text])
  {
    PeerFieldSet(p, Classify(text).key, Classify(text).val);
    ValueSnoc(front, text, "publickey");
    ValueSnoc(front, text, "presharedkey");
    ValueSnoc(front, text, "endpoint");
    ValueSnoc(front, text, "allowedips");
    ValueSnoc(front, text, "persistentkeepalive");
    Associates(before.allowedIPs, AllItems(front, "allowedips"), Items(Classify(text).val));
  }

  lemma NextInterfaceField(i: Interface, before: Interface, front: seq<string>, text: string)
    requires SaysInterface(i, before, front) && Classify(text).Field?
    ensures var next := SetInterface(i, Classify(text).key, Classify(text).val); next.Some? ==> SaysInterface(next.value, before, front + [text])
  {
    InterfaceFieldSet(i, Classify(text).key, Classify(text).val);
    ValueSnoc(front, text, "privatekey");
    ValueSnoc(front, text, "address");
    ValueSnoc(front, text, "dns");
    ValueSnoc(front, text, "mtu");
    Associates(before.addresses, AllItems(front, "address"), Items(Classify(text).val));
    Associates(before.dns, AllItems(front, "dns"), Items(Classify(text).val));
  }

  lemma Associates(a: seq<string>, b: seq<string>, d: seq<string>)
    ensures (a + b) + d == a + (b + d) && (a + b) + [] == a + b && b + [] == b
  {
  }

  lemma SkippedPeer(p: Peer, before: Peer, front: seq<string>, text: string)
    requires SaysPeer(p, before, front) && Classify(text).Skip?
    ensures SaysPeer(p, before, front + [text])
  {
    SkipSnoc(front, text, "publickey");
    SkipSnoc(front, text, "presharedkey");
    SkipSnoc(front, text, "endpoint");
    SkipSnoc(front, text, "allowedips");
    SkipSnoc(front, text, "persistentkeepalive");
  }

  lemma SkippedInterface(i: Interface, before: Interface, front: seq<string>, text: string)
    requires SaysInterface(i, before, front) && Classify(text).Skip?
    ensures SaysInterface(i, before, front + [text])
  {
    SkipSnoc(front, text, "privatekey");
    SkipSnoc(front, text, "address");
    SkipSnoc(front, text, "dns");
    SkipSnoc(front, text, "mtu");
  }

  // ----- whole sections

  /** The peers before the last stay, and the last says what these lines say on top of what it said before. */
  predicate ReadsPeer(p: Parse, q: Parse, lines: seq<string>)
    requires p.config.peers != []
  {
    var n := |p.config.peers|;
    && q.section == p.section && q.config.iface == p.config.iface && |q.config.peers| == n
    && q.config.peers[..n - 1] == p.config.peers[..n - 1]
    && SaysPeer(q.config.peers[n - 1], p.config.peers[n - 1], lines)
  }

  lemma NothingReadYet(p: Parse)
    requires p.config.peers != []
    ensures ReadsPeer(p, p, [])
  {
    Associates(p.config.peers[|p.config.peers| - 1].allowedIPs, [], []);
  }

  lemma NextPeerLine(p: Parse, q: Parse, front: seq<string>, text: string)
    requires p.config.peers != [] && p.section == "peer" && ReadsPeer(p, q, front) && !Classify(text).Header?
    ensures Step(q, text).None? <==> BadNumber(text, "persistentkeepalive")
    ensures Step(q, text).Some? ==> ReadsPeer(p, Step(q, text).value, front + [text])
  {
    var n, line := |p.config.peers|, Classify(text);
    var last := q.config.peers[n - 1];
    if line.Field? {
      PeerFieldSet(last, line.key, line.val);
      NextPeerField(last, p.config.peers[n - 1], front, text);
    } else {
      SkippedPeer(last, p.config.peers[n - 1], front, text);
    }
  }

  /** Reading these lines of a peer section fails exactly if some keepalive is no number; otherwise the last field with each
      key decides its value, and the allowed addresses of all of them add up. */
  ghost predicate PeerSectionOk(p: Parse, lines: seq<string>, r: Option<Parse>)
    requires p.config.peers != []
  {
    && (r.None? <==> HasBadNumber(lines, "persistentkeepalive"))
    && (r.Some? ==> ReadsPeer(p, r.value, lines))
  }

  lemma {:induction false} PeerSectionRead(p: Parse, lines: seq<string>)
    requires p.config.peers != [] && p.section == "peer" && NoHeaders(lines)
    ensures PeerSectionOk(p, lines, Read(p, lines))
  {
    if lines == [] {
      NothingReadYet(p);
    } else {
      var front, text := lines[..|lines| - 1], lines[|lines| - 1];
      assert !Classify(text).Header?;
      PeerSectionRead(p, front);
      PeerSectionGoesOn(p, front, text, Read(p, front));
      assert lines == front + [text];
    }
  }

  lemma PeerSectionGoesOn(p: Parse, front: seq<string>, text: string, r: Option<Parse>)
    requires p.config.peers != [] && p.section == "peer" && !Classify(text).Header? && PeerSectionOk(p, front, r)
    ensures PeerSectionOk(p, front + [text], if r.None? then None else Step(r.value, text))
  {
    HasBadSnoc(front, text, "persistentkeepalive");
    if r.Some? {
      NextPeerLine(p, r.value, front, text);
    }
  }

  /** The peers stay, and the interface says what these lines say on top of what it said before. */
  predicate ReadsInterface(p: Parse, q: Parse, lines: seq<string>) {
    q.section == p.section && q.config.peers == p.config.peers && SaysInterface(q.config.iface, p.config.iface, lines)
  }

  lemma NextInterfaceLine(p: Parse, q: Parse, front: seq<string>, text: string)
    requires p.section == "interface" && ReadsInterface(p, q, front) && !Classify(text).Header?
    ensures Step(q, text).None? <==> BadNumber(text, "mtu")
    ensures Step(q, text).Some? ==> ReadsInterface(p, Step(q, text).value, front + [text])
  {
    var line := Classify(text);
    if line.Field? {
      InterfaceFieldSet(q.config.iface, line.key, line.val);
      NextInterfaceField(q.config.iface, p.config.iface, front, text);
    } else {
      SkippedInterface(q.config.iface, p.config.iface, front, text);
    }
  }

  /** The same for the lines of an interface section. */
  ghost predicate InterfaceSectionOk(p: Parse, lines: seq<string>, r: Option<Parse>) {
    && (r.None? <==> HasBadNumber(lines, "mtu"))
    && (r.Some? ==> ReadsInterface(p, r.value, lines))
  }

  lemma {:induction false} InterfaceSectionRead(p: Parse, lines: seq<string>)
    requires p.section == "interface" && NoHeaders(lines)
    ensures InterfaceSectionOk(p, lines, Read(p, lines))
  {
    if lines == [] {
      NoInterfaceYet(p);
    } else {
      var front, text := lines[..|lines| - 1], lines[|lines| - 1];
      assert !Classify(text).Header?;
      InterfaceSectionRead(p, front);
      InterfaceSectionGoesOn(p, front, text, Read(p, front));
      assert lines == front + [text];
    }
  }

  lemma NoInterfaceYet(p: Parse)
    ensures ReadsInterface(p, p, [])
  {
    Associates(p.config.iface.addresses, [], []);
    Associates(p.config.iface.dns, [], []);
  }

  lemma InterfaceSectionGoesOn(p: Parse, front: seq<string>, text: string, r: Option<Parse>)
    requires p.section == "interface" && !Classify(text).Header? && InterfaceSectionOk(p, front, r)
    ensures InterfaceSectionOk(p, front + [text], if r.None? then None else Step(r.value, text))
  {
    HasBadSnoc(front, text, "mtu");
    if r.Some? {
      NextInterfaceLine(p, r.value, front, text);
    }
  }

  /** Other sections, and what stands before the first header, say nothing. */
  lemma {:induction false} OtherSectionRead(p: Parse, lines: seq<string>)
    requires p.section != "interface" && p.section != "peer" && NoHeaders(lines)
    ensures Read(p, lines) == Some(p)
  {
    if lines != [] {
      assert !Classify(lines[|lines| - 1]).Header?;
      OtherSectionRead(p, lines[..|lines| - 1]);
    }
  }

  lemma AfterHeader(p: Parse, header: string, section: string, lines: seq<string>)
    requires Classify(header) == Header(section)
    ensures Read(p, [header] + lines) ==
            Read(Parse(section, if section == "peer" then p.config.(peers := p.config.peers + [NO_PEER]) else p.config), lines)
  {
    ReadConcat(p, [header], lines);
    assert [header][..0] == [] && Read(p, [header][..0]) == Some(p);
  }

  /** What a file says up to a section that ends it, read section by section. A peer section adds one peer, which says
      what the section's fields say; an interface section adds to the interface; any other one changes nothing. Reading
      fails exactly if it failed before, or if a number in the section is none. */
  lemma SectionBySection(before: seq<string>, header: string, section: string, lines: seq<string>)
    requires Classify(header) == Header(section) && NoHeaders(lines)
    ensures var p, q := Read(START, before), Read(START, before + ([header] + lines));
            && (q.None? <==> p.None? || (section == "peer" && HasBadNumber(lines, "persistentkeepalive"))
                                     || (section == "interface" && HasBadNumber(lines, "mtu")))
            && (q.Some? ==>
                  var was, now := p.value.config, q.value.config;
                  if section == "peer" then
                    && now.iface == was.iface && |now.peers| == |was.peers| + 1 && now.peers[..|was.peers|] == was.peers
                    && SaysPeer(now.peers[|was.peers|], Peer("", "", "", [], None), lines)
                  else if section == "interface" then now.peers == was.peers && SaysInterface(now.iface, was.iface, lines)
                  else now == was)
  {
    ReadConcat(START, before, [header] + lines);
    if Read(START, before).Some? {
      var p := Read(START, before).value;
      AfterHeader(p, header, section, lines);
      SectionAfter(p, section, lines);
    }
  }

  lemma SectionAfter(p: Parse, section: string, lines: seq<string>)
    requires NoHeaders(lines)
    ensures var q := Read(Parse(section, if section == "peer" then p.config.(peers := p.config.peers + [NO_PEER]) else p.config), lines);
            && (q.None? <==> (section == "peer" && HasBadNumber(lines, "persistentkeepalive")) || (section == "interface" && HasBadNumber(lines, "mtu")))
            && (q.Some? ==>
                  var was, now := p.config, q.value.config;
                  if section == "peer" then
                    && now.iface == was.iface && |now.peers| == |was.peers| + 1 && now.peers[..|was.peers|] == was.peers
                    && SaysPeer(now.peers[|was.peers|], NO_PEER, lines)
                  else if section == "interface" then now.peers == was.peers && SaysInterface(now.iface, was.iface, lines)
                  else now == was)
  {
    if section == "peer" {
      var more := p.config.peers + [NO_PEER];
      assert more[..|p.config.peers|] == p.config.peers;
      PeerSectionRead(Parse(section, p.config.(peers := more)), lines);
    } else if section == "interface" {
      InterfaceSectionRead(Parse(section, p.config), lines);
    } else {
      OtherSectionRead(Parse(section, p.config), lines);
    }
  }
}
