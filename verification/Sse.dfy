/** The event stream on the wire: frames the server writes and the client's line reader. */
module Sse {
  import opened Text

  // ----- specification of the reader

  /** Where the first line ends, or the length if it does not. */
  function LineEnd(s: string): (n: nat)
    ensures n <= |s| && '\n' !in s[..n]
    ensures n < |s| ==> s[n] == '\n'
  {
    if s == "" || s[0] == '\n' then 0
    else
      assert s[..1 + LineEnd(s[1..])] == [s[0]] + s[1..][..LineEnd(s[1..])];
      1 + LineEnd(s[1..])
  }

  /** The complete lines of a stream, without their newlines; an unfinished last line is not one. */
  function Lines(s: string): seq<string> {
    if LineEnd(s) == |s| then [] else [s[..LineEnd(s)]] + Lines(s[LineEnd(s) + 1..])
  }

  predicate IsLineBreak(c: char) {
    c == '\r' || c == '\n'
  }

  /** Strips carriage returns and newlines from the end. */
  function StripEnd(s: string): (t: string)
    ensures t <= s
    ensures t == s <==> s == "" || !IsLineBreak(s[|s| - 1])
  {
    if s != "" && IsLineBreak(s[|s| - 1]) then StripEnd(s[..|s| - 1]) else s
  }

  /** The fields of the event being read. */
  datatype Partial = Partial(event: string, data: string)

  const FRESH := Partial("", "")

  function Consume(p: Partial, line: string): Partial {
    if "event: " <= line then p.(event := TrimSpace(line[7..]))
    else if "data: " <= line then p.(data := line[6..])
    else p
  }

  /** At a blank line: is this a feed event with data? */
  predicate Delivers(p: Partial) {
    p.event == "feed" && p.data != ""
  }

  function EventsOf(lines: seq<string>, p: Partial): seq<string> {
    if lines == [] then []
    else if StripEnd(lines[0]) == "" then
      if Delivers(p) then [p.data] + EventsOf(lines[1..], FRESH) else EventsOf(lines[1..], FRESH)
    else EventsOf(lines[1..], Consume(p, StripEnd(lines[0])))
  }

  /** The payloads a client receives from a byte stream. */
  function Events(s: string): seq<string> {
    EventsOf(Lines(s), FRESH)
  }

  // ----- specification of the writer

  datatype Item = Feed(payload: string) | Ping

  function Kind(item: Item): string {
    if item.Feed? then "feed" else "ping"
  }

  function Body(item: Item): string {
    if item.Feed? then item.payload else "{}"
  }

  function Frame(item: Item): string {
    "event: " + Kind(item) + "\n" + "data: " + Body(item) + "\n" + "\n"
  }

  function Stream(items: seq<Item>): string {
    if items == [] then "" else Frame(items[0]) + Stream(items[1..])
  }

  function Payloads(items: seq<Item>): seq<string> {
    if items == [] then []
    else if items[0].Feed? then [items[0].payload] + Payloads(items[1..])
    else Payloads(items[1..])
  }

  /** Payloads as the reader sees them: stripped at the end, and gone if nothing is left. */
  function Received(payloads: seq<string>): seq<string> {
    if payloads == [] then []
    else if StripEnd(payloads[0]) != "" then [StripEnd(payloads[0])] + Received(payloads[1..])
    else Received(payloads[1..])
  }

  ghost predicate OneLiners(items: seq<Item>) {
    forall i :: 0 <= i < |items| && items[i].Feed? ==> '\n' !in items[i].payload
  }

  // ----- what crosses the wire

  lemma OneLine(line: string, rest: string)
    requires '\n' !in line
    ensures Lines(line + "\n" + rest) == [line] + Lines(rest)
  {
    var s := line + "\n" + rest;
    assert s[..|line|] == line && s[|line| + 1..] == rest;
    LineEndIs(s, |line|);
  }

  lemma {:induction false} LineEndIs(s: string, n: nat)
    requires n <= |s| && '\n' !in s[..n] && (n == |s| || s[n] == '\n')
    ensures LineEnd(s) == n
  {
    if n > 0 {
      assert s[0] == s[..n][0];
      assert s[1..][..n - 1] == s[..n][1..];
      LineEndIs(s[1..], n - 1);
    }
  }

  lemma {:induction false} StripEndAfter(head: string, s: string)
    requires head != "" && !IsLineBreak(head[|head| - 1])
    ensures StripEnd(head + s) == head + StripEnd(s)
  {
    if s == "" {
      assert head + s == head;
    } else if IsLineBreak(s[|s| - 1]) {
      assert (head + s)[..|head + s| - 1] == head + s[..|s| - 1];
      StripEndAfter(head, s[..|s| - 1]);
    }
  }

  lemma LinesOfFrame(event: string, kind: string, data: string, body: string, newline: string, rest: string)
    ensures (event + kind + newline + data + body + newline + newline) + rest ==
            (event + kind) + newline + ((data + body) + newline + ("" + newline + rest))
  {
  }

  lemma KindIsTrimmed(item: Item)
    ensures var kind := Kind(item); kind != "" && !IsLineBreak(kind[|kind| - 1]) && TrimSpace(kind) == kind
  {
    assert Trimmed(Kind(item));
  }

  /** A frame is three lines, and leaves the reader ready for the next one. */
  lemma FrameIsRead(item: Item, rest: string)
    requires item.Feed? ==> '\n' !in item.payload
    ensures var p := Partial(Kind(item), StripEnd(Body(item)));
            Events(Frame(item) + rest) == if Delivers(p) then [p.data] + Events(rest) else Events(rest)
  {
    FrameLines("event: " + Kind(item), "data: " + Body(item), rest);
    LinesOfFrame("event: ", Kind(item), "data: ", Body(item), "\n", rest);
    KindIsTrimmed(item);
    ThreeLines(Kind(item), Body(item), Lines(rest));
  }

  lemma FrameLines(first: string, second: string, rest: string)
    requires '\n' !in first && '\n' !in second
    ensures Lines(first + "\n" + (second + "\n" + ("" + "\n" + rest))) == [first] + ([second] + ([""] + Lines(rest)))
  {
    OneLine(first, second + "\n" + ("" + "\n" + rest));
    OneLine(second, "" + "\n" + rest);
    OneLine("", rest);
  }

  /** An event line, a data line and a blank line deliver the data stripped at its end, if the event type is "feed" once
      trimmed and there is data left; either way the reader is ready for the next event. */
  lemma ThreeLines(kind: string, payload: string, tail: seq<string>)
    requires kind == "" || !IsLineBreak(kind[|kind| - 1])
    ensures EventsOf(["event: " + kind] + (["data: " + payload] + ([""] + tail)), FRESH) ==
            if TrimSpace(kind) == "feed" && StripEnd(payload) != "" then [StripEnd(payload)] + EventsOf(tail, FRESH)
            else EventsOf(tail, FRESH)
  {
    var l1, l2 := "event: " + kind, "data: " + payload;
    var p1, p2 := Partial(TrimSpace(kind), ""), Partial(TrimSpace(kind), StripEnd(payload));
    StripEndAfter("event: ", kind);
    assert StripEnd(l1) == l1 && l1[7..] == kind;
    assert Consume(FRESH, l1) == p1;
    StripEndAfter("data: ", payload);
    var d := StripEnd(l2);
    assert d == "data: " + StripEnd(payload) && d[0] == 'd' && d[6..] == StripEnd(payload);
    assert Consume(p1, d) == p2;
    var after := [""] + tail;
    assert after[1..] == tail && StripEnd(after[0]) == "";
    assert ([l2] + after)[1..] == after && EventsOf([l2] + after, p1) == EventsOf(after, p2);
    assert ([l1] + ([l2] + after))[1..] == [l2] + after;
  }

  /** The client receives every one-line payload, pings anywhere notwithstanding, stripped at its end. */
  lemma {:induction false} StreamIsReceived(items: seq<Item>)
    requires OneLiners(items)
    ensures Events(Stream(items)) == Received(Payloads(items))
  {
    if items != [] {
      StreamIsReceived(items[1..]);
      FrameIsRead(items[0], Stream(items[1..]));
      if items[0].Feed? {
        assert Payloads(items)[1..] == Payloads(items[1..]);
      }
    }
  }

  /** The payload has something to deliver and nothing the reader strips. */
  predicate Intact(payload: string) {
    payload != "" && payload[|payload| - 1] != '\r'
  }

  lemma {:induction false} ReceivedIntact(items: seq<Item>)
    requires OneLiners(items)
    ensures |Received(Payloads(items))| <= |Payloads(items)|
    ensures Received(Payloads(items)) == Payloads(items) <==>
            forall i :: 0 <= i < |items| && items[i].Feed? ==> Intact(items[i].payload)
  {
    if items != [] {
      var all, rest := Payloads(items), Payloads(items[1..]);
      ReceivedIntact(items[1..]);
      assert (forall i :: 0 <= i < |items| && items[i].Feed? ==> Intact(items[i].payload)) <==>
             (items[0].Feed? ==> Intact(items[0].payload)) &&
             (forall i :: 0 <= i < |items[1..]| && items[1..][i].Feed? ==> Intact(items[1..][i].payload)) by {
        assert forall i :: 0 < i < |items| ==> items[i] == items[1..][i - 1];
      }
      if items[0].Feed? {
        OneReceived(items[0].payload, rest);
        assert all == [items[0].payload] + rest;
      }
    }
  }

  lemma OneReceived(payload: string, rest: seq<string>)
    requires '\n' !in payload && |Received(rest)| <= |rest|
    ensures |Received([payload] + rest)| <= 1 + |rest|
    ensures Received([payload] + rest) == [payload] + rest <==> Intact(payload) && Received(rest) == rest
  {
    var all := [payload] + rest;
    assert all[1..] == rest;
    if StripEnd(payload) != "" {
      assert Received(all)[0] == StripEnd(payload) && Received(all)[1..] == Received(rest);
    }
  }

  /** The round trip is exact if and only if no payload is empty and none ends in a carriage return. */
  lemma RoundTripExactly(items: seq<Item>)
    requires OneLiners(items)
    ensures Events(Stream(items)) == Payloads(items) <==>
            forall i :: 0 <= i < |items| && items[i].Feed? ==> Intact(items[i].payload)
  {
    StreamIsReceived(items);
    ReceivedIntact(items);
  }

  // ----- other lines

  /** A line with something on it that is neither an event nor a data line. */
  predicate IsOther(line: string) {
    var text := StripEnd(line);
    text != "" && !("event: " <= text) && !("data: " <= text)
  }

  /** Inserting such a line anywhere, between events or inside one, changes nothing. */
  lemma {:induction false} OtherLinesIgnored(before: seq<string>, line: string, after: seq<string>, p: Partial)
    requires IsOther(line)
    ensures EventsOf(before + [line] + after, p) == EventsOf(before + after, p)
    decreases |before|
  {
    var all, rest := before + [line] + after, before + after;
    if before == [] {
      assert all[0] == line && all[1..] == after && rest == after;
    } else {
      assert all[0] == before[0] && all[1..] == before[1..] + [line] + after;
      assert rest[0] == before[0] && rest[1..] == before[1..] + after;
      var text := StripEnd(before[0]);
      OtherLinesIgnored(before[1..], line, after, if text == "" then FRESH else Consume(p, text));
    }
  }

  /** Of several data lines before the blank one the last counts. */
  lemma LastDataCounts(first: string, second: string, tail: seq<string>, p: Partial)
    ensures EventsOf(["data: " + first] + (["data: " + second] + tail), p) == EventsOf(["data: " + second] + tail, p)
  {
    var l1, l2 := "data: " + first, "data: " + second;
    StripEndAfter("data: ", first);
    StripEndAfter("data: ", second);
    var d1, d2 := StripEnd(l1), StripEnd(l2);
    assert d1[0] == 'd' && d2[0] == 'd';
    assert Consume(Consume(p, d1), d2) == Consume(p, d2);
    assert ([l1] + ([l2] + tail))[1..] == [l2] + tail && ([l2] + tail)[1..] == tail;
  }

  function WithReturns(lines: seq<string>): seq<string> {
    if lines == [] then [] else [lines[0] + "\r"] + WithReturns(lines[1..])
  }

  /** Lines that end in a carriage return as well are read the same. */
  lemma {:induction false} ReturnsIgnored(lines: seq<string>, p: Partial)
    ensures EventsOf(WithReturns(lines), p) == EventsOf(lines, p)
    decreases |lines|
  {
    if lines != [] {
      var line := lines[0] + "\r";
      assert line[..|line| - 1] == lines[0] && StripEnd(line) == StripEnd(lines[0]);
      assert WithReturns(lines)[1..] == WithReturns(lines[1..]);
      var text := StripEnd(lines[0]);
      ReturnsIgnored(lines[1..], if text == "" then FRESH else Consume(p, text));
    }
  }

  // ----- streams cut short

  lemma FirstLineOf(s: string, more: string, n: nat)
    requires n < |s| && s[n] == '\n'
    ensures s + more == s[..n] + "\n" + (s[n + 1..] + more)
  {
    assert s == s[..n] + "\n" + s[n + 1..];
  }

  lemma {:induction false} LinesGrow(s: string, more: string)
    ensures Lines(s) <= Lines(s + more)
    decreases |s|
  {
    var n := LineEnd(s);
    if n < |s| {
      var rest := s[n + 1..];
      FirstLineOf(s, more, n);
      OneLine(s[..n], rest + more);
      LinesGrow(rest, more);
    }
  }

  lemma {:induction false} EventsGrow(lines: seq<string>, more: seq<string>, p: Partial)
    ensures EventsOf(lines, p) <= EventsOf(lines + more, p)
    decreases |lines|
  {
    if lines != [] {
      var t := StripEnd(lines[0]);
      assert (lines + more)[1..] == lines[1..] + more && (lines + more)[0] == lines[0];
      EventsGrow(lines[1..], more, if t == "" then FRESH else Consume(p, t));
    }
  }

  /** Wherever a stream is cut, the client has received a prefix of its events and nothing else. */
  lemma CutStreamGivesPrefix(s: string, n: nat)
    requires n <= |s|
    ensures Events(s[..n]) <= Events(s)
  {
    assert s == s[..n] + s[n..];
    LinesGrow(s[..n], s[n..]);
    var k := |Lines(s[..n])|;
    assert Lines(s) == Lines(s[..n]) + Lines(s)[k..];
    EventsGrow(Lines(s[..n]), Lines(s)[k..], FRESH);
  }

  // ----- implementation

  /** The line from `pos` that ends after `n` characters, or does not end. */
  lemma NextLine(input: string, pos: nat, n: nat)
    requires pos + n <= |input|
    requires forall i :: pos <= i < pos + n ==> input[i] != '\n'
    requires pos + n < |input| ==> input[pos + n] == '\n'
    ensures pos + n == |input| ==> Lines(input[pos..]) == [] && Lines(input[|input|..]) == []
    ensures pos + n < |input| ==>
              var line := input[pos..pos + n + 1];
              line[|line| - 1] == '\n' && Lines(input[pos..]) == [line[..|line| - 1]] + Lines(input[pos + n + 1..])
  {
    var rest := input[pos..];
    assert forall i :: 0 <= i < n ==> rest[i] == input[pos + i];
    LineEndIs(rest, n);
    if pos + n < |input| {
      assert rest[..n] == input[pos..pos + n + 1][..n] && rest[n + 1..] == input[pos + n + 1..];
    }
  }

  /** A buffered reader over a response body. */
  class BodyReader {
    const input: string
    var pos: nat

    ghost predicate Valid()
      reads this
    {
      pos <= |input|
    }

    constructor (input: string)
      ensures this.input == input && pos == 0 && Valid()
    {
      this.input := input;
      pos := 0;
    }

    /** The next line with its newline, or None when the stream ends first. */
    method ReadLine() returns (line: Option<string>)
      requires Valid()
      modifies this
      ensures Valid() && pos >= old(pos)
      ensures line.None? ==> pos == |input| && Lines(input[old(pos)..]) == []
      ensures line.Some? ==>
                && pos > old(pos) && line.value == input[old(pos)..pos] && line.value[|line.value| - 1] == '\n'
                && Lines(input[old(pos)..]) == [line.value[..|line.value| - 1]] + Lines(input[pos..])
    {
      var start := pos;
      while pos < |input| && input[pos] != '\n'
        invariant start <= pos <= |input|
        invariant forall i :: start <= i < pos ==> input[i] != '\n'
      {
        pos := pos + 1;
      }
      NextLine(input, start, pos - start);
      if pos == |input| { return None; }
      pos := pos + 1;
      line := Some(input[start..pos]);
    }

    method ReadOneSSEDataEvent() returns (event: Option<string>)
      requires Valid()
      modifies this
      ensures Valid() && pos >= old(pos)
      ensures event.None? ==> Events(input[old(pos)..]) == []
      ensures event.Some? ==> pos > old(pos) && Events(input[old(pos)..]) == [event.value] + Events(input[pos..])
    {
      var eventType, data := "", "";
      while true
        invariant Valid() && pos >= old(pos)
        invariant EventsOf(Lines(input[pos..]), Partial(eventType, data)) == Events(input[old(pos)..])
        decreases |input| - pos
      {
        ghost var before := Lines(input[pos..]);
        var line := ReadLine();
        if line.None? {
          return None;
        }
        var trimmed := StripEnd(line.value);
        assert before[0] == line.value[..|line.value| - 1] && before[1..] == Lines(input[pos..]);
        if trimmed == "" {
          if eventType == "feed" && |data| != 0 {
            return Some(data);
          }
          eventType, data := "", "";
          continue;
        }
        if "event: " <= trimmed {
          eventType := TrimSpace(trimmed[7..]);
          continue;
        }
        if "data: " <= trimmed {
          data := trimmed[6..];
        }
      }
    }
  }

  /** The stream loop: hands events to the handler until it refuses one or the stream ends. */
  method StreamSSE(body: string, onEvent: string -> bool) returns (handled: seq<string>)
    ensures handled <= Events(body)
    ensures forall i :: 0 <= i < |handled| - 1 ==> onEvent(handled[i])
    ensures handled == [] || onEvent(handled[|handled| - 1]) ==> handled == Events(body)
  {
    var r := new BodyReader(body);
    handled := [];
    assert body[0..] == body;
    while true
      invariant r.Valid() && r.input == body
      invariant handled + Events(body[r.pos..]) == Events(body)
      invariant forall i :: 0 <= i < |handled| ==> onEvent(handled[i])
      decreases |body| - r.pos
    {
      ghost var rest := Events(body[r.pos..]);
      var event := r.ReadOneSSEDataEvent();
      if event.None? {
        return;
      }
      assert handled + rest == (handled + [event.value]) + Events(body[r.pos..]);
      handled := handled + [event.value];
      if !onEvent(event.value) {
        return;
      }
    }
  }

  /** The server's side of the connection; a write may stop part way. */
  class Connection {
    var sent: string

    method Write(text: string) returns (ok: bool)
      modifies this
      ensures old(sent) <= sent <= old(sent) + text
      ensures ok ==> sent == old(sent) + text
    {
      var cut: int := *;
      ok := !(0 <= cut < |text|);
      sent := sent + if 0 <= cut < |text| then text[..cut] else text;
    }

    /** Writes one feed event; on failure a prefix of the frame has gone out. */
    method WriteEvent(payload: string) returns (ok: bool)
      modifies this
      ensures old(sent) <= sent <= old(sent) + Frame(Feed(payload))
      ensures ok ==> sent == old(sent) + Frame(Feed(payload)) == old(sent) + "event: feed\n" + "data: " + payload + "\n\n"
    {
      ghost var base := sent;
      FramePieces(base, payload);
      ok := Write("event: feed\n");
      if !ok { return; }
      ok := Write("data: ");
      if !ok { return; }
      ok := Write(payload);
      if !ok { return; }
      ok := Write("\n\n");
    }
  }

  /** A frame leaves in four pieces, one after the other. */
  lemma FramePieces(base: string, payload: string)
    ensures var all := base + Frame(Feed(payload));
            && base + "event: feed\n" <= all
            && base + "event: feed\n" + "data: " <= all
            && base + "event: feed\n" + "data: " + payload <= all
            && base + "event: feed\n" + "data: " + payload + "\n\n" == all
  {
    assert "event: feed\n" == "event: " + "feed" + "\n" && "\n\n" == "\n" + "\n";
    FourPieces(base, "event: feed\n", "data: ", payload, "\n");
  }

  lemma FourPieces(base: string, a: string, b: string, c: string, newline: string)
    ensures base + a + b + c + (newline + newline) == base + (a + b + c + newline + newline)
  {
  }
}
