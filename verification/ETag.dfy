/** Revisions as entity tags: how the server and the client quote them and when they match. */
module ETag {
  import opened Text

  // ----- quoting

  /** `wide` stands for the table of printable characters beyond ASCII. */
  type Wide = char -> bool

  predicate IsPrint(c: char, wide: Wide) {
    if c < '\U{7F}' then ' ' <= c else c != '\U{7F}' && wide(c)
  }

  function Digit(n: nat): char
    requires n < 16
  {
    "0123456789abcdef"[n]
  }

  function Hex(n: nat, width: nat): (h: string)
    ensures |h| == width
  {
    if width == 0 then "" else Hex(n / 16, width - 1) + [Digit(n % 16)]
  }

  /** The letter after the backslash, for the characters that have a short escape. */
  function ShortEscape(c: char): Option<char> {
    match c
    case '\U{7}' => Some('a')
    case '\U{8}' => Some('b')
    case '\U{C}' => Some('f')
    case '\n' => Some('n')
    case '\r' => Some('r')
    case '\t' => Some('t')
    case '\U{B}' => Some('v')
    case _ => None
  }

  /** One character of a quoted string. */
  function Escape(c: char, wide: Wide): string {
    if c == '"' || c == '\\' then ['\\', c]
    else if IsPrint(c, wide) then [c]
    else if ShortEscape(c).Some? then ['\\', ShortEscape(c).value]
    else if c < ' ' || c == '\U{7F}' then "\\x" + Hex(c as int, 2)
    else if c < '\U{10000}' then "\\u" + Hex(c as int, 4)
    else "\\U" + Hex(c as int, 8)
  }

  function Escaped(s: string, wide: Wide): string {
    if s == "" then "" else Escape(s[0], wide) + Escaped(s[1..], wide)
  }

  function Quote(s: string, wide: Wide): string {
    "\"" + Escaped(s, wide) + "\""
  }

  // ----- the header values

  /** The ETag of a response, and the If-None-Match of a request: both sides format revisions alike. */
  function Format(revision: string, wide: Wide): string {
    if Blank(revision) then "" else Quote(TrimSpace(revision), wide)
  }

  function NormalizeETag(tag: string): string {
    var s := TrimSpace(tag);
    var t := TrimSpace(if |s| >= 2 && (s[0] == 'w' || s[0] == 'W') && s[1] == '/' then TrimSpace(s[2..]) else s);
    if |t| >= 2 && t[0] == '"' && t[|t| - 1] == '"' then t[1..|t| - 1] else t
  }

  function FirstComma(s: string): (n: nat)
    ensures n <= |s| && ',' !in s[..n]
    ensures n < |s| ==> s[n] == ','
    ensures ',' !in s ==> n == |s|
  {
    if s == "" || s[0] == ',' then 0
    else
      assert s[..1 + FirstComma(s[1..])] == [s[0]] + s[1..][..FirstComma(s[1..])];
      1 + FirstComma(s[1..])
  }

  function SplitCommas(s: string): (parts: seq<string>)
    ensures forall p <- parts :: ',' !in p
  {
    if FirstComma(s) == |s| then [s] else [s[..FirstComma(s)]] + SplitCommas(s[FirstComma(s) + 1..])
  }

  predicate SameTag(a: string, b: string) {
    NormalizeETag(a) == NormalizeETag(b)
  }

  ghost predicate Matches(header: string, etag: string) {
    !Blank(header) && exists i :: 0 <= i < |SplitCommas(header)| && SameTag(SplitCommas(header)[i], etag)
  }

  method IfNoneMatchMatches(header: string, revision: string) returns (matched: bool)
    ensures matched == Matches(header, revision)
  {
    if TrimSpace(header) == "" {
      return false;
    }
    matched := AnyMatches(SplitCommas(header), NormalizeETag(revision));
    assert matched <==> exists i :: 0 <= i < |SplitCommas(header)| && SameTag(SplitCommas(header)[i], revision);
  }

  method AnyMatches(parts: seq<string>, wanted: string) returns (matched: bool)
    ensures matched <==> exists i :: 0 <= i < |parts| && NormalizeETag(parts[i]) == wanted
  {
    for i := 0 to |parts|
      invariant forall j :: 0 <= j < i ==> NormalizeETag(parts[j]) != wanted
    {
      if NormalizeETag(parts[i]) == wanted {
        return true;
      }
    }
    return false;
  }

  // ----- quoting loses nothing

  function Pow16(n: nat): nat {
    if n == 0 then 1 else 16 * Pow16(n - 1)
  }

  lemma {:induction false} HexInjective(a: nat, b: nat, width: nat)
    requires a < Pow16(width) && b < Pow16(width) && Hex(a, width) == Hex(b, width)
    ensures a == b
  {
    if width > 0 {
      assert Hex(a, width)[..width - 1] == Hex(a / 16, width - 1);
      assert Hex(b, width)[..width - 1] == Hex(b / 16, width - 1);
      assert Digit(a % 16) == Hex(a, width)[width - 1] == Digit(b % 16);
      HexInjective(a / 16, b / 16, width - 1);
    }
  }

  /** The length of an escape can be told from its first two characters. */
  function CodeLength(code: string): nat {
    if |code| < 2 || code[0] != '\\' then 1
    else if code[1] == 'x' then 4
    else if code[1] == 'u' then 6
    else if code[1] == 'U' then 10
    else 2
  }

  lemma EscapeLength(c: char, wide: Wide, rest: string)
    ensures |Escape(c, wide)| == CodeLength(Escape(c, wide) + rest)
  {
    var e := Escape(c, wide);
    assert (e + rest)[0] == e[0];
    if |e| > 1 {
      assert (e + rest)[1] == e[1];
    }
  }

  lemma EscapeInjective(c: char, d: char, wide: Wide)
    requires Escape(c, wide) == Escape(d, wide)
    ensures c == d
  {
    var e, f := Escape(c, wide), Escape(d, wide);
    if |e| > 2 {
      assert e[2..] == Hex(c as int, |e| - 2) && f[2..] == Hex(d as int, |e| - 2);
      assert Pow16(2) == 256 && Pow16(4) == 65536;
      assert Pow16(8) == 4294967296 by {
        assert Pow16(6) == 256 * Pow16(4);
        assert Pow16(8) == 256 * Pow16(6);
      }
      HexInjective(c as int, d as int, |e| - 2);
    } else if |e| == 2 {
      assert e[1] == f[1];
    }
  }

  lemma {:induction false} EscapedInjective(s: string, t: string, wide: Wide)
    requires Escaped(s, wide) == Escaped(t, wide)
    ensures s == t
  {
    if s != "" {
      EscapeLength(s[0], wide, Escaped(s[1..], wide));
    }
    if t != "" {
      EscapeLength(t[0], wide, Escaped(t[1..], wide));
    }
    if s != "" && t != "" {
      var n := |Escape(s[0], wide)|;
      assert Escape(s[0], wide) == Escaped(s, wide)[..n] == Escape(t[0], wide);
      assert Escaped(s[1..], wide) == Escaped(s, wide)[n..] == Escaped(t[1..], wide);
      EscapeInjective(s[0], t[0], wide);
      EscapedInjective(s[1..], t[1..], wide);
      assert s == [s[0]] + s[1..] && t == [t[0]] + t[1..];
    }
  }

  lemma {:induction false} HexHasNoComma(n: nat, width: nat)
    ensures ',' !in Hex(n, width)
  {
    if width > 0 {
      HexHasNoComma(n / 16, width - 1);
    }
  }

  lemma {:induction false} EscapedCommas(s: string, wide: Wide)
    ensures ',' in Escaped(s, wide) <==> ',' in s
  {
    if s != "" {
      var e := Escape(s[0], wide);
      HexHasNoComma(s[0] as int, 2);
      HexHasNoComma(s[0] as int, 4);
      HexHasNoComma(s[0] as int, 8);
      assert ',' in e <==> s[0] == ',';
      EscapedCommas(s[1..], wide);
      assert s == [s[0]] + s[1..];
    }
  }

  /** Normalizing a quoted revision gives back what was between the quotes. */
  lemma NormalizeQuoted(s: string, wide: Wide)
    ensures NormalizeETag(Quote(s, wide)) == Escaped(s, wide)
  {
    var q := Quote(s, wide);
    assert q[0] == '"' && q[|q| - 1] == '"' && Trimmed(q);
    assert q[1..|q| - 1] == Escaped(s, wide);
  }

  lemma NormalizeKeepsOnly(tag: string, c: char)
    requires c in NormalizeETag(tag)
    ensures c in tag
  {
    var s := TrimSpace(tag);
    var weak := |s| >= 2 && (s[0] == 'w' || s[0] == 'W') && s[1] == '/';
    var t := TrimSpace(if weak then TrimSpace(s[2..]) else s);
    assert c in t;
    if weak {
      TrimKeepsOnly(TrimSpace(s[2..]), c);
      TrimKeepsOnly(s[2..], c);
    } else {
      TrimKeepsOnly(s, c);
    }
    assert c in s;
    TrimKeepsOnly(tag, c);
  }

  // ----- when a request is answered with 304

  /** The server answers 304 to a client holding `held` while it stores `stored`. */
  ghost predicate NotModified(held: string, stored: string, wide: Wide) {
    !Blank(Format(stored, wide)) && Matches(Format(held, wide), Format(stored, wide))
  }

  lemma MatchWithoutCommas(held: string, stored: string, wide: Wide)
    requires !Blank(held) && !Blank(stored) && ',' !in TrimSpace(held)
    ensures NotModified(held, stored, wide) <==> TrimSpace(held) == TrimSpace(stored)
  {
    var q, r := Quote(TrimSpace(held), wide), Quote(TrimSpace(stored), wide);
    EscapedCommas(TrimSpace(held), wide);
    assert ',' !in q;
    assert SplitCommas(q) == [q];
    assert q[0] == '"' && q[|q| - 1] == '"' && Trimmed(q) && r[0] == '"' && r[|r| - 1] == '"' && Trimmed(r);
    NormalizeQuoted(TrimSpace(held), wide);
    NormalizeQuoted(TrimSpace(stored), wide);
    if NotModified(held, stored, wide) {
      EscapedInjective(TrimSpace(held), TrimSpace(stored), wide);
    }
    assert SameTag(SplitCommas(q)[0], r) <==> Escaped(TrimSpace(held), wide) == Escaped(TrimSpace(stored), wide);
  }

  /** A revision with a comma is never recognised, not even by the server that issued it. */
  lemma CommaNeverMatchesItself(held: string, wide: Wide)
    requires !Blank(held) && ',' in TrimSpace(held)
    ensures !NotModified(held, held, wide)
  {
    var q := Quote(TrimSpace(held), wide);
    EscapedCommas(TrimSpace(held), wide);
    NormalizeQuoted(TrimSpace(held), wide);
    forall i | 0 <= i < |SplitCommas(q)| ensures !SameTag(SplitCommas(q)[i], q) {
      assert SplitCommas(q)[i] in SplitCommas(q);
      if ',' in NormalizeETag(SplitCommas(q)[i]) {
        NormalizeKeepsOnly(SplitCommas(q)[i], ',');
      }
    }
  }

  /** 304 means "you hold what is stored", against every stored revision, if and only if the held revision
      has no comma. Quotes, backslashes and control characters do no harm. */
  lemma SoundExactlyWithoutCommas(held: string, wide: Wide)
    requires !Blank(held)
    ensures (forall stored :: !Blank(stored) ==> (NotModified(held, stored, wide) <==> TrimSpace(held) == TrimSpace(stored)))
            <==> ',' !in TrimSpace(held)
  {
    if ',' in TrimSpace(held) {
      CommaNeverMatchesItself(held, wide);
    } else {
      forall stored | !Blank(stored)
        ensures NotModified(held, stored, wide) <==> TrimSpace(held) == TrimSpace(stored)
      {
        MatchWithoutCommas(held, stored, wide);
      }
    }
  }

  predicate Plain(s: string) {
    forall i :: 0 <= i < |s| ==> ' ' <= s[i] < '\U{7F}' && s[i] != '"' && s[i] != '\\'
  }

  /** Worse, a held revision is taken for any stored one that it has between two of its commas. */
  lemma CommasMatchAnother(a: string, b: string, c: string, wide: Wide)
    requires Plain(a) && Plain(b) && Plain(c) && Trimmed(a + "," + b + "," + c)
    requires ',' !in a && ',' !in b && b != "" && Trimmed(b) && NormalizeETag(b) == b
    ensures NotModified(a + "," + b + "," + c, b, wide)
  {
    var held, last := a + "," + b + "," + c, c + "\"";
    assert Plain(held);
    PlainIsNotEscaped(held, wide);
    PlainIsNotEscaped(b, wide);
    var q := Quote(held, wide);
    Reassociate("\"", ",", a, b, c);
    SecondPart(q, "\"" + a, b, last);
    NormalizeQuoted(b, wide);
    QuotedIsNotBlank(held, wide);
    QuotedIsNotBlank(b, wide);
    assert SameTag(SplitCommas(q)[1], Quote(b, wide));
  }

  lemma Reassociate(x: string, y: string, a: string, b: string, c: string)
    ensures x + (a + y + b + y + c) + x == (x + a) + y + (b + y + (c + x))
  {
    var ab := a + y + b;
    assert x + (ab + y + c) + x == (x + ab) + (y + (c + x));
    assert x + ab == (x + a) + y + b;
    assert ((x + a) + y + b) + (y + (c + x)) == (x + a) + y + (b + y + (c + x));
  }

  lemma QuotedIsNotBlank(s: string, wide: Wide)
    ensures !Blank(Quote(s, wide))
  {
    var q := Quote(s, wide);
    assert q[0] == '"' && q[|q| - 1] == '"' && Trimmed(q);
  }

  lemma SecondPart(s: string, first: string, second: string, rest: string)
    requires s == first + "," + (second + "," + rest) && ',' !in first && ',' !in second
    ensures |SplitCommas(s)| > 1 && SplitCommas(s)[1] == second
  {
    SplitFirst(first, second + "," + rest);
    SplitFirst(second, rest);
  }

  lemma {:induction false} PlainIsNotEscaped(s: string, wide: Wide)
    requires Plain(s)
    ensures Escaped(s, wide) == s
  {
    if s != "" {
      assert Escape(s[0], wide) == [s[0]];
      PlainIsNotEscaped(s[1..], wide);
      assert s == [s[0]] + s[1..];
    }
  }

  lemma SplitFirst(part: string, rest: string)
    requires ',' !in part
    ensures SplitCommas(part + "," + rest) == [part] + SplitCommas(rest)
  {
    var s := part + "," + rest;
    assert s[..|part|] == part && s[|part| + 1..] == rest;
    FirstCommaIs(s, |part|);
  }

  lemma {:induction false} FirstCommaIs(s: string, n: nat)
    requires n < |s| && s[n] == ',' && ',' !in s[..n]
    ensures FirstComma(s) == n
  {
    if n > 0 {
      assert s[0] == s[..n][0];
      assert s[1..][..n - 1] == s[..n][1..];
      FirstCommaIs(s[1..], n - 1);
    }
  }

  // ----- weak tags, bare tags and lists

  /** What a tag normalises to: the text between its quotes, or the whole of a bare tag. */
  lemma NormalizedText(text: string)
    ensures NormalizeETag("\"" + text + "\"") == text
    ensures Trimmed(text) && (text == "" || (text[0] != '"' && text[0] != 'W' && text[0] != 'w')) ==> NormalizeETag(text) == text
  {
    var q := "\"" + text + "\"";
    assert q[0] == '"' && q[|q| - 1] == '"' && Trimmed(q);
    assert q[1..|q| - 1] == text;
  }

  /** A weak tag is the same as the strong one, with the mark in either case. */
  lemma WeakIsSame(text: string, mark: char)
    requires mark == 'W' || mark == 'w'
    ensures NormalizeETag([mark] + "/" + ("\"" + text + "\"")) == text
  {
    var q := "\"" + text + "\"";
    var weak := [mark] + "/" + q;
    assert weak[0] == mark && weak[1] == '/' && weak[2..] == q && weak[|weak| - 1] == '"';
    assert Trimmed(weak) && Trimmed(q) && q[0] == '"' && q[|q| - 1] == '"';
    assert q[1..|q| - 1] == text;
  }

  /** A list header. */
  function Listed(tags: seq<string>): string
    requires tags != []
  {
    if |tags| == 1 then tags[0] else tags[0] + "," + Listed(tags[1..])
  }

  lemma {:induction false} SplitListed(tags: seq<string>)
    requires tags != [] && forall t <- tags :: ',' !in t
    ensures SplitCommas(Listed(tags)) == tags
  {
    if |tags| > 1 {
      SplitListed(tags[1..]);
      SplitFirst(tags[0], Listed(tags[1..]));
      assert tags == [tags[0]] + tags[1..];
    } else {
      assert ',' !in tags[0];
    }
  }

  /** A list of tags without commas in them matches if and only if one of its tags does. */
  lemma ListMatches(tags: seq<string>, etag: string)
    requires tags != [] && !Blank(Listed(tags)) && forall t <- tags :: ',' !in t
    ensures Matches(Listed(tags), etag) <==> exists t :: t in tags && SameTag(t, etag)
  {
    SplitListed(tags);
    if exists t :: t in tags && SameTag(t, etag) {
      var t :| t in tags && SameTag(t, etag);
      var i :| 0 <= i < |tags| && tags[i] == t;
      assert SameTag(SplitCommas(Listed(tags))[i], etag);
    }
  }

  lemma WeakHeader(text: string, mark: char, etag: string)
    requires (mark == 'W' || mark == 'w') && ',' !in text
    ensures Matches([mark] + "/" + ("\"" + text + "\""), etag) <==> text == NormalizeETag(etag)
  {
    var q := "\"" + text + "\"";
    var weak := [mark] + "/" + q;
    assert q[|q| - 1] == '"' && ',' !in q;
    assert ',' !in weak && weak[0] == mark && weak[|weak| - 1] == '"' && Trimmed(weak);
    assert SplitCommas(weak) == [weak];
    WeakIsSame(text, mark);
    assert SameTag(SplitCommas(weak)[0], etag) <==> text == NormalizeETag(etag);
  }

  /** A proxy may weaken the tag: the server recognises its revision all the same. */
  lemma WeakenedIsRecognised(held: string, stored: string, mark: char, wide: Wide)
    requires !Blank(held) && !Blank(stored) && ',' !in TrimSpace(held) && (mark == 'W' || mark == 'w')
    ensures Matches([mark] + "/" + Format(held, wide), Format(stored, wide)) <==> TrimSpace(held) == TrimSpace(stored)
  {
    var text := Escaped(TrimSpace(held), wide);
    EscapedCommas(TrimSpace(held), wide);
    WeakHeader(text, mark, Format(stored, wide));
    NormalizeQuoted(TrimSpace(stored), wide);
    if text == Escaped(TrimSpace(stored), wide) {
      EscapedInjective(TrimSpace(held), TrimSpace(stored), wide);
    }
  }

  /** A revision of plain characters goes out as it is, in quotes. */
  lemma PlainIsQuoted(revision: string, wide: Wide)
    requires Plain(revision) && revision != "" && Trimmed(revision)
    ensures Format(revision, wide) == "\"" + revision + "\""
  {
    PlainIsNotEscaped(revision, wide);
  }
}
