/** Optional values and the string operations the client and server share. */
module Text {

  datatype Option<+T> = None | Some(value: T)

  /** Unicode white space, as the language's string library defines it. */
  predicate IsSpace(c: char) {
    || '\t' <= c <= '\r' || c == ' ' || c == '\U{85}' || c == '\U{A0}' || c == '\U{1680}'
    || '\U{2000}' <= c <= '\U{200A}' || c == '\U{2028}' || c == '\U{2029}' || c == '\U{202F}'
    || c == '\U{205F}' || c == '\U{3000}'
  }

  predicate Trimmed(s: string) {
    s == "" || (!IsSpace(s[0]) && !IsSpace(s[|s| - 1]))
  }

  function TrimLeft(s: string): (t: string)
    ensures t == "" || !IsSpace(t[0])
    ensures s != "" && !IsSpace(s[|s| - 1]) ==> t != "" && t[|t| - 1] == s[|s| - 1]
    ensures s == "" || !IsSpace(s[0]) ==> t == s
  {
    if s != "" && IsSpace(s[0]) then TrimLeft(s[1..]) else s
  }

  function TrimRight(s: string): (t: string)
    ensures t == "" || !IsSpace(t[|t| - 1])
    ensures t <= s
    ensures s == "" || !IsSpace(s[|s| - 1]) ==> t == s
  {
    if s != "" && IsSpace(s[|s| - 1]) then TrimRight(s[..|s| - 1]) else s
  }

  /** strings.TrimSpace: strips nothing exactly from the strings that have no space at either end. */
  function TrimSpace(s: string): (t: string)
    ensures Trimmed(t)
    ensures Trimmed(s) <==> t == s
  {
    TrimRight(TrimLeft(s))
  }

  lemma TrimKeepsOnly(s: string, c: char)
    requires c in TrimSpace(s)
    ensures c in s
  {
    assert c in TrimLeft(s);
    TrimLeftKeepsOnly(s, c);
  }

  lemma {:induction false} TrimLeftKeepsOnly(s: string, c: char)
    requires c in TrimLeft(s)
    ensures c in s
  {
    if s != "" && IsSpace(s[0]) {
      TrimLeftKeepsOnly(s[1..], c);
    }
  }

  predicate Blank(s: string) {
    TrimSpace(s) == ""
  }
}
