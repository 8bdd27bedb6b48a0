/** The few string operations of Go's `strings` package the services rely on. */
module Text {
  predicate IsSpace(c: char) {
    c in {' ', '\t', '\n', '\U{000B}', '\U{000C}', '\r', '\U{0085}', '\U{00A0}', '\U{1680}',
          '\U{2028}', '\U{2029}', '\U{202F}', '\U{205F}', '\U{3000}'}
    || '\U{2000}' <= c <= '\U{200A}'
  }

  function TrimLeft(s: string): string {
    if s != [] && IsSpace(s[0]) then TrimLeft(s[1..]) else s
  }

  function TrimRight(s: string): string {
    if s != [] && IsSpace(s[|s| - 1]) then TrimRight(s[..|s| - 1]) else s
  }

  function Trim(s: string): string {
    TrimRight(TrimLeft(s))
  }

  predicate Blank(s: string) {
    Trim(s) == ""
  }

  predicate IsHex(c: char) {
    '0' <= c <= '9' || 'a' <= c <= 'f' || 'A' <= c <= 'F'
  }

  predicate ValidUuid(s: string) {
    |s| == 36 &&
    forall i :: 0 <= i < 36 ==> if i in {8, 13, 18, 23} then s[i] == '-' else IsHex(s[i])
  }

  lemma {:induction false} TrimLeftStops(s: string)
    ensures TrimLeft(s) == "" || !IsSpace(TrimLeft(s)[0])
  {
    if s != [] && IsSpace(s[0]) {
      TrimLeftStops(s[1..]);
    }
  }

  lemma {:induction false} TrimRightStops(s: string)
    ensures TrimRight(s) == "" || !IsSpace(TrimRight(s)[|TrimRight(s)| - 1])
    ensures TrimRight(s) <= s
  {
    if s != [] && IsSpace(s[|s| - 1]) {
      TrimRightStops(s[..|s| - 1]);
    }
  }

  lemma TrimOfTrim(s: string)
    ensures Trim(Trim(s)) == Trim(s)
  {
    var left := TrimLeft(s);
    TrimLeftStops(s);
    TrimRightStops(left);
  }

  lemma UuidIsTrimmed(s: string)
    requires ValidUuid(s)
    ensures Trim(s) == s
  {
    assert !IsSpace(s[0]) && !IsSpace(s[35]);
    assert TrimLeft(s) == s;
    assert TrimRight(s) == s;
  }

  ghost predicate AllSpace(s: string) {
    forall i :: 0 <= i < |s| ==> IsSpace(s[i])
  }

  lemma {:induction false} TrimLeftRemovesSpace(s: string) returns (prefix: string)
    ensures s == prefix + TrimLeft(s) && AllSpace(prefix)
  {
    prefix := "";
    if s != [] && IsSpace(s[0]) {
      var rest := TrimLeftRemovesSpace(s[1..]);
      prefix := [s[0]] + rest;
    }
  }

  lemma {:induction false} TrimRightRemovesSpace(s: string) returns (suffix: string)
    ensures s == TrimRight(s) + suffix && AllSpace(suffix)
  {
    suffix := "";
    if s != [] && IsSpace(s[|s| - 1]) {
      var rest := TrimRightRemovesSpace(s[..|s| - 1]);
      suffix := rest + [s[|s| - 1]];
    }
  }

  /** Trimming removes white space from both ends, all of it, and nothing else. */
  lemma TrimIsExact(s: string) returns (prefix: string, suffix: string)
    ensures s == prefix + Trim(s) + suffix && AllSpace(prefix) && AllSpace(suffix)
    ensures Trim(s) != "" ==> !IsSpace(Trim(s)[0]) && !IsSpace(Trim(s)[|Trim(s)| - 1])
  {
    prefix := TrimLeftRemovesSpace(s);
    suffix := TrimRightRemovesSpace(TrimLeft(s));
    TrimLeftStops(s);
    TrimRightStops(TrimLeft(s));
  }
}
