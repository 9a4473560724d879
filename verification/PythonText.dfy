/** The Python string operations that several components share. */
module PythonText {

  /** `str.isspace` of one character. */
  predicate IsSpace(c: char) {
    var code := c as int;
    9 <= code <= 13 || 28 <= code <= 32 || code == 0x85 || code == 0xA0 || code == 0x1680 ||
    0x2000 <= code <= 0x200A || code == 0x2028 || code == 0x2029 || code == 0x202F ||
    code == 0x205F || code == 0x3000
  }

  /** An ASCII digit. */
  predicate IsDigit(c: char) {
    '0' <= c <= '9'
  }

  function DigitValue(c: char): nat
    requires IsDigit(c)
  {
    c as int - '0' as int
  }

  function Digit(d: nat): char
    requires d < 10
  {
    '0' + d as char
  }

  /** Python's `str` of a natural number. */
  function Decimal(n: nat): string {
    if n < 10 then [Digit(n)] else Decimal(n / 10) + [Digit(n % 10)]
  }

  function StripLeft(s: string): string {
    if s != "" && IsSpace(s[0]) then StripLeft(s[1..]) else s
  }

  function StripRight(s: string): string {
    if s != "" && IsSpace(s[|s| - 1]) then StripRight(s[..|s| - 1]) else s
  }

  /** `str.strip`. */
  function Strip(s: string): string {
    StripRight(StripLeft(s))
  }

  /** `"".join`. */
  function Join(parts: seq<string>): string {
    if parts == [] then "" else Join(parts[..|parts| - 1]) + parts[|parts| - 1]
  }

  lemma {:induction false} JoinConcat(a: seq<string>, b: seq<string>)
    ensures Join([]) == "" && (forall part :: Join([part]) == part)
    ensures Join(a + b) == Join(a) + Join(b)
  {
    forall part ensures Join([part]) == part {
      assert [part][..0] == [] && "" + part == part;
    }
    if b == [] {
      assert a + b == a;
    } else {
      JoinConcat(a, b[..|b| - 1]);
      assert (a + b)[..|a + b| - 1] == a + b[..|b| - 1];
    }
  }

  ghost predicate Blank(s: string) {
    forall i :: 0 <= i < |s| ==> IsSpace(s[i])
  }

  ghost predicate Trimmed(s: string) {
    s != "" ==> !IsSpace(s[0]) && !IsSpace(s[|s| - 1])
  }

  lemma {:induction false} StripLeftDrops(s: string) returns (dropped: string)
    ensures s == dropped + StripLeft(s) && Blank(dropped)
    ensures StripLeft(s) != "" ==> !IsSpace(StripLeft(s)[0])
  {
    if s != "" && IsSpace(s[0]) {
      var rest := StripLeftDrops(s[1..]);
      dropped := [s[0]] + rest;
    } else {
      dropped := "";
    }
  }

  lemma {:induction false} StripRightDrops(s: string) returns (dropped: string)
    ensures s == StripRight(s) + dropped && Blank(dropped)
    ensures StripRight(s) != "" ==> StripRight(s)[0] == s[0] && !IsSpace(StripRight(s)[|StripRight(s)| - 1])
  {
    if s != "" && IsSpace(s[|s| - 1]) {
      var rest := StripRightDrops(s[..|s| - 1]);
      dropped := rest + [s[|s| - 1]];
    } else {
      dropped := "";
    }
  }

  /** Stripping removes white space at both ends and nothing else. */
  lemma StripExactly(s: string) returns (before: string, after: string)
    ensures s == before + Strip(s) + after && Blank(before) && Blank(after) && Trimmed(Strip(s))
    ensures Strip(s) == "" <==> Blank(s)
  {
    before := StripLeftDrops(s);
    after := StripRightDrops(StripLeft(s));
    if Strip(s) != "" {
      assert s[|before|] == Strip(s)[0];
    }
  }
}
