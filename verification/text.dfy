/**
 * String operations used by the Python server and the browser code:
 * whitespace trimming (Python's str.strip and JavaScript's String.prototype.trim
 * treat different characters as whitespace), prefix tests, splitting on one
 * character and joining, removing characters, and decimal printing of naturals.
 */
module Text {

  /** The characters for which Python's str.isspace() holds. */
  predicate IsPyWhitespace(c: char) {
    var n := c as int;
    (9 <= n <= 13) || (28 <= n <= 32) || n == 0x85 || n == 0xA0 || n == 0x1680
    || (0x2000 <= n <= 0x200A) || n == 0x2028 || n == 0x2029 || n == 0x202F
    || n == 0x205F || n == 0x3000
  }

  /** The characters JavaScript's trim() removes: WhiteSpace and LineTerminator. */
  predicate IsJsWhitespace(c: char) {
    var n := c as int;
    (9 <= n <= 13) || n == 32 || n == 0xA0 || n == 0xFEFF || n == 0x1680
    || (0x2000 <= n <= 0x200A) || n == 0x2028 || n == 0x2029 || n == 0x202F
    || n == 0x205F || n == 0x3000
  }

  /** The number of leading characters of `s` that satisfy `ws`. */
  function LeadingCount(s: string, ws: char -> bool): (n: nat)
    ensures n <= |s|
    ensures forall k :: 0 <= k < n ==> ws(s[k])
    ensures n < |s| ==> !ws(s[n])
  {
    if s != [] && ws(s[0]) then 1 + LeadingCount(s[1..], ws) else 0
  }

  /** The index where the run of trailing characters satisfying `ws` begins. */
  function TrailingStart(s: string, ws: char -> bool): (n: nat)
    ensures n <= |s|
    ensures forall k :: n <= k < |s| ==> ws(s[k])
    ensures 0 < n ==> !ws(s[n - 1])
  {
    if s != [] && ws(s[|s| - 1]) then TrailingStart(s[..|s| - 1], ws) else |s|
  }

  /** Removes the leading, then the trailing, characters satisfying `ws`. */
  function Trim(s: string, ws: char -> bool): string {
    var t := s[LeadingCount(s, ws)..];
    t[..TrailingStart(t, ws)]
  }

  /** Python's `s.strip()` with no argument. */
  function PyStrip(s: string): string { Trim(s, IsPyWhitespace) }

  /** JavaScript's `s.trim()`. */
  function JsTrim(s: string): string { Trim(s, IsJsWhitespace) }

  /**
   * Trimming keeps one contiguous piece of the input, starting after the
   * leading whitespace, and removes only whitespace around it.
   */
  lemma TrimIsInfix(s: string, ws: char -> bool)
    ensures var i, r := LeadingCount(s, ws), Trim(s, ws);
      && i + |r| <= |s| && r == s[i..i + |r|]
      && (forall k :: 0 <= k < i ==> ws(s[k]))
      && (forall k :: i + |r| <= k < |s| ==> ws(s[k]))
  {
    var i := LeadingCount(s, ws);
    var t := s[i..];
    var j := TrailingStart(t, ws);
    assert Trim(s, ws) == t[..j] == s[i..i + j];
    forall k | i + j <= k < |s| ensures ws(s[k]) {
      assert s[k] == t[k - i];
    }
  }

  /** The result of trimming neither starts nor ends with whitespace. */
  lemma TrimEndsClean(s: string, ws: char -> bool)
    ensures var r := Trim(s, ws); r == [] || (!ws(r[0]) && !ws(r[|r| - 1]))
  {
    var t := s[LeadingCount(s, ws)..];
    var j := TrailingStart(t, ws);
    if j > 0 {
      assert Trim(s, ws)[0] == t[0];
      assert Trim(s, ws)[j - 1] == t[j - 1];
    }
  }

  /** Trimming is idempotent. */
  lemma {:induction false} TrimIdempotent(s: string, ws: char -> bool)
    ensures Trim(Trim(s, ws), ws) == Trim(s, ws)
  {
    var r := Trim(s, ws);
    TrimEndsClean(s, ws);
    if r != [] {
      assert LeadingCount(r, ws) == 0;
      assert TrailingStart(r, ws) == |r|;
    }
  }

  predicate StartsWith(s: string, prefix: string) {
    |prefix| <= |s| && s[..|prefix|] == prefix
  }

  /** `s` with every character in `drop` removed, the others kept in order. */
  function RemoveChars(s: string, drop: set<char>): (r: string)
    ensures |r| <= |s|
    ensures forall k :: 0 <= k < |r| ==> r[k] !in drop
  {
    if s == [] then []
    else (if s[0] in drop then [] else [s[0]]) + RemoveChars(s[1..], drop)
  }

  /** Removing characters keeps every other character, as many times as it occurs. */
  lemma {:induction false} RemoveCharsKeepsOthers(s: string, drop: set<char>, c: char)
    requires c !in drop
    ensures multiset(RemoveChars(s, drop))[c] == multiset(s)[c]
  {
    if s != [] {
      assert s == [s[0]] + s[1..];
      RemoveCharsKeepsOthers(s[1..], drop, c);
    }
  }

  function DigitChar(d: nat): (c: char)
    requires d < 10
    ensures '0' <= c <= '9'
  {
    ('0' as int + d) as char
  }

  /** The value of a decimal digit; characters that are not digits count as 0. */
  function DigitValue(c: char): nat {
    if '0' <= c <= '9' then c as int - '0' as int else 0
  }

  /** Python's `str(n)` for a natural number: decimal digits, no leading zero. */
  function NatToString(n: nat): (s: string)
    ensures |s| >= 1
    ensures forall k :: 0 <= k < |s| ==> '0' <= s[k] <= '9'
  {
    if n < 10 then [DigitChar(n)] else NatToString(n / 10) + [DigitChar(n % 10)]
  }

  /** Reads a string of decimal digits back as a number. */
  function DecimalValue(s: string): nat {
    if s == [] then 0 else DecimalValue(s[..|s| - 1]) * 10 + DigitValue(s[|s| - 1])
  }

  /** Decimal printing is inverted by decimal reading, so it is injective. */
  lemma {:induction false} DecimalRoundTrip(n: nat)
    ensures DecimalValue(NatToString(n)) == n
  {
    var s := NatToString(n);
    if n >= 10 {
      DecimalRoundTrip(n / 10);
      assert s[..|s| - 1] == NatToString(n / 10);
      assert DigitValue(s[|s| - 1]) == n % 10;
    } else {
      assert DigitValue(s[0]) == n;
    }
  }

  lemma NatToStringInjective(m: nat, n: nat)
    requires NatToString(m) == NatToString(n)
    ensures m == n
  {
    DecimalRoundTrip(m);
    DecimalRoundTrip(n);
  }
}
