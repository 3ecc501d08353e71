/** Decimal text: `std::to_string` and the strict digit parsers. */
module Decimal {
  import opened Wrappers
  import opened Sequences

  predicate IsDigit(c: char) {
    '0' <= c <= '9'
  }

  predicate AllDigits(s: string) {
    forall i | 0 <= i < |s| :: IsDigit(s[i])
  }

  function DigitValue(c: char): (d: nat)
    requires IsDigit(c)
    ensures d < 10
  {
    c as int - '0' as int
  }

  /** The number that a digit string denotes, leading zeros allowed. */
  function Value(s: string): nat
    requires AllDigits(s)
  {
    if s == "" then 0 else Value(s[..|s| - 1]) * 10 + DigitValue(s[|s| - 1])
  }

  /** The canonical decimal text of `n`. */
  function Print(n: nat): (s: string)
    ensures s != "" && AllDigits(s) && Value(s) == n
  {
    var last := ('0' as int + n % 10) as char;
    if n < 10 then [last] else
      var s := Print(n / 10) + [last];
      assert s[..|s| - 1] == Print(n / 10);
      s
  }

  /** `std::to_string` of a signed number. */
  function PrintInt(n: int): string {
    if n < 0 then "-" + Print(-n) else Print(n)
  }

  lemma PrintIntInjective(a: int, b: int)
    ensures PrintInt(a) == PrintInt(b) ==> a == b
  {
    if PrintInt(a) == PrintInt(b) {
      if a < 0 {
        assert PrintInt(a)[0] == '-';
        assert b < 0 by { assert b >= 0 ==> IsDigit(PrintInt(b)[0]); }
        assert PrintInt(a)[1..] == Print(-a) && PrintInt(b)[1..] == Print(-b);
      } else {
        assert b >= 0 by { assert IsDigit(PrintInt(a)[0]); }
      }
    }
  }

  /** A digit string denotes at least as much as any of its prefixes. */
  lemma {:induction false} ValueOfPrefix(s: string, i: nat)
    requires AllDigits(s) && i <= |s|
    ensures Value(s[..i]) <= Value(s)
  {
    if i == |s| {
      assert s[..i] == s;
    } else {
      var p := s[..|s| - 1];
      ValueOfPrefix(p, i);
      assert p[..i] == s[..i];
    }
  }

  /** A non-empty digit string whose number does not exceed `max`, and no other text. */
  function ParseBounded(s: string, max: nat): Option<nat> {
    if s != "" && AllDigits(s) && Value(s) <= max then Some(Value(s)) else None
  }

  const MAX_U64: nat := 0xffff_ffff_ffff_ffff

  /** `isspace` of the C locale. */
  predicate IsSpace(c: char) {
    c == ' ' || '\t' <= c <= '\r'
  }

  function SkipSpace(s: string): string {
    if s != "" && IsSpace(s[0]) then SkipSpace(s[1..]) else s
  }

  /** The sign that `strtoull` and `operator>>` take before a number: a minus wraps around. */
  function Signed(sign: string, magnitude: Option<nat>): Option<nat>
    requires magnitude.ValueOr(0) <= MAX_U64
  {
    match magnitude
    case None => None
    case Some(n) => if sign == "-" && n > 0 then Some(MAX_U64 + 1 - n) else Some(n)
  }

  function SignOf(s: string): string {
    if s != "" && (s[0] == '+' || s[0] == '-') then s[..1] else ""
  }

  /**
   * The tokens that the parsers built on `strtoull` accept: the text up to a null byte, which must be
   * one number, blanks and a sign before it allowed, except that a minus may not come first.
   */
  function ParseToken(token: string): Option<nat> {
    if token == "" || token[0] == '-' then None
    else
      var text := SkipSpace(token[..Find(token, '\0')]);
      Signed(SignOf(text), ParseBounded(text[|SignOf(text)|..], MAX_U64))
  }

  /** Plain digits are read as what they denote, if 64 bits hold it. */
  lemma PlainToken(digits: string)
    requires digits != "" && AllDigits(digits)
    ensures ParseToken(digits) == ParseBounded(digits, MAX_U64)
  {
    assert IsDigit(digits[0]);
    assert Find(digits, '\0') == |digits|;
    assert digits[..|digits|] == digits && digits[0..] == digits;
  }

  predicate AllSpace(s: string) {
    forall i | 0 <= i < |s| :: IsSpace(s[i])
  }

  lemma {:induction false} SpaceIsSkipped(blanks: string, rest: string)
    requires AllSpace(blanks) && (rest == "" || !IsSpace(rest[0]))
    ensures SkipSpace(blanks + rest) == rest
  {
    if blanks == "" {
      assert blanks + rest == rest;
    } else {
      assert (blanks + rest)[1..] == blanks[1..] + rest;
      SpaceIsSkipped(blanks[1..], rest);
    }
  }

  /** With blanks or a sign in front: a plus says nothing, and a minus behind blanks wraps around. */
  lemma SignedToken(blanks: string, sign: char, digits: string)
    requires AllSpace(blanks) && digits != "" && AllDigits(digits) && (sign == '+' || sign == '-')
    ensures var n := ParseBounded(digits, 0xffff_ffff_ffff_ffff);
            ParseToken(blanks + ([sign] + digits)) ==
              if n.None? || (blanks == "" && sign == '-') then None
              else if sign == '-' && n.value > 0 then Some(0x1_0000_0000_0000_0000 - n.value)
              else n
  {
    var text := [sign] + digits;
    var token := blanks + text;
    assert forall i | 0 <= i < |text| :: text[i] == sign || IsDigit(text[i]);
    assert forall i | 0 <= i < |token| :: token[i] == if i < |blanks| then blanks[i] else text[i - |blanks|];
    assert Find(token, '\0') == |token| && token[..|token|] == token;
    SpaceIsSkipped(blanks, text);
    assert text[..1] == [sign] && text[1..] == digits;
  }

  /**
   * The digit loop of the strict parsers. The overflow guard tests before it multiplies, so the
   * accumulator never exceeds `max`; the guard is exact, it never refuses a number that fits.
   */
  method ParseDigits(token: string, max: nat) returns (r: Option<nat>)
    requires 9 <= max
    ensures r == ParseBounded(token, max)
  {
    if token == "" {
      return None;
    }
    var parsed: nat := 0;
    for i := 0 to |token|
      invariant AllDigits(token[..i])
      invariant parsed == Value(token[..i]) <= max
    {
      var c := token[i];
      if c < '0' || c > '9' {
        return None;
      }
      assert token[..i + 1][..i] == token[..i];
      var digit := DigitValue(c);
      if parsed > (max - digit) / 10 {
        if AllDigits(token) {
          ValueOfPrefix(token, i + 1);
        }
        return None;
      }
      parsed := parsed * 10 + digit;
    }
    assert token[..|token|] == token;
    return Some(parsed);
  }
}
