/** Decimal rendering of integers, and the reader that undoes it. */
module Decimal {
  import opened Prelude

  predicate IsDigit(c: char) { '0' <= c <= '9' }

  function DigitChar(d: nat): (c: char)
    requires d < 10
    ensures IsDigit(c) && c as int - '0' as int == d
  {
    ('0' as int + d) as char
  }

  function NatText(n: nat): (s: string)
    ensures s != [] && forall c :: c in s ==> IsDigit(c)
  {
    if n < 10 then [DigitChar(n)] else NatText(n / 10) + [DigitChar(n % 10)]
  }

  /** How Python's str() writes an int. */
  function IntText(n: int): (s: string)
    ensures s != [] && (IsDigit(s[0]) || s[0] == '-')
    ensures forall c :: c in s ==> IsDigit(c) || c == '-'
  {
    if n < 0 then "-" + NatText(-n) else NatText(n)
  }

  /** Consume the leading digits of s, continuing the number acc. */
  function ReadDigits(s: string, acc: nat): (r: (nat, string))
    ensures |r.1| <= |s|
  {
    if s == [] || !IsDigit(s[0]) then (acc, s)
    else ReadDigits(s[1..], 10 * acc + (s[0] as int - '0' as int))
  }

  /** Consume a leading integer: an optional minus sign and at least one digit. */
  function ReadInt(s: string): (r: Option<(int, string)>)
    ensures r.Some? ==> |r.value.1| < |s|
  {
    if s != [] && s[0] == '-' then
      if |s| > 1 && IsDigit(s[1]) then
        var r := ReadDigits(s[1..], 0);
        Some((-(r.0 as int), r.1))
      else None
    else if s != [] && IsDigit(s[0]) then
      var (n, rest) := ReadDigits(s[1..], s[0] as int - '0' as int);
      Some((n, rest))
    else None
  }

  lemma {:induction false} ReadDigitsOfText(n: nat, rest: string)
    ensures ReadDigits(NatText(n) + rest, 0) == ReadDigits(rest, n)
  {
    if n < 10 {
      assert (NatText(n) + rest)[1..] == rest;
    } else {
      var tail := [DigitChar(n % 10)] + rest;
      assert NatText(n) + rest == NatText(n / 10) + tail;
      ReadDigitsOfText(n / 10, tail);
      assert tail[1..] == rest;
    }
  }

  /** Reading an integer back, whatever follows it, as long as that is not another digit. */
  lemma ReadIntOfText(n: int, rest: string)
    requires rest == [] || !IsDigit(rest[0])
    ensures ReadInt(IntText(n) + rest) == Some((n, rest))
  {
    var digits := NatText(if n < 0 then -n else n) + rest;
    ReadDigitsOfText(if n < 0 then -n else n, rest);
    assert ReadDigits(digits, 0) == ReadDigits(digits[1..], digits[0] as int - '0' as int);
    if n < 0 {
      assert (IntText(n) + rest)[1..] == digits;
    }
  }
}
