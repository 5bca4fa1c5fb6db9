/** Account identifiers: 128-bit values and their canonical text. */
module Guids {

  /** 2^128: 32 hex digits. */
  const Bound: nat := Pow16(32)

  /** A `Guid`, read as the 128-bit number its canonical text spells in hex. */
  type Guid = g: int | 0 <= g < Bound

  /** `Guid.Empty`, the value of a freshly constructed entity's id. */
  const Empty: Guid := 0

  function Pow16(n: nat): (p: nat)
    ensures p > 0
  {
    if n == 0 then 1 else 16 * Pow16(n - 1)
  }

  function HexDigit(d: int): (c: char)
    requires 0 <= d < 16
  {
    if d < 10 then ('0' as int + d) as char else ('a' as int + d - 10) as char
  }

  function DigitValue(c: char): (v: nat)
    ensures v < 16
  {
    if '0' <= c <= '9' then c as int - '0' as int
    else if 'a' <= c <= 'f' then c as int - 'a' as int + 10
    else 0
  }

  /** The low `width` hex digits of `n`, most significant first. */
  function Hex(n: nat, width: nat): (s: string)
    ensures |s| == width
  {
    if width == 0 then "" else Hex(n / 16, width - 1) + [HexDigit(n % 16)]
  }

  /** The number a string of hex digits spells. */
  function HexValue(s: string): nat {
    if s == [] then 0 else 16 * HexValue(s[..|s| - 1]) + DigitValue(s[|s| - 1])
  }

  lemma {:induction false} HexRoundTrip(n: nat, width: nat)
    requires n < Pow16(width)
    ensures HexValue(Hex(n, width)) == n
  {
    if width > 0 {
      var s := Hex(n, width);
      assert s[..|s| - 1] == Hex(n / 16, width - 1);
      HexRoundTrip(n / 16, width - 1);
    }
  }

  /** `Guid.ToString()`, the "D" format: 32 lower-case hex digits in groups
      of 8, 4, 4, 4 and 12 separated by '-'. */
  function ToString(g: Guid): (s: string)
    ensures |s| == 36
    ensures s[8] == '-' && s[13] == '-' && s[18] == '-' && s[23] == '-'
  {
    var h := Hex(g, 32);
    h[..8] + "-" + h[8..12] + "-" + h[12..16] + "-" + h[16..20] + "-" + h[20..]
  }

  /** The digits of a "D"-format text with its separators removed. */
  function Digits(s: string): (d: string)
    requires |s| == 36
    ensures |d| == 32
  {
    s[..8] + s[9..13] + s[14..18] + s[19..23] + s[24..]
  }

  /** The text of a Guid spells it back. */
  lemma ToStringRoundTrip(g: Guid)
    ensures HexValue(Digits(ToString(g))) == g
  {
    var h := Hex(g, 32);
    var s := ToString(g);
    assert s[..8] == h[..8] && s[9..13] == h[8..12] && s[14..18] == h[12..16];
    assert s[19..23] == h[16..20] && s[24..] == h[20..];
    assert h == h[..8] + h[8..12] + h[12..16] + h[16..20] + h[20..];
    HexRoundTrip(g, 32);
  }

  /** Distinct Guids have distinct texts. */
  lemma ToStringInjective(a: Guid, b: Guid)
    ensures ToString(a) == ToString(b) ==> a == b
  {
    ToStringRoundTrip(a);
    ToStringRoundTrip(b);
  }
}
