/** Rust's fixed-width integers as the backends use them, and the parts of
    `from_str_radix`, `parse` and `format!` that turn them into text and back. */
module Numbers {
  import opened Wrappers

  const U32_MAX: int := 0xFFFF_FFFF
  const I32_MIN: int := -0x8000_0000
  const I32_MAX: int := 0x7FFF_FFFF
  const TWO_32: int := 0x1_0000_0000
  const U64_MAX: int := 0xFFFF_FFFF_FFFF_FFFF

  type u32 = n: int | 0 <= n <= U32_MAX
  type u64 = n: int | 0 <= n <= U64_MAX

  /** `c.to_digit(radix)`: `0`-`9`, then `a`-`z` or `A`-`Z` for 10 to 35, if below `radix`. */
  function DigitValue(c: char, radix: nat): (r: Option<nat>)
    requires 2 <= radix <= 36
    ensures r.Some? ==> r.value < radix
    ensures c == '+' || c == '-' ==> r.None?
  {
    var v := if '0' <= c <= '9' then c as int - '0' as int
             else if 'a' <= c <= 'z' then c as int - 'a' as int + 10
             else if 'A' <= c <= 'Z' then c as int - 'A' as int + 10
             else 36;
    if v < radix then Some(v) else None
  }

  /** The value of a string of digits, most significant first, or `None` when
      some character is not a digit of `radix`. */
  function DigitsValue(s: string, radix: nat): (r: Option<nat>)
    requires 2 <= radix <= 36
    ensures r.Some? <==> forall i | 0 <= i < |s| :: DigitValue(s[i], radix).Some?
    decreases |s|
  {
    if s == [] then Some(0)
    else
      var init := s[..|s| - 1];
      assert forall i | 0 <= i < |s| - 1 :: init[i] == s[i];
      match DigitsValue(init, radix)
      case None => None
      case Some(v) =>
        match DigitValue(s[|s| - 1], radix)
        case None => None
        case Some(d) => Some(v * radix + d)
  }

  /** `u32::from_str_radix(s, radix)`, which `s.parse::<u32>()` is for radix 10:
      an optional `+`, then at least one digit, and a value that fits in 32 bits.
      Every failure (empty text, a stray character, overflow) is `None`. */
  function ParseU32(s: string, radix: nat): (r: Option<u32>)
    requires 2 <= radix <= 36
    ensures r.Some? ==> s != [] && s != "+" && s[0] != '-'
  {
    if s == [] then None
    else
      var digits := if s[0] == '+' && |s| > 1 then s[1..] else s;
      match DigitsValue(digits, radix)
      case Some(v) => if v <= U32_MAX then Some(v) else None
      case None => None
  }

  /** The lower-case digit for `d`, as `format!` writes it. */
  function DigitChar(d: nat): (c: char)
    requires d < 16
    ensures DigitValue(c, 16) == Some(d)
    ensures d < 10 ==> DigitValue(c, 10) == Some(d)
    ensures c != '+' && c != '-'
  {
    if d < 10 then ('0' as int + d) as char else ('a' as int + d - 10) as char
  }

  /** `format!("{}", n)` (radix 10) and `format!("{:x}", n)` (radix 16): the
      shortest digit string of `n`, with no sign and no leading zero. */
  function Digits(n: nat, radix: nat): (s: string)
    requires radix == 10 || radix == 16
    ensures s != [] && s[0] != '-'
    decreases n
  {
    if n < radix then [DigitChar(n)]
    else
      var init := Digits(n / radix, radix);
      init + [DigitChar(n % radix)]
  }

  function Pow16(k: nat): (p: nat)
    ensures p >= 1
  {
    if k == 0 then 1 else 16 * Pow16(k - 1)
  }

  /** Exactly `width` lower-case hex digits of `n`, zero-padded on the left. */
  function FixedHex(n: nat, width: nat): (s: string)
    requires n < Pow16(width)
    ensures |s| == width
    decreases width
  {
    if width == 0 then []
    else
      var init := FixedHex(n / 16, width - 1);
      var s := init + [DigitChar(n % 16)];
      assert s[..|s| - 1] == init;
      s
  }

  /** `format!("{:08x}", n)`: every u32 has at most eight hex digits. */
  function Hex8(n: u32): (s: string)
    ensures |s| == 8
  {
    assert Pow16(8) == TWO_32;
    FixedHex(n, 8)
  }

  /** `format!("{}", i)` for a signed integer. */
  function FormatInt(i: int): (s: string)
    ensures i < 0 <==> (s != [] && s[0] == '-')
  {
    if i < 0 then "-" + Digits(-i, 10) else Digits(i, 10)
  }

  /** `n as i32`: the same 32 bits read as two's complement. */
  function AsI32(n: u32): (r: int)
    ensures I32_MIN <= r <= I32_MAX
    ensures (r - n) % TWO_32 == 0
    ensures r == n <==> n <= I32_MAX
  {
    if n <= I32_MAX then n else n - TWO_32
  }

  /** `n as u32` for a u64: the low 32 bits. */
  function Low32(n: u64): (r: u32)
    ensures (n - r) % TWO_32 == 0
    ensures n <= U32_MAX ==> r == n
  {
    n % TWO_32
  }

  /** `parse` and `from_str_radix` read back what `{}` and `{:x}` write. */
  lemma ParseDigitsRoundTrip(n: u32, radix: nat)
    requires radix == 10 || radix == 16
    ensures ParseU32(Digits(n, radix), radix) == Some(n)
  {
    var s := Digits(n, radix);
    DigitsValueOfDigits(n, radix);
    assert DigitValue(s[0], radix).Some?;
  }

  /** The digits `{}` and `{:x}` write have the value written. */
  lemma {:induction false} DigitsValueOfDigits(n: nat, radix: nat)
    requires radix == 10 || radix == 16
    ensures DigitsValue(Digits(n, radix), radix) == Some(n)
    decreases n
  {
    if radix == 10 {
      if n < 10 {
        DigitsValueSnoc([], DigitChar(n), 10);
        assert [] + [DigitChar(n)] == Digits(n, 10);
      } else {
        assert Digits(n, 10) == Digits(n / 10, 10) + [DigitChar(n % 10)];
        DigitsValueOfDigits(n / 10, 10);
        DigitsValueSnoc(Digits(n / 10, 10), DigitChar(n % 10), 10);
      }
    } else {
      if n < 16 {
        DigitsValueSnoc([], DigitChar(n), 16);
        assert [] + [DigitChar(n)] == Digits(n, 16);
      } else {
        assert Digits(n, 16) == Digits(n / 16, 16) + [DigitChar(n % 16)];
        DigitsValueOfDigits(n / 16, 16);
        DigitsValueSnoc(Digits(n / 16, 16), DigitChar(n % 16), 16);
      }
    }
  }

  /** One more digit on the right multiplies the value by the radix and adds the digit. */
  lemma DigitsValueSnoc(init: string, c: char, radix: nat)
    requires 2 <= radix <= 36
    requires DigitsValue(init, radix).Some? && DigitValue(c, radix).Some?
    ensures DigitsValue(init + [c], radix) ==
      Some(DigitsValue(init, radix).value * radix + DigitValue(c, radix).value)
  {
    assert (init + [c])[..|init|] == init;
  }

  /** The digits `{}` and `{:x}` write have no leading zero. */
  lemma {:induction false} DigitsNoLeadingZero(n: nat, radix: nat)
    requires radix == 10 || radix == 16
    requires n > 0
    ensures Digits(n, radix)[0] != '0'
    decreases n
  {
    if n >= radix {
      DigitsNoLeadingZero(n / radix, radix);
    } else {
      assert DigitValue(DigitChar(n), radix) == Some(n);
    }
  }

  /** The digits `{:0w$x}` writes have the value written. */
  lemma {:induction false} FixedHexValue(n: nat, width: nat)
    requires n < Pow16(width)
    ensures DigitsValue(FixedHex(n, width), 16) == Some(n)
    decreases width
  {
    if width > 0 {
      FixedHexValue(n / 16, width - 1);
      var s := FixedHex(n, width);
      assert s[..|s| - 1] == FixedHex(n / 16, width - 1);
    }
  }

  /** `from_str_radix(_, 16)` reads back what `{:08x}` writes. */
  lemma ParseHex8RoundTrip(n: u32)
    ensures ParseU32(Hex8(n), 16) == Some(n)
  {
    var s := Hex8(n);
    assert Pow16(8) == TWO_32;
    FixedHexValue(n, 8);
    assert DigitValue(s[0], 16).Some?;
  }

  lemma DigitCharOfValue(c: char)
    requires '0' <= c <= '9' || 'a' <= c <= 'f'
    ensures DigitValue(c, 16).Some? && DigitChar(DigitValue(c, 16).value) == c
  {
  }

  /** `from_str_radix(_, 16)` is the inverse of `{:08x}` on every string it accepts
      that has the form `{:08x}` writes: eight lower-case hex digits. */
  lemma {:induction false} FixedHexOfValue(s: string, n: nat)
    requires forall i | 0 <= i < |s| :: '0' <= s[i] <= '9' || 'a' <= s[i] <= 'f'
    requires DigitsValue(s, 16) == Some(n)
    ensures n < Pow16(|s|) && FixedHex(n, |s|) == s
    decreases |s|
  {
    if s != [] {
      var init := s[..|s| - 1];
      assert forall i | 0 <= i < |init| :: init[i] == s[i];
      var v := DigitsValue(init, 16).value;
      var d := DigitValue(s[|s| - 1], 16).value;
      FixedHexOfValue(init, v);
      assert n == v * 16 + d;
      HexStep(v, d, Pow16(|s| - 1));
      DigitCharOfValue(s[|s| - 1]);
      assert FixedHex(n, |s|) == FixedHex(v, |s| - 1) + [DigitChar(d)];
      assert s == init + [s[|s| - 1]];
    }
  }

  /** Appending one hex digit `d` to a value `v` below `p`. */
  lemma HexStep(v: nat, d: nat, p: nat)
    requires d < 16 && v < p
    ensures (v * 16 + d) / 16 == v && (v * 16 + d) % 16 == d
    ensures v * 16 + d < 16 * p
  {
  }
}
