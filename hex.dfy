/** The brightness codec of the wLightBoxS client: a level is sent to the
    device as `format(level, '02x')` and read back with `int(desiredColor, 16)`. */
module Hex {

  /** A digit `int(_, 16)` accepts, in either case. */
  predicate IsHexDigit(c: char) {
    '0' <= c <= '9' || 'a' <= c <= 'f' || 'A' <= c <= 'F'
  }

  /** A digit `format(_, 'x')` can produce. */
  predicate IsLowerHexDigit(c: char) {
    '0' <= c <= '9' || 'a' <= c <= 'f'
  }

  /** A string `int(_, 16)` parses: at least one digit, and digits only. */
  predicate IsHex(s: string) {
    |s| > 0 && forall i :: 0 <= i < |s| ==> IsHexDigit(s[i])
  }

  predicate IsLowerHex(s: string) {
    forall i :: 0 <= i < |s| ==> IsLowerHexDigit(s[i])
  }

  function Pow16(k: nat): (r: nat)
    ensures r >= 1
  {
    if k == 0 then 1 else 16 * Pow16(k - 1)
  }

  lemma {:induction false} Pow16Monotone(j: nat, k: nat)
    requires j <= k
    ensures Pow16(j) <= Pow16(k)
  {
    if j < k {
      Pow16Monotone(j, k - 1);
    }
  }

  /** The lowercase digit of a value below sixteen. */
  function DigitChar(d: nat): (c: char)
    requires d < 16
    ensures IsLowerHexDigit(c)
  {
    if d < 10 then ('0' as int + d) as char else ('a' as int + d - 10) as char
  }

  /** The value of one digit, either case. */
  function DigitValue(c: char): (d: nat)
    requires IsHexDigit(c)
    ensures d < 16
  {
    if '0' <= c <= '9' then c as int - '0' as int
    else if 'a' <= c <= 'f' then c as int - 'a' as int + 10
    else c as int - 'A' as int + 10
  }

  lemma DigitCharValue(c: char)
    requires IsLowerHexDigit(c)
    ensures DigitChar(DigitValue(c)) == c
  {
  }

  /** The base-16 digits of `n`, most significant first, without leading
      zeros: `format(n, 'x')`. */
  function Digits(n: nat): (r: string)
    ensures 1 <= |r| && IsLowerHex(r)
    ensures n < Pow16(|r|)
    ensures |r| > 1 ==> Pow16(|r| - 1) <= n
    decreases n
  {
    if n < 16 then [DigitChar(n)] else Digits(n / 16) + [DigitChar(n % 16)]
  }

  /** `format(n, '02x')`: the lowercase digits of `n`, zero-padded to a
      width of at least two. */
  function Encode(n: nat): (r: string)
    ensures |r| >= 2 && IsLowerHex(r)
    ensures n < 256 <==> |r| == 2
  {
    if n < 16 then
      ['0', DigitChar(n)]
    else
      var r := Digits(n);
      assert |r| > 2 ==> 256 <= n by {
        if |r| > 2 { Pow16Monotone(2, |r| - 1); }
      }
      r
  }

  /** `int(s, 16)` on a well-formed string: most significant digit first. */
  function Decode(s: string): (n: nat)
    requires IsHex(s)
    ensures n < Pow16(|s|)
    decreases |s|
  {
    if |s| == 1 then DigitValue(s[0])
    else 16 * Decode(s[..|s| - 1]) + DigitValue(s[|s| - 1])
  }

  lemma {:induction false} DecodeDigits(n: nat)
    ensures IsHex(Digits(n)) && Decode(Digits(n)) == n
    decreases n
  {
    if n >= 16 {
      var r := Digits(n);
      DecodeDigits(n / 16);
      assert r[..|r| - 1] == Digits(n / 16);
    }
  }

  /** Reading back what was sent gives the level back, for every level. */
  lemma {:induction false} DecodeEncode(n: nat)
    ensures IsHex(Encode(n)) && Decode(Encode(n)) == n
  {
    if n < 16 {
      assert Encode(n)[..1] == ['0'];
    } else {
      DecodeDigits(n);
    }
  }

  /** Every two-character lowercase hex string is the encoding of the level
      it parses to, so on `0..255` the codec is a bijection. */
  lemma EncodeDecode(s: string)
    requires |s| == 2 && IsLowerHex(s)
    ensures IsHex(s) && Decode(s) < 256 && Encode(Decode(s)) == s
  {
    var hi, lo := DigitValue(s[0]), DigitValue(s[1]);
    DecodeTwo(s);
    DigitCharValue(s[0]);
    DigitCharValue(s[1]);
    var n := 16 * hi + lo;
    if hi == 0 {
      assert Encode(n) == ['0', DigitChar(lo)];
    } else {
      SplitDigits(hi, lo);
      assert Encode(n) == Digits(hi) + [DigitChar(lo)];
    }
  }

  lemma DecodeTwo(s: string)
    requires |s| == 2 && IsLowerHex(s)
    ensures IsHex(s) && Decode(s) == 16 * DigitValue(s[0]) + DigitValue(s[1])
  {
    assert IsLowerHexDigit(s[0]) && IsLowerHexDigit(s[1]);
    assert s[..1] == [s[0]];
  }

  lemma SplitDigits(hi: nat, lo: nat)
    requires lo < 16
    ensures (16 * hi + lo) / 16 == hi && (16 * hi + lo) % 16 == lo
  {
  }

  lemma EncodeInjective(a: nat, b: nat)
    requires Encode(a) == Encode(b)
    ensures a == b
  {
    DecodeEncode(a);
    DecodeEncode(b);
  }

  /** Single-digit levels are zero-padded and the endpoints of the range are
      `"00"` and `"ff"`. */
  lemma EncodeExamples()
    ensures Encode(0) == "00" && Encode(5) == "05" && Encode(200) == "c8" && Encode(255) == "ff"
    ensures Decode("FF") == 255 && Decode("c8") == 200
  {
    assert Decode("FF"[..1]) == 15;
    assert Decode("c8"[..1]) == 12;
  }
}
