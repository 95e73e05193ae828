/** Option, shared by the modules of this project. */
module Options {
  datatype Option<+T> = None | Some(value: T)
}

/**
  Big-endian byte strings (math/big's SetBytes, Bytes and FillBytes, that is I2OSP
  and OS2IP of section 4 of RFC 8017) and hexadecimal text (encoding/hex).
 */
module Codec {
  import opened Options
  import opened NumberTheory

  type Byte = x: int | 0 <= x < 256 witness 0

  // ---------- Integers and bytes ----------

  function FromBytes(bs: seq<Byte>): nat {
    if |bs| == 0 then 0 else 256 * FromBytes(bs[..|bs| - 1]) + bs[|bs| - 1]
  }

  /** Writes x into exactly `width` bytes; None where FillBytes panics. */
  function FillBytes(x: nat, width: nat): (r: Option<seq<Byte>>)
    ensures r.Some? <==> x < Pow(256, width)
    ensures r.Some? ==> |r.value| == width && FromBytes(r.value) == x
    decreases width
  {
    if width == 0 then
      if x == 0 then Some([]) else None
    else
      match FillBytes(x / 256, width - 1)
      case None => None
      case Some(high) =>
        assert (high + [x % 256])[..width - 1] == high;
        Some(high + [x % 256])
  }

  /** The shortest big-endian form, empty for zero. */
  function MinimalBytes(x: nat): (bs: seq<Byte>)
    ensures FromBytes(bs) == x
    ensures bs != [] ==> bs[0] != 0
    ensures bs == [] <==> x == 0
  {
    if x == 0 then []
    else
      var high := MinimalBytes(x / 256);
      assert (high + [x % 256])[..|high|] == high;
      high + [x % 256]
  }

  /** big.Int.BitLen. */
  function BitLen(n: nat): nat {
    if n == 0 then 0 else 1 + BitLen(n / 2)
  }

  /** The bit length is the least exponent of two above n. */
  lemma {:induction false} BitLenTight(n: nat)
    ensures n < Pow(2, BitLen(n))
    ensures n > 0 ==> Pow(2, BitLen(n) - 1) <= n
    decreases n
  {
    if n > 0 {
      BitLenTight(n / 2);
      if n / 2 > 0 {
        assert Pow(2, BitLen(n) - 1) == 2 * Pow(2, BitLen(n / 2) - 1);
      }
    }
  }

  lemma {:induction false} PowMonotone(b: nat, x: nat, y: nat)
    requires b >= 1 && x <= y
    ensures 1 <= Pow(b, x) <= Pow(b, y)
    decreases y
  {
    if x < y {
      PowMonotone(b, x, y - 1);
      MulAtLeast(Pow(b, y - 1), b);
    } else if x > 0 {
      PowMonotone(b, x - 1, y - 1);
      MulAtLeast(Pow(b, y - 1), b);
    }
  }

  /** The byte width of a modulus: (BitLen + 7) / 8. */
  function ByteWidth(n: nat): nat {
    (BitLen(n) + 7) / 8
  }

  /** No smaller width would do for the modulus itself. */
  lemma {:induction false} WidthTight(n: nat)
    requires n > 0
    ensures ByteWidth(n) > 0 && Pow(256, ByteWidth(n) - 1) <= n
  {
    BitLenTight(n);
    var w := ByteWidth(n) - 1;
    PowMul(2, 8, w);
    PowMonotone(2, 8 * w, BitLen(n) - 1);
    TwoToEight();
  }

  lemma {:induction false} TwoToEight()
    ensures Pow(2, 8) == 256
  {
    assert Pow(2, 2) == 4;
    PowAdd(2, 2, 2);
    PowAdd(2, 4, 4);
  }

  /** Every number up to the modulus fits its byte width. */
  lemma {:induction false} WidthFits(x: nat, n: nat)
    requires x <= n
    ensures x < Pow(256, ByteWidth(n))
  {
    BitLenTight(n);
    var w := ByteWidth(n);
    PowMonotone(2, BitLen(n), 8 * w);
    PowMul(2, 8, w);
    TwoToEight();
  }

  // ---------- Hexadecimal ----------

  function HexDigit(v: nat): char
    requires v < 16
  {
    if v < 10 then '0' + v as char else 'a' + (v - 10) as char
  }

  function HexValue(c: char): Option<nat> {
    if '0' <= c <= '9' then Some(c as int - '0' as int)
    else if 'a' <= c <= 'f' then Some(c as int - 'a' as int + 10)
    else if 'A' <= c <= 'F' then Some(c as int - 'A' as int + 10)
    else None
  }

  lemma {:induction false} HexValueDigit(v: nat)
    requires v < 16
    ensures HexValue(HexDigit(v)) == Some(v)
  {
  }

  function EncodeHex(bs: seq<Byte>): string {
    if |bs| == 0 then ""
    else [HexDigit(bs[0] / 16), HexDigit(bs[0] % 16)] + EncodeHex(bs[1..])
  }

  /** hex.DecodeString: None on a bad digit or an odd length. */
  function DecodeHex(s: string): Option<seq<Byte>> {
    if |s| == 0 then Some([])
    else if |s| == 1 then None
    else
      match (HexValue(s[0]), HexValue(s[1]), DecodeHex(s[2..]))
      case (Some(h), Some(l), Some(rest)) =>
        if h < 16 && l < 16 then Some([16 * h + l] + rest) else None
      case _ => None
  }

  function LowerHex(s: string): string {
    seq(|s|, i requires 0 <= i < |s| =>
      if 'A' <= s[i] <= 'F' then (s[i] as int + 32) as char else s[i])
  }

  lemma {:induction false} DecodeEncode(bs: seq<Byte>)
    ensures DecodeHex(EncodeHex(bs)) == Some(bs)
    decreases |bs|
  {
    if |bs| > 0 {
      DecodeEncode(bs[1..]);
      var s := EncodeHex(bs);
      assert s[2..] == EncodeHex(bs[1..]);
      HexValueDigit(bs[0] / 16);
      HexValueDigit(bs[0] % 16);
      assert bs == [bs[0]] + bs[1..];
    }
  }

  ghost predicate HexChar(c: char) {
    '0' <= c <= '9' || 'a' <= c <= 'f' || 'A' <= c <= 'F'
  }

  /** Exactly the even runs of hexadecimal digits, in either case, decode. */
  lemma {:induction false} DecodesIff(s: string)
    ensures DecodeHex(s).Some? <==> |s| % 2 == 0 && forall i :: 0 <= i < |s| ==> HexChar(s[i])
    decreases |s|
  {
    if |s| >= 2 {
      var rest := s[2..];
      DecodesIff(rest);
      assert HexValue(s[0]).Some? <==> HexChar(s[0]);
      assert HexValue(s[1]).Some? <==> HexChar(s[1]);
      assert forall i :: 2 <= i < |s| ==> s[i] == rest[i - 2];
    }
  }

  /** Decoding loses nothing but the case of the digits. */
  lemma {:induction false} EncodeDecode(s: string)
    requires DecodeHex(s).Some?
    ensures EncodeHex(DecodeHex(s).value) == LowerHex(s)
    decreases |s|
  {
    if |s| > 0 {
      var bs := DecodeHex(s).value;
      EncodeDecode(s[2..]);
      assert bs[1..] == DecodeHex(s[2..]).value;
      var h, l := HexValue(s[0]).value, HexValue(s[1]).value;
      DigitLower(s[0]);
      DigitLower(s[1]);
      assert bs[0] == 16 * h + l;
      assert bs[0] / 16 == h && bs[0] % 16 == l;
      LowerHexSplit(s);
    }
  }

  lemma {:induction false} LowerHexSplit(s: string)
    requires |s| >= 2
    ensures LowerHex(s) == LowerHex([s[0]]) + LowerHex([s[1]]) + LowerHex(s[2..])
  {
  }

  lemma {:induction false} DigitLower(c: char)
    requires HexValue(c).Some?
    ensures HexValue(c).value < 16
    ensures [HexDigit(HexValue(c).value)] == LowerHex([c])
  {
  }

  /** The integer a hexadecimal string denotes. */
  function DecodeInt(s: string): Option<nat> {
    match DecodeHex(s)
    case None => None
    case Some(bs) => Some(FromBytes(bs))
  }
}
