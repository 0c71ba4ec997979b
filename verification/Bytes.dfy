/** Little-endian integers, hexadecimal digests and ASCII text as byte sequences. */
module Bytes {
  type byte = x: int | 0 <= x < 256

  function Power256(width: nat): nat {
    if width == 0 then 1 else 256 * Power256(width - 1)
  }

  function ToLe(n: nat, width: nat): (r: seq<byte>)
    ensures |r| == width
  {
    if width == 0 then [] else [n % 256] + ToLe(n / 256, width - 1)
  }

  function FromLe(s: seq<byte>): nat {
    if s == [] then 0 else s[0] + 256 * FromLe(s[1..])
  }

  lemma {:induction false} LeRoundTrip(n: nat, width: nat)
    requires n < Power256(width)
    ensures FromLe(ToLe(n, width)) == n
  {
    if width > 0 {
      LeRoundTrip(n / 256, width - 1);
      assert ToLe(n, width)[1..] == ToLe(n / 256, width - 1);
    }
  }

  lemma {:induction false} LeCanonical(s: seq<byte>)
    ensures ToLe(FromLe(s), |s|) == s && FromLe(s) < Power256(|s|)
  {
    if s != [] {
      LeCanonical(s[1..]);
      assert FromLe(s) % 256 == s[0] && FromLe(s) / 256 == FromLe(s[1..]);
      assert s == [s[0]] + s[1..];
    }
  }

  /** The least significant byte comes first. */
  lemma LeastByteFirst(s: seq<byte>)
    ensures |s| == 2 ==> FromLe(s) == s[0] as int + 0x100 * s[1] as int
    ensures |s| == 4 ==> FromLe(s) == s[0] as int + 0x100 * s[1] as int + 0x1_0000 * s[2] as int + 0x100_0000 * s[3] as int
  {
    if |s| == 2 {
      assert s[1..] == [s[1]];
    } else if |s| == 4 {
      assert s[1..] == [s[1], s[2], s[3]] && s[1..][1..] == [s[2], s[3]] && s[1..][1..][1..] == [s[3]];
    }
  }

  function Code(c: char): byte
    requires c as int < 128
  {
    c as int
  }

  function Ascii(text: string): (r: seq<byte>)
    requires forall i :: 0 <= i < |text| ==> text[i] as int < 128
    ensures |r| == |text|
    ensures forall i :: 0 <= i < |r| ==> r[i] == text[i] as int
  {
    seq(|text|, i requires 0 <= i < |text| => Code(text[i]))
  }

  function Zeros(n: nat): (r: seq<byte>)
    ensures |r| == n && forall i :: 0 <= i < n ==> r[i] == 0
  {
    seq(n, _ => 0)
  }

  // ----- hexadecimal digests -----

  predicate IsHexDigit(b: byte) {
    48 <= b <= 57 || 97 <= b <= 102
  }

  /** A lower-case SHA-256 digest, as text. */
  predicate IsSha256(text: seq<byte>) {
    |text| == 64 && forall b <- text :: IsHexDigit(b)
  }

  function Nibble(b: byte): nat
    requires IsHexDigit(b)
  {
    if b <= 57 then b - 48 else b - 87
  }

  function HexDigit(n: nat): byte
    requires n < 16
  {
    if n < 10 then n + 48 else n + 87
  }

  /** Two digits a byte. */
  function DecodeHex(text: seq<byte>): (r: seq<byte>)
    requires |text| % 2 == 0 && forall b <- text :: IsHexDigit(b)
    ensures |r| == |text| / 2
  {
    if text == [] then []
    else
      assert text[0] in text && text[1] in text;
      [16 * Nibble(text[0]) + Nibble(text[1])] + DecodeHex(text[2..])
  }

  function EncodeHex(s: seq<byte>): (r: seq<byte>)
    ensures |r| == 2 * |s| && forall b <- r :: IsHexDigit(b)
  {
    if s == [] then [] else [HexDigit(s[0] / 16), HexDigit(s[0] % 16)] + EncodeHex(s[1..])
  }

  lemma {:induction false} HexRoundTrip(s: seq<byte>)
    ensures DecodeHex(EncodeHex(s)) == s
  {
    if s != [] {
      HexRoundTrip(s[1..]);
      assert EncodeHex(s)[2..] == EncodeHex(s[1..]);
    }
  }

  lemma PairCanonical(a: byte, b: byte)
    requires IsHexDigit(a) && IsHexDigit(b)
    ensures var n := 16 * Nibble(a) + Nibble(b);
            n < 256 && HexDigit(n / 16) == a && HexDigit(n % 16) == b
  {
  }

  /** Each digit stands for its place among the sixteen. */
  lemma HexDigitsInOrder(n: nat)
    requires n < 16
    ensures HexDigit(n) == Ascii("0123456789abcdef")[n]
  {
  }

  lemma {:induction false} HexCanonical(text: seq<byte>)
    requires |text| % 2 == 0 && forall b <- text :: IsHexDigit(b)
    ensures EncodeHex(DecodeHex(text)) == text
    decreases |text|
  {
    if text != [] {
      hide Nibble, HexDigit;
      assert text[0] in text && text[1] in text;
      HexCanonical(text[2..]);
      PairCanonical(text[0], text[1]);
      var first := 16 * Nibble(text[0]) + Nibble(text[1]);
      assert DecodeHex(text) == [first] + DecodeHex(text[2..]);
      assert DecodeHex(text)[1..] == DecodeHex(text[2..]);
      assert text == [text[0], text[1]] + text[2..];
    }
  }
}
