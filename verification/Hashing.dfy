/** SHA-256 as an unknown function to digests that tells the data at hand apart. */
module Hashing {
  import opened Bytes

  predicate IsDigest(text: string) {
    |text| == 64 && forall i :: 0 <= i < |text| ==> '0' <= text[i] <= '9' || 'a' <= text[i] <= 'f'
  }

  ghost predicate IsSha(sha: seq<byte> -> string) {
    forall data :: IsDigest(sha(data))
  }

  /** No two of the known pieces of data have the same digest. */
  ghost predicate InjectiveOn(sha: seq<byte> -> string, known: set<seq<byte>>) {
    forall a, b :: a in known && b in known && sha(a) == sha(b) ==> a == b
  }

  // ----- there is such a function for every finite set of data -----

  function Power16(n: nat): nat {
    if n == 0 then 1 else 16 * Power16(n - 1)
  }

  function Digit(n: nat): char
    requires n < 16
  {
    "0123456789abcdef"[n]
  }

  function Hex(n: nat, width: nat): (r: string)
    ensures |r| == width && forall i :: 0 <= i < width ==> '0' <= r[i] <= '9' || 'a' <= r[i] <= 'f'
  {
    if width == 0 then "" else Hex(n / 16, width - 1) + [Digit(n % 16)]
  }

  lemma DigitIsInjective(a: nat, b: nat)
    requires a < 16 && b < 16 && Digit(a) == Digit(b)
    ensures a == b
  {
  }

  lemma {:induction false} HexIsInjective(a: nat, b: nat, width: nat)
    requires a < Power16(width) && b < Power16(width) && Hex(a, width) == Hex(b, width)
    ensures a == b
  {
    hide Digit;
    if width > 0 {
      var ha, hb := Hex(a / 16, width - 1), Hex(b / 16, width - 1);
      assert (ha + [Digit(a % 16)])[..width - 1] == ha && (hb + [Digit(b % 16)])[..width - 1] == hb;
      assert (ha + [Digit(a % 16)])[width - 1] == Digit(a % 16);
      assert (hb + [Digit(b % 16)])[width - 1] == Digit(b % 16);
      HexIsInjective(a / 16, b / 16, width - 1);
      DigitIsInjective(a % 16, b % 16);
    }
  }

  ghost predicate Numbers(number: map<seq<byte>, nat>, known: set<seq<byte>>) {
    && number.Keys == known
    && (forall a :: a in number ==> number[a] < |known|)
    && forall a, b :: a in number && b in number && number[a] == number[b] ==> a == b
  }

  lemma {:induction false} Numbering(known: set<seq<byte>>) returns (number: map<seq<byte>, nat>)
    ensures Numbers(number, known)
    decreases |known|
  {
    if known == {} {
      number := map[];
    } else {
      var x :| x in known;
      var fewer := Numbering(known - {x});
      number := fewer[x := |known| - 1];
    }
  }

  /** Every finite set of data, up to the number of digests, has a function to digests that tells it apart. */
  lemma Distinguishable(known: set<seq<byte>>) returns (sha: seq<byte> -> string)
    requires |known| <= Power16(64)
    ensures IsSha(sha) && InjectiveOn(sha, known)
  {
    hide Hex, Power16;
    var number := Numbering(known);
    sha := data => Hex(if data in number then number[data] else 0, 64);
    forall a, b | a in known && b in known && sha(a) == sha(b) ensures a == b {
      HexIsInjective(number[a], number[b], 64);
    }
  }

  lemma {:induction false} ManyDigests(n: nat)
    requires n > 0
    ensures Power16(n) >= 16
  {
    if n > 1 {
      ManyDigests(n - 1);
    }
  }
}
