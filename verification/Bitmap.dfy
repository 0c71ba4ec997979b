/** Single bits of unsigned words: what `w | (1 << k)` and `w & (1 << k) != 0` come to. */
module Bitmap {
  const WORD_BITS := 64

  function Power2(n: nat): nat {
    if n == 0 then 1 else 2 * Power2(n - 1)
  }

  lemma WordsHave64Bits()
    ensures Power2(WORD_BITS) == 0x1_0000_0000_0000_0000
  {
    DoubledPower(8, 8);
    DoubledPower(16, 16);
    DoubledPower(32, 32);
    assert Power2(8) == 256;
  }

  lemma {:induction false} DoubledPower(m: nat, n: nat)
    ensures Power2(m + n) == Power2(m) * Power2(n)
  {
    if n > 0 {
      DoubledPower(m, n - 1);
      assert Power2(m + n) == 2 * Power2(m + n - 1);
    }
  }

  /** `w & (1 << k) != 0` */
  predicate HasBit(w: nat, k: nat) {
    if k == 0 then w % 2 == 1 else HasBit(w / 2, k - 1)
  }

  /** `w | (1 << k)` */
  function WithBit(w: nat, k: nat): nat {
    if k == 0 then (if w % 2 == 1 then w else w + 1) else 2 * WithBit(w / 2, k - 1) + w % 2
  }

  /** Setting a bit sets that bit and no other. */
  lemma {:induction false} SetBit(w: nat, k: nat, j: nat)
    ensures HasBit(WithBit(w, k), j) <==> k == j || HasBit(w, j)
    decreases k + j
  {
    var more := WithBit(w, k);
    if k > 0 {
      assert more % 2 == w % 2 && more / 2 == WithBit(w / 2, k - 1);
      if j > 0 {
        SetBit(w / 2, k - 1, j - 1);
      }
    } else if j > 0 {
      assert more / 2 == w / 2;
    }
  }

  /** A word stays a word. */
  lemma {:induction false} SetBitFits(w: nat, k: nat, n: nat)
    requires w < Power2(n) && k < n
    ensures WithBit(w, k) < Power2(n)
  {
    assert Power2(n) == 2 * Power2(n - 1);
    if k > 0 {
      SetBitFits(w / 2, k - 1, n - 1);
      assert WithBit(w, k) == 2 * WithBit(w / 2, k - 1) + w % 2;
    } else {
      assert w % 2 == 0 ==> w + 1 < Power2(n);
    }
  }

  lemma {:induction false} ZeroFits(n: nat)
    ensures 0 < Power2(n)
  {
    if n > 0 {
      ZeroFits(n - 1);
    }
  }

  lemma {:induction false} NoBitOfZero(k: nat)
    ensures !HasBit(0, k)
  {
    if k > 0 {
      NoBitOfZero(k - 1);
    }
  }
}
