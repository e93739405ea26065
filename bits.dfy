/**
 * Integer facts behind the FFT lookup table: powers of two, the integer
 * base-2 logarithm, and the 32-bit operations `u32::leading_zeros`,
 * `u32::reverse_bits` and `u32::rotate_left`, written out on naturals and on
 * little-endian bit sequences (element 0 is the least significant bit).
 */
module Bits {

  /** 2^n. */
  function Pow2(n: nat): (r: nat)
    ensures r >= 1
  {
    if n == 0 then 1 else 2 * Pow2(n - 1)
  }

  const U32Limit: nat := 0x1_0000_0000

  lemma {:induction false} Pow2Add(a: nat, b: nat)
    ensures Pow2(a + b) == Pow2(a) * Pow2(b)
  {
    if a > 0 {
      Pow2Add(a - 1, b);
      calc {
        Pow2(a + b);
        2 * Pow2(a - 1 + b);
        2 * (Pow2(a - 1) * Pow2(b));
        (2 * Pow2(a - 1)) * Pow2(b);
      }
    }
  }

  lemma MulMonotone(a: nat, b: nat, d: nat)
    requires a <= b
    ensures a * d <= b * d
  {
  }

  lemma MulSucc(a: nat, b: nat)
    ensures (a + 1) * b == a * b + b
  {
  }

  lemma MulDivCancel(a: nat, d: nat)
    requires d > 0
    ensures (a * d) / d == a && (a * d) % d == 0
  {
    var q, r := (a * d) / d, (a * d) % d;
    assert a * d == q * d + r;
    if a > q {
      MulMonotone(1, a - q, d);
      assert false;
    } else if a < q {
      MulMonotone(1, q - a, d);
      assert false;
    }
  }

  /** Euclidean division is unique: q and r are the quotient and remainder of q * d + r. */
  lemma DivModUnique(y: nat, d: nat, q: nat, r: nat)
    requires d >= 1 && r < d && y == q * d + r
    ensures y / d == q && y % d == r
  {
    var q', r' := y / d, y % d;
    if q' > q {
      MulMonotone(1, q' - q, d);
      assert false;
    } else if q' < q {
      MulMonotone(1, q - q', d);
      assert false;
    }
  }

  lemma {:induction false} Pow2Monotone(a: nat, b: nat)
    requires a <= b
    ensures Pow2(a) <= Pow2(b)
  {
    Pow2Add(a, b - a);
    MulMonotone(1, Pow2(b - a), Pow2(a));
  }

  lemma Pow2Of32()
    ensures Pow2(32) == U32Limit
  {
    assert Pow2(8) == 256;
    Pow2Add(8, 8);
    Pow2Add(16, 16);
  }

  /** floor(log2 n): the exponent of the highest set bit of n. */
  function Log2Floor(n: nat): (k: nat)
    requires n >= 1
    ensures Pow2(k) <= n < Pow2(k + 1)
  {
    if n == 1 then 0 else 1 + Log2Floor(n / 2)
  }

  /** The logarithm is determined by the bracketing powers of two. */
  lemma Log2FloorUnique(n: nat, k: nat)
    requires Pow2(k) <= n < Pow2(k + 1)
    ensures Log2Floor(n) == k
  {
    var j := Log2Floor(n);
    if j < k {
      Pow2Monotone(j + 1, k);
    } else if k < j {
      Pow2Monotone(k + 1, j);
    }
  }

  lemma Log2OfPow2(k: nat)
    ensures Log2Floor(Pow2(k)) == k
  {
    Log2FloorUnique(Pow2(k), k);
  }

  /**
   * Leading zeros of w read as a `width`-bit word (u32::leading_zeros is the
   * case width == 32): counted from the top bit down.
   */
  function LeadingZeros(w: nat, width: nat): (z: nat)
    requires w < Pow2(width)
    ensures z <= width
  {
    if width == 0 then 0
    else if w >= Pow2(width - 1) then 0
    else 1 + LeadingZeros(w, width - 1)
  }

  /** For a non-zero word the highest set bit sits at width - 1 - leading zeros. */
  lemma {:induction false} LeadingZerosBracket(w: nat, width: nat)
    requires 1 <= w < Pow2(width)
    ensures LeadingZeros(w, width) < width
    ensures Pow2(width - 1 - LeadingZeros(w, width)) <= w < Pow2(width - LeadingZeros(w, width))
  {
    if w < Pow2(width - 1) {
      LeadingZerosBracket(w, width - 1);
    }
  }

  /** `31 - w.leading_zeros()` is floor(log2 w) for every non-zero u32. */
  lemma LeadingZerosIsLog2(w: nat)
    requires 1 <= w < U32Limit
    ensures w < Pow2(32)
    ensures LeadingZeros(w, 32) <= 31
    ensures 31 - LeadingZeros(w, 32) == Log2Floor(w)
  {
    Pow2Of32();
    LeadingZerosBracket(w, 32);
    Log2FloorUnique(w, 31 - LeadingZeros(w, 32));
  }

  // ---------------------------------------------------------------------
  // Bit sequences

  /** The low n bits of i, least significant first. */
  function ToBits(i: nat, n: nat): (b: seq<bool>)
    ensures |b| == n
  {
    if n == 0 then [] else [i % 2 == 1] + ToBits(i / 2, n - 1)
  }

  /** The number whose bits, least significant first, are b. */
  function FromBits(b: seq<bool>): (v: nat)
    ensures v < Pow2(|b|)
  {
    if b == [] then 0 else (if b[0] then 1 else 0) + 2 * FromBits(b[1..])
  }

  function Reverse<T>(s: seq<T>): (r: seq<T>)
    ensures |r| == |s|
    ensures forall k :: 0 <= k < |s| ==> r[k] == s[|s| - 1 - k]
  {
    if s == [] then [] else Reverse(s[1..]) + [s[0]]
  }

  function Zeros(n: nat): (z: seq<bool>)
    ensures |z| == n && forall k :: 0 <= k < n ==> !z[k]
  {
    seq(n, _ => false)
  }

  /** Reading back the bits of i < 2^n gives i. */
  lemma {:induction false} FromToBits(i: nat, n: nat)
    requires i < Pow2(n)
    ensures FromBits(ToBits(i, n)) == i
  {
    if n > 0 {
      FromToBits(i / 2, n - 1);
      assert ToBits(i, n)[1..] == ToBits(i / 2, n - 1);
    }
  }

  /** Taking the bits of FromBits(b) gives b back. */
  lemma {:induction false} ToFromBits(b: seq<bool>)
    ensures ToBits(FromBits(b), |b|) == b
  {
    if b != [] {
      ToFromBits(b[1..]);
      var v := FromBits(b);
      assert v / 2 == FromBits(b[1..]);
      assert (v % 2 == 1) == b[0];
    }
  }

  /** Zero bits above the top do not change the value. */
  lemma {:induction false} FromBitsZeroPad(b: seq<bool>, n: nat)
    ensures FromBits(b + Zeros(n)) == FromBits(b)
  {
    if b == [] {
      ZerosValue(n);
      assert b + Zeros(n) == Zeros(n);
    } else {
      FromBitsZeroPad(b[1..], n);
      assert (b + Zeros(n))[1..] == b[1..] + Zeros(n);
    }
  }

  lemma {:induction false} ZerosValue(n: nat)
    ensures FromBits(Zeros(n)) == 0
  {
    if n > 0 {
      ZerosValue(n - 1);
      assert Zeros(n)[1..] == Zeros(n - 1);
    }
  }

  /** The bits of i < 2^s over 32 positions are its s bits followed by zeros. */
  lemma {:induction false} ToBitsPad(i: nat, s: nat, m: nat)
    requires i < Pow2(s)
    ensures ToBits(i, s + m) == ToBits(i, s) + Zeros(m)
  {
    if s == 0 {
      ToBitsOfZero(m);
    } else {
      ToBitsPad(i / 2, s - 1, m);
      assert s + m - 1 == (s - 1) + m;
    }
  }

  lemma {:induction false} ToBitsOfZero(m: nat)
    ensures ToBits(0, m) == Zeros(m)
  {
    if m > 0 {
      ToBitsOfZero(m - 1);
      assert Zeros(m) == [false] + Zeros(m - 1);
    }
  }

  /** The n-bit reversal of i: bit b of i becomes bit n - 1 - b. */
  function RevBits(i: nat, n: nat): (r: nat)
    ensures r < Pow2(n)
  {
    FromBits(Reverse(ToBits(i, n)))
  }

  /** u32::reverse_bits. */
  function ReverseBits32(i: nat): (r: nat)
    requires i < U32Limit
    ensures r < U32Limit
  {
    Pow2Of32();
    RevBits(i, 32)
  }

  /** u32::rotate_left by s < 32 bits: bit j moves to bit (j + s) mod 32. */
  function RotateLeft32(x: nat, s: nat): (r: nat)
    requires x < U32Limit && s < 32
    ensures r < U32Limit
  {
    Pow2Of32();
    var b := ToBits(x, 32);
    FromBits(b[32 - s..] + b[..32 - s])
  }

  /**
   * `i.reverse_bits().rotate_left(s)` on a u32 is the s-bit reversal of i,
   * for every i < 2^s.
   */
  lemma ReverseThenRotate(i: nat, s: nat)
    requires s < 32 && i < Pow2(s)
    ensures i < U32Limit
    ensures RotateLeft32(ReverseBits32(i), s) == RevBits(i, s)
  {
    Pow2Of32();
    Pow2Monotone(s, 32);
    var low := ToBits(i, s);
    var rev := ReversedWord(i, s);
    ToFromBits(rev);
    assert |rev| == 32;
    assert ToBits(ReverseBits32(i), 32) == rev;
    assert rev[32 - s..] == Reverse(low);
    assert rev[..32 - s] == Zeros(32 - s);
    FromBitsZeroPad(Reverse(low), 32 - s);
  }

  /** The 32 reversed bits of i < 2^s: zeros in the low places, then the s reversed bits. */
  lemma ReversedWordShape(i: nat, s: nat)
    requires s <= 32 && i < Pow2(s)
    ensures Reverse(ToBits(i, 32)) == Zeros(32 - s) + Reverse(ToBits(i, s))
  {
    ToBitsPad(i, s, 32 - s);
    ReverseAppend(ToBits(i, s), Zeros(32 - s));
    assert Reverse(Zeros(32 - s)) == Zeros(32 - s);
  }

  function ReversedWord(i: nat, s: nat): (w: seq<bool>)
    requires s <= 32 && i < Pow2(s)
    ensures w == Reverse(ToBits(i, 32))
  {
    ReversedWordShape(i, s);
    Zeros(32 - s) + Reverse(ToBits(i, s))
  }

  lemma ReverseAppend<T>(a: seq<T>, b: seq<T>)
    ensures Reverse(a + b) == Reverse(b) + Reverse(a)
  {
  }

  /** Bit reversal undoes itself, so it permutes [0, 2^n). */
  lemma RevBitsInvolution(i: nat, n: nat)
    requires i < Pow2(n)
    ensures RevBits(RevBits(i, n), n) == i
  {
    var b := Reverse(ToBits(i, n));
    ToFromBits(b);
    assert Reverse(b) == ToBits(i, n);
    FromToBits(i, n);
  }
}
