// Shifts, masks and bit reversal on unbounded naturals, and bit strings.
module Bits {
  // Everything is defined by recursion on the shift count, so that no proof needs arithmetic
  // beyond doubling and halving.

  type bit = b: int | 0 <= b < 2
  type byte = b: int | 0 <= b < 256

  datatype Option<+T> = None | Some(value: T)

  /** x << n */
  function Shl(x: nat, n: nat): (r: nat)
    ensures r >= x
  {
    if n == 0 then x else 2 * Shl(x, n - 1)
  }

  function Pow2(n: nat): (r: nat)
    ensures r >= 1
  {
    Shl(1, n)
  }

  /** x >> n */
  function Shr(x: nat, n: nat): nat {
    if n == 0 then x else Shr(x / 2, n - 1)
  }

  /** x & ((1 << n) - 1) */
  function Low(x: nat, n: nat): nat {
    if n == 0 then 0 else x % 2 + 2 * Low(x / 2, n - 1)
  }

  // ----- shifts and masks

  lemma {:induction false} ShlPlus(x: nat, y: nat, n: nat)
    ensures Shl(x + y, n) == Shl(x, n) + Shl(y, n)
  {
    if n == 0 {
    } else {
      ShlPlus(x, y, n - 1);
    }
  }

  lemma ShlMono(x: nat, y: nat, n: nat)
    requires x <= y
    ensures Shl(x, n) <= Shl(y, n)
    ensures x < y ==> Shl(x, n) + Pow2(n) <= Shl(y, n)
  {
    ShlPlus(x, y - x, n);
    if x < y {
      ShlPlus(1, y - x - 1, n);
    }
  }

  lemma {:induction false} ShlAdd(x: nat, a: nat, b: nat)
    ensures Shl(x, a + b) == Shl(Shl(x, a), b)
  {
    if b == 0 {
    } else {
      ShlAdd(x, a, b - 1);
    }
  }

  lemma {:induction false} ShlInner(x: nat, n: nat)
    requires n > 0
    ensures Shl(x, n) == Shl(2 * x, n - 1)
  {
    if n <= 1 {
    } else {
      ShlInner(x, n - 1);
    }
  }

  lemma Pow2Mono(a: nat, b: nat)
    requires a <= b
    ensures Pow2(a) <= Pow2(b)
    ensures a < b ==> 2 * Pow2(a) <= Pow2(b)
  {
    ShlAdd(1, a, b - a);
    if a < b {
      ShlAdd(1, a + 1, b - a - 1);
    }
  }

  lemma {:induction false} ShrAdd(x: nat, a: nat, b: nat)
    ensures Shr(x, a + b) == Shr(Shr(x, a), b)
  {
    if a == 0 {
    } else {
      ShrAdd(x / 2, a - 1, b);
    }
  }

  lemma ShrLast(x: nat, n: nat)
    ensures Shr(x, n + 1) == Shr(x, n) / 2
  {
    ShrAdd(x, n, 1);
    assert Shr(Shr(x, n), 1) == Shr(Shr(x, n) / 2, 0);
  }

  lemma {:induction false} ShrMono(x: nat, y: nat, n: nat)
    requires x <= y
    ensures Shr(x, n) <= Shr(y, n)
  {
    if n == 0 {
    } else {
      ShrMono(x / 2, y / 2, n - 1);
    }
  }

  /** Quotient and remainder of a division by 2^n. */
  lemma {:induction false} Split(x: nat, n: nat)
    ensures x == Shl(Shr(x, n), n) + Low(x, n)
    ensures Low(x, n) < Pow2(n)
  {
    if n == 0 {
    } else {
      Split(x / 2, n - 1);
    }
  }

  lemma {:induction false} SplitUnique(x: nat, n: nat, q: nat, r: nat)
    requires x == Shl(q, n) + r && r < Pow2(n)
    ensures Shr(x, n) == q && Low(x, n) == r
  {
    if n == 0 {
    } else {
      SplitUnique(x / 2, n - 1, q, r / 2);
    }
  }

  lemma LowHalf(x: nat, a: nat)
    requires a > 0
    ensures Low(x, a) % 2 == x % 2 && Low(x, a) / 2 == Low(x / 2, a - 1)
  {
  }

  lemma {:induction false} LowLow(x: nat, a: nat, b: nat)
    ensures Low(Low(x, a), b) == Low(x, if a < b then a else b)
  {
    if a > 0 && b > 0 {
      LowHalf(x, a);
      LowLow(x / 2, a - 1, b - 1);
    } else if a == 0 {
      Split(0, b);
    }
  }

  lemma {:induction false} LowShr(x: nat, a: nat, b: nat)
    ensures Shr(Low(x, a + b), a) == Low(Shr(x, a), b)
  {
    if a == 0 {
    } else {
      LowShr(x / 2, a - 1, b);
    }
  }

  lemma LowSmall(x: nat, n: nat)
    requires x < Pow2(n)
    ensures Low(x, n) == x && Shr(x, n) == 0
  {
    ShlZero(n);
    SplitUnique(x, n, 0, x);
  }

  lemma {:induction false} ShlZero(n: nat)
    ensures Shl(0, n) == 0
  {
    if n == 0 {
    } else {
      ShlZero(n - 1);
    }
  }

  // ----- least-significant-bit-first value of a bit string

  function LE(s: seq<bit>): nat {
    if s == [] then 0 else s[0] + 2 * LE(s[1..])
  }

  lemma {:induction false} LEAppend(a: seq<bit>, b: seq<bit>)
    ensures LE(a + b) == LE(a) + Shl(LE(b), |a|)
  {
    if a == [] {
      assert a + b == b;
    } else {
      assert (a + b)[1..] == a[1..] + b;
      LEAppend(a[1..], b);
    }
  }

  lemma {:induction false} LESplit(s: seq<bit>, n: nat)
    requires n <= |s|
    ensures LE(s[..n]) == Low(LE(s), n)
    ensures LE(s[n..]) == Shr(LE(s), n)
  {
    if n == 0 {
      assert s[..0] == [] && s[0..] == s;
    } else {
      assert s[..n][1..] == s[1..][..n - 1];
      assert s[n..] == s[1..][n - 1..];
      LESplit(s[1..], n - 1);
    }
  }

  lemma LEBound(s: seq<bit>)
    ensures LE(s) < Pow2(|s|)
  {
    assert s[..|s|] == s;
    LESplit(s, |s|);
    Split(LE(s), |s|);
  }

  // ----- bits of a byte stream, least significant bit of each byte first
  // (section 3.1.1 of RFC 1951)

  function BitsOf(x: nat, n: nat): (s: seq<bit>)
    ensures |s| == n
  {
    if n == 0 then [] else [x % 2] + BitsOf(x / 2, n - 1)
  }

  lemma {:induction false} LEBitsOf(x: nat, n: nat)
    ensures LE(BitsOf(x, n)) == Low(x, n)
  {
    if n == 0 {
    } else {
      LEBitsOf(x / 2, n - 1);
    }
  }

  function Stream(input: seq<byte>): (s: seq<bit>)
    ensures |s| == 8 * |input|
  {
    if input == [] then [] else BitsOf(input[0], 8) + Stream(input[1..])
  }

  lemma Pow2Eight()
    ensures Pow2(8) == 256
  {
    assert Shl(1, 4) == 16;
    assert Shl(16, 4) == 256;
    ShlAdd(1, 4, 4);
  }

  lemma {:induction false} StreamByte(input: seq<byte>, p: nat)
    requires p < |input|
    ensures Stream(input)[8 * p..8 * p + 8] == BitsOf(input[p], 8)
    ensures LE(Stream(input)[8 * p..8 * p + 8]) == input[p]
  {
    if p > 0 {
      StreamByte(input[1..], p - 1);
      assert Stream(input)[8 * p..8 * p + 8] == Stream(input[1..])[8 * (p - 1)..8 * (p - 1) + 8];
    }
    LEBitsOf(input[p], 8);
    Pow2Eight();
    LowSmall(input[p], 8);
  }

  // ----- reversal of the k low bits of x

  function Rev(x: nat, k: nat): nat {
    if k == 0 then 0 else Shl(x % 2, k - 1) + Rev(x / 2, k - 1)
  }

  lemma {:induction false} RevBound(x: nat, k: nat)
    ensures Rev(x, k) < Pow2(k)
  {
    if k == 0 {
    } else {
      RevBound(x / 2, k - 1);
      ShlMono(x % 2, 1, k - 1);
    }
  }

  /** The first a bits of x, reversed, become the leading bits. */
  lemma {:induction false} RevSplit(x: nat, a: nat, b: nat)
    ensures Rev(x, a + b) == Shl(Rev(x, a), b) + Rev(Shr(x, a), b)
  {
    if a > 0 {
      RevSplit(x / 2, a - 1, b);
      ShlPlus(Shl(x % 2, a - 1), Rev(x / 2, a - 1), b);
      ShlAdd(x % 2, a - 1, b);
    } else {
      ShlZero(b);
    }
  }

  lemma RevNext(x: nat, k: nat)
    ensures Rev(x, k + 1) == 2 * Rev(x, k) + Shr(x, k) % 2
  {
    RevSplit(x, k, 1);
    var hi, lo := Rev(x, k), Shr(x, k);
    assert Shl(hi, 1) == 2 * Shl(hi, 0);
    assert Rev(lo, 1) == Shl(lo % 2, 0) + Rev(lo / 2, 0);
  }

  lemma {:induction false} RevLow(x: nat, k: nat, m: nat)
    requires k <= m
    ensures Rev(Low(x, m), k) == Rev(x, k)
  {
    if k == 0 {
    } else {
      RevLow(x / 2, k - 1, m - 1);
    }
  }

  /** Trailing zeros of the reversed number do not matter. */
  lemma {:induction false} RevShl(x: nat, m: nat, t: nat)
    ensures Rev(Shl(x, t), m + t) == Rev(x, m)
  {
    if t == 0 {
    } else {
      RevShl(x, m, t - 1);
      ShlZero(m + t - 1);
    }
  }

  lemma {:induction false} RevRev(x: nat, k: nat)
    ensures Rev(Rev(x, k), k) == Low(x, k)
  {
    if k == 0 {
    } else {
      var r := Rev(x / 2, k - 1);
      var y := Rev(x, k);
      RevBound(x / 2, k - 1);
      SplitUnique(y, k - 1, x % 2, r);
      RevSplit(y, k - 1, 1);
      RevLow(y, k - 1, k - 1);
      RevRev(x / 2, k - 1);
      assert Rev(x % 2, 1) == Shl(x % 2, 0) + Rev((x % 2) / 2, 0);
    }
  }
}
