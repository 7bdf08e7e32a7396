// The CRC of boot/zBoot/misc.c.
module Crc {
  // The table that makecrc fills in, and updcrc, against the bit-at-a-time CRC-32 of section 8
  // of RFC 1952.

  import opened Bits

  /** The CRC polynomial, low-order bit first (section 8 of RFC 1952). */
  const POLY: bv32 := 0xEDB88320

  function Xor(a: bv32, b: bv32): bv32 {
    a ^ b
  }

  function Half(a: bv32): bv32 {
    a >> 1
  }

  predicate Odd(a: bv32) {
    a & 1 == 1
  }

  /** One bit through the shift register. */
  function Step(c: bv32): bv32 {
    if Odd(c) then Xor(Half(c), POLY) else Half(c)
  }

  function Steps(c: bv32, n: nat): bv32 {
    if n == 0 then c else Step(Steps(c, n - 1))
  }

  function ByteBits(b: byte): bv32 {
    (b as bv8) as bv32
  }

  /** The register after the bytes s: each is mixed in and shifted through bit by bit. */
  function Register(c: bv32, s: seq<byte>): bv32 {
    if s == [] then c else Steps(Xor(Register(c, s[..|s| - 1]), ByteBits(s[|s| - 1])), 8)
  }

  const ALL_ONES: bv32 := 0xffffffff

  /** The CRC-32 of s. */
  function Crc32(s: seq<byte>): bv32 {
    Xor(Register(ALL_ONES, s), ALL_ONES)
  }

  lemma {:induction false} RegisterAppend(c: bv32, a: seq<byte>, b: seq<byte>)
    ensures Register(c, a + b) == Register(Register(c, a), b)
  {
    if b == [] {
      assert a + b == a;
    } else {
      var init := b[..|b| - 1];
      assert (a + b)[..|a + b| - 1] == a + init;
      RegisterAppend(c, a, init);
    }
  }

  // ----- the shift register is linear

  lemma XorHalf(a: bv32, b: bv32)
    ensures Half(Xor(a, b)) == Xor(Half(a), Half(b))
  {
  }

  lemma XorOdd(a: bv32, b: bv32)
    requires !Odd(a)
    ensures Odd(Xor(a, b)) == Odd(b)
  {
  }

  lemma XorAssoc(a: bv32, b: bv32, c: bv32)
    ensures Xor(Xor(a, b), c) == Xor(a, Xor(b, c))
  {
  }

  lemma XorComm(a: bv32, b: bv32)
    ensures Xor(a, b) == Xor(b, a)
  {
  }

  /** The low bit decides whether the polynomial comes in; the other bits only move. */
  lemma StepXor(a: bv32, b: bv32)
    requires !Odd(a)
    ensures Step(Xor(a, b)) == Xor(Half(a), Step(b))
  {
    hide Xor, Half, Odd;
    XorHalf(a, b);
    XorOdd(a, b);
    XorAssoc(Half(a), Half(b), POLY);
  }

  function Halved(a: bv32, n: nat): bv32 {
    if n == 0 then a else Half(Halved(a, n - 1))
  }

  /** Bits that have not reached the low end only move. */
  lemma {:induction false} StepsXor(a: bv32, b: bv32, n: nat)
    requires forall j :: 0 <= j < n ==> !Odd(Halved(a, j))
    ensures Steps(Xor(a, b), n) == Xor(Halved(a, n), Steps(b, n))
  {
    hide Xor, Half, Odd, Step;
    if n == 0 {
    } else {
      StepsXor(a, b, n - 1);
      StepXor(Halved(a, n - 1), Steps(b, n - 1));
    }
  }

  /** The upper 24 bits, and the lower 8. */
  function Upper(c: bv32): bv32 {
    c & 0xffffff00
  }

  function Lower(c: bv32): bv32 {
    c & 0xff
  }

  function Byte1(c: bv32): bv32 {
    c >> 8
  }

  lemma UpperHalves(c: bv32)
    ensures var h0 := Upper(c); var h1 := Half(h0); var h2 := Half(h1); var h3 := Half(h2); var h4 := Half(h3);
            var h5 := Half(h4); var h6 := Half(h5); var h7 := Half(h6);
            && !Odd(h0) && !Odd(h1) && !Odd(h2) && !Odd(h3) && !Odd(h4) && !Odd(h5) && !Odd(h6) && !Odd(h7)
            && Half(h7) == Byte1(c)
  {
  }

  lemma UpperHalved(c: bv32)
    ensures forall j :: 0 <= j < 8 ==> !Odd(Halved(Upper(c), j))
    ensures Halved(Upper(c), 8) == Byte1(c)
  {
    hide Half, Odd, Upper, Byte1;
    UpperHalves(c);
    var h := Upper(c);
    assert Halved(h, 1) == Half(h);
    assert Halved(h, 2) == Half(Half(h));
    assert Halved(h, 3) == Half(Half(Half(h)));
    assert Halved(h, 4) == Half(Half(Half(Half(h))));
    assert Halved(h, 5) == Half(Half(Half(Half(Half(h)))));
    assert Halved(h, 6) == Half(Half(Half(Half(Half(Half(h))))));
    assert Halved(h, 7) == Half(Half(Half(Half(Half(Half(Half(h)))))));
  }

  lemma SplitByte(c: bv32)
    ensures Xor(Upper(c), Lower(c)) == c
  {
  }

  /** One table lookup does the work of eight bit steps. */
  lemma TableStep(c: bv32)
    ensures Steps(c, 8) == Xor(Steps(Lower(c), 8), Byte1(c))
  {
    hide *;
    SplitByte(c);
    UpperHalved(c);
    StepsXor(Upper(c), Lower(c), 8);
    XorComm(Steps(Lower(c), 8), Byte1(c));
  }

  // ----- makecrc

  /** 1 << n */
  function Bit(n: nat): bv32 {
    if n == 0 then 1 else Bit(n - 1) << 1
  }

  /** The exclusive-or pattern of the terms that a list of powers names. */
  function Pattern(p: seq<nat>): bv32
    requires forall i :: 0 <= i < |p| ==> p[i] < 32
  {
    if p == [] then 0 else Pattern(p[..|p| - 1]) | Bit(31 - p[|p| - 1])
  }

  /** Terms of the polynomial defining this CRC, except x^32. */
  const TERMS: seq<nat> := [0, 1, 2, 4, 5, 7, 8, 10, 11, 12, 16, 22, 23, 26]

  lemma PatternNext(p: seq<nat>, x: nat, v: bv32, v': bv32)
    requires (forall i :: 0 <= i < |p| ==> p[i] < 32) && x < 32
    requires Pattern(p) == v && v' == v | Bit(31 - x)
    ensures Pattern(p + [x]) == v'
  {
    hide Bit;
    assert (p + [x])[..|p|] == p;
  }

  lemma BitValues()
    ensures Bit(5) == 0x20 && Bit(8) == 0x100 && Bit(9) == 0x200 && Bit(15) == 0x8000
    ensures Bit(19) == 0x80000 && Bit(20) == 0x100000 && Bit(21) == 0x200000 && Bit(23) == 0x800000
    ensures Bit(24) == 0x1000000 && Bit(26) == 0x4000000 && Bit(27) == 0x8000000
    ensures Bit(29) == 0x20000000 && Bit(30) == 0x40000000 && Bit(31) == 0x80000000
  {
    assert Bit(2) == 0x4 && Bit(4) == 0x10 && Bit(6) == 0x40 && Bit(8) == 0x100 && Bit(10) == 0x400;
    assert Bit(12) == 0x1000 && Bit(14) == 0x4000 && Bit(16) == 0x10000 && Bit(18) == 0x40000;
    assert Bit(20) == 0x100000 && Bit(22) == 0x400000 && Bit(24) == 0x1000000 && Bit(26) == 0x4000000;
    assert Bit(28) == 0x10000000 && Bit(30) == 0x40000000;
  }

  /** The terms give the number that RFC 1952 uses. */
  lemma PatternIsPoly()
    ensures Pattern(TERMS) == POLY
  {
    hide Bit, Pattern;
    BitValues();
    PatternNone();
    var p: seq<nat> := [];
    PatternNext(p, 0, 0x00000000, 0x80000000); p := p + [0];
    PatternNext(p, 1, 0x80000000, 0xc0000000); p := p + [1];
    PatternNext(p, 2, 0xc0000000, 0xe0000000); p := p + [2];
    PatternNext(p, 4, 0xe0000000, 0xe8000000); p := p + [4];
    PatternNext(p, 5, 0xe8000000, 0xec000000); p := p + [5];
    PatternNext(p, 7, 0xec000000, 0xed000000); p := p + [7];
    PatternNext(p, 8, 0xed000000, 0xed800000); p := p + [8];
    PatternNext(p, 10, 0xed800000, 0xeda00000); p := p + [10];
    PatternNext(p, 11, 0xeda00000, 0xedb00000); p := p + [11];
    PatternNext(p, 12, 0xedb00000, 0xedb80000); p := p + [12];
    PatternNext(p, 16, 0xedb80000, 0xedb88000); p := p + [16];
    PatternNext(p, 22, 0xedb88000, 0xedb88200); p := p + [22];
    PatternNext(p, 23, 0xedb88200, 0xedb88300); p := p + [23];
    PatternNext(p, 26, 0xedb88300, 0xedb88320); p := p + [26];
    assert p == TERMS;
  }

  lemma PatternNone()
    ensures Pattern([]) == 0
  {
  }

  /** The counter of makecrc: the index with a marker bit above it. */
  function Marked(b: byte): bv32 {
    ByteBits(b) | 256
  }

  lemma MarkedHalves(b: byte)
    ensures var h0 := ByteBits(b); var h1 := Half(h0); var h2 := Half(h1); var h3 := Half(h2);
            var h4 := Half(h3); var h5 := Half(h4); var h6 := Half(h5); var h7 := Half(h6);
            var k0 := Marked(b); var k1 := Half(k0); var k2 := Half(k1); var k3 := Half(k2);
            var k4 := Half(k3); var k5 := Half(k4); var k6 := Half(k5); var k7 := Half(k6);
            && Odd(k0) == Odd(h0) && Odd(k1) == Odd(h1) && Odd(k2) == Odd(h2) && Odd(k3) == Odd(h3)
            && Odd(k4) == Odd(h4) && Odd(k5) == Odd(h5) && Odd(k6) == Odd(h6) && Odd(k7) == Odd(h7)
            && k0 != 1 && k1 != 1 && k2 != 1 && k3 != 1 && k4 != 1 && k5 != 1 && k6 != 1 && k7 != 1
            && Half(k7) == 1 && Half(h7) == 0
  {
  }

  lemma MarkedHalved(b: byte, j: nat)
    requires j <= 8
    ensures j < 8 ==> Odd(Halved(Marked(b), j)) == Odd(Halved(ByteBits(b), j))
    ensures Halved(Marked(b), j) == 1 <==> j == 8
    ensures j == 8 ==> Halved(ByteBits(b), j) == 0
  {
    hide *;
    MarkedHalves(b);
    HalvedEight(ByteBits(b));
    HalvedEight(Marked(b));
  }

  lemma HalvedEight(h: bv32)
    ensures Halved(h, 0) == h && Halved(h, 1) == Half(h) && Halved(h, 2) == Half(Half(h))
    ensures Halved(h, 3) == Half(Half(Half(h))) && Halved(h, 4) == Half(Half(Half(Half(h))))
    ensures Halved(h, 5) == Half(Half(Half(Half(Half(h)))))
    ensures Halved(h, 6) == Half(Half(Half(Half(Half(Half(h))))))
    ensures Halved(h, 7) == Half(Half(Half(Half(Half(Half(Half(h)))))))
    ensures Halved(h, 8) == Half(Half(Half(Half(Half(Half(Half(Half(h))))))))
  {
    hide Half;
    assert Halved(h, 2) == Half(Halved(h, 1));
    assert Halved(h, 4) == Half(Halved(h, 3));
    assert Halved(h, 6) == Half(Halved(h, 5));
  }

  lemma FlipOdd(c: bv32)
    ensures Odd(Xor(c, 1)) == !Odd(c)
  {
  }

  lemma FlipHalf(c: bv32)
    ensures Half(Xor(c, 1)) == Half(c)
  {
  }

  lemma XorTwice(c: bv32, a: bv32)
    ensures Xor(Xor(c, a), a) == c
  {
  }

  /** Flipping the low bit of the register brings the polynomial in, or keeps it out. */
  lemma StepFlip(c: bv32)
    ensures Step(Xor(c, 1)) == Xor(Step(c), POLY)
  {
    hide Xor, Half, Odd;
    FlipOdd(c);
    FlipHalf(c);
    XorTwice(Half(c), POLY);
  }

  /** Shifting the bits of h in one at a time, at the low end of c, is the same as starting
      with all of them in the register. */
  lemma BitIn(c: bv32, h: bv32)
    ensures Step(Xor(c, h)) == Xor(if Odd(h) then Xor(Step(c), POLY) else Step(c), Half(h))
  {
    hide Xor, Half, Odd, Step;
    if Odd(h) {
      var h' := Xor(h, 1);
      FlipOdd(h);
      FlipHalf(h);
      XorTwice(h, 1);
      XorComm(h', 1);
      XorAssoc(c, 1, h');
      XorComm(Xor(c, 1), h');
      StepXor(h', Xor(c, 1));
      StepFlip(c);
      XorComm(Half(h), Xor(Step(c), POLY));
    } else {
      XorComm(c, h);
      StepXor(h, c);
      XorComm(Half(h), Step(c));
    }
  }

  lemma XorZero(c: bv32)
    ensures Xor(c, 0) == c && Xor(0, c) == c
  {
  }

  /** The table entry for byte b. */
  method TableEntry(b: byte, e: bv32) returns (c: bv32)
    requires e == POLY
    ensures c == Steps(ByteBits(b), 8)
  {
    hide *;
    c := 0;
    ghost var n := 0;
    var k := Marked(b);
    EntryStart(b);
    while k != 1
      invariant n <= 8 && k == Halved(Marked(b), n)
      invariant Steps(ByteBits(b), n) == Xor(c, Halved(ByteBits(b), n))
      decreases 8 - n
    {
      MarkedHalved(b, n);
      BitIn(c, Halved(ByteBits(b), n));
      EntryNext(b, n);
      StepIs(c);
      c := if Odd(c) then Xor(Half(c), e) else Half(c);
      if Odd(k) {
        c := Xor(c, e);
      }
      k := Half(k);
      n := n + 1;
    }
    MarkedHalved(b, n);
    XorZero(c);
  }

  lemma StepIs(c: bv32)
    ensures Step(c) == if Odd(c) then Xor(Half(c), POLY) else Half(c)
  {
  }

  lemma EntryStart(b: byte)
    ensures Halved(Marked(b), 0) == Marked(b)
    ensures Steps(ByteBits(b), 0) == Xor(0, Halved(ByteBits(b), 0))
  {
    XorZero(ByteBits(b));
  }

  lemma EntryNext(b: byte, n: nat)
    ensures Halved(Marked(b), n + 1) == Half(Halved(Marked(b), n))
    ensures Halved(ByteBits(b), n + 1) == Half(Halved(ByteBits(b), n))
    ensures Steps(ByteBits(b), n + 1) == Step(Steps(ByteBits(b), n))
  {
  }

  // ----- updcrc

  /** Each slot holds what eight bit steps make of its index. */
  ghost predicate TableOk(t: seq<bv32>) {
    |t| == 256 && forall i :: 0 <= i < 256 ==> t[i] == Steps(ByteBits(i), 8)
  }

  /** Makes the exclusive-or pattern from the polynomial. */
  method MakePattern(p: seq<nat>) returns (e: bv32)
    requires forall i :: 0 <= i < |p| ==> p[i] < 32
    ensures e == Pattern(p)
  {
    hide *;
    e := 0;
    var i := 0;
    PatternNone();
    while i < |p|
      invariant i <= |p| && e == Pattern(p[..i])
    {
      PatternOne(p, i);
      e := e | Bit(31 - p[i]);
      i := i + 1;
    }
    assert p[..i] == p;
  }

  lemma PatternOne(p: seq<nat>, i: nat)
    requires i < |p| && forall j :: 0 <= j < |p| ==> p[j] < 32
    ensures Pattern(p[..i + 1]) == Pattern(p[..i]) | Bit(31 - p[i])
  {
    assert p[..i + 1][..i] == p[..i];
    hide Bit;
  }

  lemma TermsSmall()
    ensures forall i :: 0 <= i < |TERMS| ==> TERMS[i] < 32
  {
  }

  lemma TableOf(t: seq<bv32>)
    requires |t| == 256 && forall i :: 0 <= i < 256 ==> t[i] == Steps(ByteBits(i), 8)
    ensures TableOk(t)
  {
    hide Steps, ByteBits;
  }

  method MakeCrc() returns (table: array<bv32>)
    ensures fresh(table) && TableOk(table[..])
  {
    hide *;
    TermsSmall();
    var e := MakePattern(TERMS);
    PatternIsPoly();
    ZeroEntry();
    table := new bv32[256](_ => 0);
    table[0] := 0;
    var i := 1;
    while i < 256
      invariant 1 <= i <= 256
      invariant forall j :: 0 <= j < i ==> table[j] == Steps(ByteBits(j), 8)
    {
      var c := TableEntry(i, e);
      table[i] := c;
      i := i + 1;
    }
    TableOf(table[..]);
  }

  lemma {:induction false} ZeroSteps(n: nat)
    ensures Steps(0, n) == 0
  {
    if n == 0 {
    } else {
      ZeroSteps(n - 1);
    }
  }

  lemma ZeroEntry()
    ensures Steps(ByteBits(0), 8) == 0
  {
    ZeroSteps(8);
  }

  lemma ByteIn(c: bv32, b: byte)
    ensures Byte1(Xor(c, ByteBits(b))) == Byte1(c)
  {
  }

  lemma LowerSmall(c: bv32)
    ensures Lower(c) < 256
  {
  }

  lemma ByteBack(x: bv8)
    ensures 0 <= x as int < 256 && (x as int) as bv8 == x
  {
  }

  lemma BitsAre(b: byte)
    ensures ByteBits(b) == (b as bv8) as bv32
  {
  }

  lemma BitsOfByte(x: bv8)
    ensures ByteBits(x as int) == x as bv32
  {
    hide ByteBits;
    ByteBack(x);
    BitsAre(x as int);
  }

  lemma LowerBits(c: bv32)
    ensures Lower(c) < 256 && (Lower(c) as bv8) as bv32 == Lower(c)
  {
  }

  lemma LowerIndex(c: bv32)
    ensures Lower(c) < 256 && ByteBits(Lower(c) as bv8 as int) == Lower(c)
  {
    LowerSmall(c);
    LowerBits(c);
    hide ByteBits, Lower;
    BitsOfByte(Lower(c) as bv8);
  }

  /** The table-driven step of updcrc. */
  method ByteStep(table: seq<bv32>, c: bv32, b: byte) returns (c': bv32)
    requires TableOk(table)
    ensures c' == Steps(Xor(c, ByteBits(b)), 8)
  {
    ByteIn(c, b);
    LowerIndex(Xor(c, ByteBits(b)));
    TableStep(Xor(c, ByteBits(b)));
    hide Steps, ByteBits, Xor, Lower, Byte1;
    var x := Lower(Xor(c, ByteBits(b))) as bv8;
    c' := Xor(table[x as int], Byte1(c));
  }

  /** Runs the bytes s through the register c. */
  method UpdCrc(table: seq<bv32>, c0: bv32, s: seq<byte>) returns (c: bv32)
    requires TableOk(table)
    ensures c == Register(c0, s)
  {
    hide Steps, ByteBits, Xor;
    c := c0;
    var n := 0;
    while n < |s|
      invariant n <= |s| && c == Register(c0, s[..n])
    {
      assert s[..n + 1][..n] == s[..n];
      c := ByteStep(table, c, s[n]);
      n := n + 1;
    }
    assert s[..n] == s;
  }

  // ----- values that the standard fixes

  lemma OneStep(c: bv32, d: bv32)
    requires d == if c & 1 == 1 then (c >> 1) ^ 0xEDB88320 else c >> 1
    ensures Step(c) == d
  {
  }

  lemma EightSteps(c: bv32)
    ensures Steps(c, 8) == Step(Step(Step(Step(Step(Step(Step(Step(c))))))))
  {
    hide Step;
    assert Steps(c, 1) == Step(c);
    assert Steps(c, 2) == Step(Step(c));
    assert Steps(c, 4) == Step(Step(Step(Step(c))));
    assert Steps(c, 6) == Step(Step(Step(Step(Step(Step(c))))));
  }

  lemma ResidueA()
    ensures Steps(0xffffffff, 8) == 0x2dfd1072
  {
    OneStep(0xffffffff, 0x92477cdf);
    OneStep(0x92477cdf, 0xa49b3d4f);
    OneStep(0xa49b3d4f, 0xbff51d87);
    OneStep(0xbff51d87, 0xb2420de3);
    OneStep(0xb2420de3, 0xb49985d1);
    OneStep(0xb49985d1, 0xb7f441c8);
    OneStep(0xb7f441c8, 0x5bfa20e4);
    OneStep(0x5bfa20e4, 0x2dfd1072);
    hide Step;
    EightSteps(0xffffffff);
  }

  lemma ResidueB()
    ensures Steps(0x2dfd1072, 8) == 0xbe26ed00
  {
    OneStep(0x2dfd1072, 0x16fe8839);
    OneStep(0x16fe8839, 0xe6c7c73c);
    OneStep(0xe6c7c73c, 0x7363e39e);
    OneStep(0x7363e39e, 0x39b1f1cf);
    OneStep(0x39b1f1cf, 0xf1607bc7);
    OneStep(0xf1607bc7, 0x9508bec3);
    OneStep(0x9508bec3, 0xa73cdc41);
    OneStep(0xa73cdc41, 0xbe26ed00);
    hide Step;
    EightSteps(0x2dfd1072);
  }

  lemma ResidueC()
    ensures Steps(0xbe26ed00, 8) == 0x00be26ed
  {
    OneStep(0xbe26ed00, 0x5f137680);
    OneStep(0x5f137680, 0x2f89bb40);
    OneStep(0x2f89bb40, 0x17c4dda0);
    OneStep(0x17c4dda0, 0x0be26ed0);
    OneStep(0x0be26ed0, 0x05f13768);
    OneStep(0x05f13768, 0x02f89bb4);
    OneStep(0x02f89bb4, 0x017c4dda);
    OneStep(0x017c4dda, 0x00be26ed);
    hide Step;
    EightSteps(0xbe26ed00);
  }

  lemma ResidueD()
    ensures Steps(0x00be26ed, 8) == 0xdebb20e3
  {
    OneStep(0x00be26ed, 0xede79056);
    OneStep(0xede79056, 0x76f3c82b);
    OneStep(0x76f3c82b, 0xd6c16735);
    OneStep(0xd6c16735, 0x86d830ba);
    OneStep(0x86d830ba, 0x436c185d);
    OneStep(0x436c185d, 0xcc0e8f0e);
    OneStep(0xcc0e8f0e, 0x66074787);
    OneStep(0x66074787, 0xdebb20e3);
    hide Step;
    EightSteps(0x00be26ed);
  }

  lemma LetterSteps()
    ensures Steps(0xffffff9e, 8) == 0x174841bc
  {
    OneStep(0xffffff9e, 0x7fffffcf);
    OneStep(0x7fffffcf, 0xd2477cc7);
    OneStep(0xd2477cc7, 0x849b3d43);
    OneStep(0x849b3d43, 0xaff51d81);
    OneStep(0xaff51d81, 0xba420de0);
    OneStep(0xba420de0, 0x5d2106f0);
    OneStep(0x5d2106f0, 0x2e908378);
    OneStep(0x2e908378, 0x174841bc);
    hide Step;
    EightSteps(0xffffff9e);
  }

  /** The CRC of the letter a. */
  lemma CrcOfLetter()
    ensures Crc32([0x61]) == 0xE8B7BE43
  {
    var s: seq<byte> := [0x61];
    assert s[..0] == [];
    LetterSteps();
    LetterBits();
    hide Steps;
    assert Register(0xffffffff, []) == 0xffffffff;
    assert Register(0xffffffff, s) == Steps(Xor(0xffffffff, ByteBits(0x61)), 8);
  }

  lemma LetterBits()
    ensures Xor(0xffffffff, ByteBits(0x61)) == 0xffffff9e && Xor(0x174841bc, 0xffffffff) == 0xE8B7BE43
  {
  }

  /** The bytes of a word, the low one first. */
  function LowFirst(w: bv32): (s: seq<byte>)
    ensures |s| == 4
  {
    ByteBack((w & 0xff) as bv8);
    ByteBack(((w >> 8) & 0xff) as bv8);
    ByteBack(((w >> 16) & 0xff) as bv8);
    ByteBack((w >> 24) as bv8);
    [((w & 0xff) as bv8) as int, (((w >> 8) & 0xff) as bv8) as int, (((w >> 16) & 0xff) as bv8) as int, ((w >> 24) as bv8) as int]
  }

  /** The CRC register over a message and its own CRC always ends with the same value. */
  lemma CrcResidue(s: seq<byte>)
    ensures Register(0xffffffff, s + LowFirst(Crc32(s))) == 0xDEBB20E3
  {
    hide *;
    var c, w := Register(0xffffffff, s), Crc32(s);
    CrcIs(s);
    XorBack(w, c);
    RegisterAppend(0xffffffff, s, LowFirst(w));
    LowBytes(w);
    var t := LowFirst(w);
    FourBytes(c, t);
    FedIs(c, t[0]);
    FedIs(Fed(c, t[0]), t[1]);
    FedIs(Fed(Fed(c, t[0]), t[1]), t[2]);
    FedIs(Fed(Fed(Fed(c, t[0]), t[1]), t[2]), t[3]);
    Feed(w, 0xffffffff);
    Feed(Byte1(w), 0x2dfd1072);
    Feed(Byte1(Byte1(w)), 0xbe26ed00);
    Feed(Byte1(Byte1(Byte1(w))), 0x00be26ed);
    ResidueA();
    ResidueB();
    ResidueC();
    ResidueD();
    AllGone(w);
  }

  lemma CrcIs(s: seq<byte>)
    ensures Crc32(s) == Xor(Register(0xffffffff, s), 0xffffffff)
  {
    hide Register, Xor;
  }

  lemma XorBack(w: bv32, c: bv32)
    ensures w == Xor(c, 0xffffffff) ==> c == Xor(0xffffffff, w)
  {
  }

  lemma AllGone(w: bv32)
    ensures Xor(0xDEBB20E3, Byte1(Byte1(Byte1(Byte1(w))))) == 0xDEBB20E3
  {
  }

  /** A byte that equals the low byte of v takes it out of the register. */
  lemma Feed(v: bv32, r: bv32)
    ensures Steps(Xor(Xor(r, v), Lower(v)), 8) == Xor(Steps(r, 8), Byte1(v))
  {
    hide *;
    TakeLower(v, r);
    UpperHalved(v);
    StepsXor(Upper(v), r, 8);
    XorComm(Byte1(v), Steps(r, 8));
  }

  lemma TakeLower(v: bv32, r: bv32)
    ensures Xor(Xor(r, v), Lower(v)) == Xor(Upper(v), r)
  {
    hide *;
    var u, l := Upper(v), Lower(v);
    SplitByte(v);
    XorAssoc(r, u, l);
    XorAssoc(Xor(r, u), l, l);
    XorSelf(l, Xor(r, u));
    XorComm(r, u);
  }

  lemma XorSelf(a: bv32, b: bv32)
    ensures Xor(b, Xor(a, a)) == b
  {
  }

  lemma LowBytes(w: bv32)
    ensures var s := LowFirst(w);
      && ByteBits(s[0]) == Lower(w) && ByteBits(s[1]) == Lower(Byte1(w))
      && ByteBits(s[2]) == Lower(Byte1(Byte1(w))) && ByteBits(s[3]) == Lower(Byte1(Byte1(Byte1(w))))
  {
    LowWords(w);
    hide ByteBits, Lower, Byte1;
    BitsOfByte((w & 0xff) as bv8);
    BitsOfByte(((w >> 8) & 0xff) as bv8);
    BitsOfByte(((w >> 16) & 0xff) as bv8);
    BitsOfByte((w >> 24) as bv8);
  }

  lemma LowWords(w: bv32)
    ensures ((w & 0xff) as bv8) as bv32 == Lower(w)
    ensures (((w >> 8) & 0xff) as bv8) as bv32 == Lower(Byte1(w))
    ensures (((w >> 16) & 0xff) as bv8) as bv32 == Lower(Byte1(Byte1(w)))
    ensures ((w >> 24) as bv8) as bv32 == Lower(Byte1(Byte1(Byte1(w))))
  {
  }

  lemma RegisterOne(c: bv32, s: seq<byte>, b: byte)
    ensures Register(c, s + [b]) == Steps(Xor(Register(c, s), ByteBits(b)), 8)
  {
    assert (s + [b])[..|s|] == s;
    hide Steps, Xor, ByteBits;
  }

  /** The register c after one more byte. */
  function Fed(c: bv32, b: byte): bv32 {
    Steps(Xor(c, ByteBits(b)), 8)
  }

  lemma FedIs(c: bv32, b: byte)
    ensures Fed(c, b) == Steps(Xor(c, ByteBits(b)), 8)
  {
    hide Steps, Xor, ByteBits;
  }

  lemma NoBytes(c: bv32)
    ensures Register(c, []) == c
  {
  }

  lemma RegisterFront(c: bv32, s: seq<byte>, k: nat)
    requires k < |s|
    ensures Register(c, s[k..]) == Register(Fed(c, s[k]), s[k + 1..])
  {
    assert s[k..] == [s[k]] + s[k + 1..];
    hide *;
    NoBytes(c);
    RegisterOne(c, [], s[k]);
    FedIs(c, s[k]);
    assert [] + [s[k]] == [s[k]];
    RegisterAppend(c, [s[k]], s[k + 1..]);
  }

  lemma FourBytes(c: bv32, s: seq<byte>)
    requires |s| == 4
    ensures Register(c, s) == Fed(Fed(Fed(Fed(c, s[0]), s[1]), s[2]), s[3])
  {
    hide *;
    RegisterFront(c, s, 0);
    RegisterFront(Fed(c, s[0]), s, 1);
    RegisterFront(Fed(Fed(c, s[0]), s[1]), s, 2);
    RegisterFront(Fed(Fed(Fed(c, s[0]), s[1]), s[2]), s, 3);
    NoBytes(Fed(Fed(Fed(Fed(c, s[0]), s[1]), s[2]), s[3]));
    assert s[0..] == s && s[4..] == [];
  }
}
