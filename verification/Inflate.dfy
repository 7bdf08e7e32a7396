// The decompressor of boot/zBoot/inflate.c does what the decoder of module Deflate does. Its state
// is the bit buffer, the pool of tables and the window.
module Inflate {
  import opened Bits
  import opened Canonical
  import opened HuftTable
  import opened HuftCode
  import opened HuftLimit
  import opened HuftBuild
  import Crc
  import opened Window
  import opened Deflate

  /** How a routine ends: it returns a code, it needs input that is not there, it halts the
      system with a message, or it goes on with uninitialised memory or a null table. */
  datatype Outcome = Return(code: nat) | OutOfInput | Halted | Wild

  /** The outcome is the one that the reference decoder's result r calls for, in a stream of
      n bits. Lookahead may need up to 15 bits behind the last one used. */
  ghost predicate Follows<T>(o: Outcome, r: Parse<T>, n: nat) {
    match o
    case Return(c) =>
      if c == 0 then r.Ok?
      else r == Err(Invalid(c)) || (c == 1 && r == Err(Unassigned))
    case OutOfInput => r.Ok? ==> n < r.pos + 16
    case Halted => r == Err(Invalid(1))
    case Wild => r == Err(Unassigned)
  }

  // ----- tables for deflate

  const CPLENS: seq<nat> := [3, 4, 5, 6, 7, 8, 9, 10, 11, 13, 15, 17, 19, 23, 27, 31,
                             35, 43, 51, 59, 67, 83, 99, 115, 131, 163, 195, 227, 258, 0, 0]
  const CPLEXT: seq<nat> := [0, 0, 0, 0, 0, 0, 0, 0, 1, 1, 1, 1, 2, 2, 2, 2,
                             3, 3, 3, 3, 4, 4, 4, 4, 5, 5, 5, 5, 0, 99, 99]
  const CPDIST: seq<nat> := [1, 2, 3, 4, 5, 7, 9, 13, 17, 25, 33, 49, 65, 97, 129, 193,
                             257, 385, 513, 769, 1025, 1537, 2049, 3073, 4097, 6145,
                             8193, 12289, 16385, 24577]
  const CPDEXT: seq<nat> := [0, 0, 0, 0, 1, 1, 2, 2, 3, 3, 4, 4, 5, 5, 6, 6,
                             7, 7, 8, 8, 9, 9, 10, 10, 11, 11,
                             12, 12, 13, 13]

  lemma ExtrasAreDeflate()
    ensures forall i :: 0 <= i < 29 ==> CPLEXT[i] == LengthExtra(i)
    ensures forall i :: 0 <= i < 30 ==> CPDEXT[i] == DistExtra(i)
  {
  }

  function Times(x: nat, e: nat): nat
    requires e <= 13
  {
    if e == 0 then x else if e == 1 then 2 * x else if e == 2 then 4 * x else if e == 3 then 8 * x
    else if e == 4 then 16 * x else if e == 5 then 32 * x else if e == 6 then 64 * x else if e == 7 then 128 * x
    else if e == 8 then 256 * x else if e == 9 then 512 * x else if e == 10 then 1024 * x
    else if e == 11 then 2048 * x else if e == 12 then 4096 * x else 8192 * x
  }

  lemma {:induction false} ShlTimes(x: nat, e: nat)
    requires e <= 13
    ensures Shl(x, e) == Times(x, e)
  {
    if e == 0 {
    } else {
      ShlTimes(x, e - 1);
    }
  }

  lemma LengthValues()
    ensures forall i :: 0 <= i < 8 ==> CPLENS[i] == 3 + i
    ensures forall i :: 8 <= i < 28 ==> CPLENS[i] == 3 + Times(4 + i % 4, CPLEXT[i])
  {
  }

  lemma LengthsAreDeflate(i: nat)
    requires i < 29
    ensures CPLENS[i] == LengthBase(i)
  {
    LengthValues();
    ExtrasAreDeflate();
    if 8 <= i < 28 {
      ShlTimes(4 + i % 4, LengthExtra(i));
    }
  }

  lemma DistValues()
    ensures forall i :: 0 <= i < 4 ==> CPDIST[i] == 1 + i
    ensures forall i :: 4 <= i < 30 ==> CPDIST[i] == 1 + Times(2 + i % 2, CPDEXT[i])
  {
  }

  lemma DistsAreDeflate(i: nat)
    requires i < 30
    ensures CPDIST[i] == DistBase(i)
  {
    DistValues();
    ExtrasAreDeflate();
    if 4 <= i {
      ShlTimes(2 + i % 2, DistExtra(i));
    }
  }

  // ----- tables

  /** huft_build for lengths and lookup bits that no table gets too wide for. */
  method BuildTables(b: seq<nat>, s: nat, d: seq<nat>, e: seq<nat>, m: nat) returns (r: nat, pool: Pool, bl: nat)
    requires Args(b, s, d, e) && |b| <= N_MAX && (MaxLen(b) <= 2 * m || |b| < Pow2(m))
    ensures r == BadLens(b)
    ensures r == 0 || (r == 1 && MaxLen(b) <= 2 * m) ==> Decodes(b, s, d, e, pool, bl)
    ensures r == 0 && MaxLen(b) <= m ==> bl == MaxLen(b)
  {
    r, pool, bl := HuftBuild.HuftBuild(b, s, d, e, m);
    hide DeepWide, Decodes, Usable, CodeTab, Fixed;
    if MaxLen(b) == 0 {
      NothingToDecode(b, s, d, e);
    } else if r != 2 {
      LookupBitsEnough(b, m, r);
      if r == 0 || MaxLen(b) <= 2 * m {
        EnoughBits(b, m, s, d, e, r);
      }
    }
  }

  lemma NothingToDecode(b: seq<nat>, s: nat, d: seq<nat>, e: seq<nat>)
    requires Args(b, s, d, e) && MaxLen(b) == 0
    ensures Decodes(b, s, d, e, [], 0)
  {
    assert b[0] == 0;
  }

  lemma LookupBitsEnough(b: seq<nat>, m: nat, r: nat)
    requires 0 < MaxLen(b)
    ensures MaxLen(b) <= m ==> LookupBits(b, m) == MaxLen(b)
    ensures LookupBits(b, m) >= m || LookupBits(b, m) == MaxLen(b)
  {
  }

  lemma EnoughBits(b: seq<nat>, m: nat, s: nat, d: seq<nat>, e: seq<nat>, r: nat)
    requires Args(b, s, d, e) && Usable(b) && r == BadLens(b)
    requires MaxLen(b) <= 2 * m || (r == 0 && |b| < Pow2(m))
    ensures Fixed(CodeTab(b, m, s, d, e)) && !DeepWide(CodeTab(b, m, s, d, e))
  {
    var l := LookupBits(b, m);
    LookupBitsEnough(b, m, r);
    if MaxLen(b) > 2 * l {
      Pow2Mono(m, l);
    }
    CompleteNotWide(b, m, s, d, e);
  }

  // ----- looking a symbol up, table by table

  /** Going on from table id, with nb index bits and the stream value N, finds what the whole
      lookup finds; everything looked at so far was within avail bits. */
  ghost predicate Searching(pool: Pool, f0: Found, id: nat, nb: nat, N: nat, used: nat, avail: nat) {
    id < |pool|
    && var f := Lookup(pool, id, nb, N, used);
       && f.slot == f0.slot && f.used == f0.used && f.need <= f0.need
       && (f0.need > avail ==> f.need == f0.need)
  }

  ghost predicate IsLink(slot: Slot, nb: nat) {
    slot.Huft? && slot.b <= nb && slot.e > 16 && slot.e != 99
  }

  lemma LinkIs(slot: Slot, nb: nat)
    ensures IsLink(slot, nb) <==> slot.Huft? && slot.b <= nb && slot.e > 16 && slot.e != 99
  {
  }

  lemma SearchLink(pool: Pool, f0: Found, id: nat, nb: nat, N: nat, used: nat, avail: nat)
    requires Searching(pool, f0, id, nb, N, used, avail) && used + nb <= avail
    requires Low(N, nb) < |pool[id]| && IsLink(pool[id][Low(N, nb)], nb)
    ensures var slot := pool[id][Low(N, nb)];
            if slot.v.Next? && id < slot.v.table < |pool|
            then Searching(pool, f0, slot.v.table, slot.e - 16, Shr(N, slot.b), used + slot.b, avail)
            else f0.slot == Unset && f0.need <= avail
  {
  }

  lemma SearchEnd(pool: Pool, f0: Found, id: nat, nb: nat, N: nat, used: nat, avail: nat)
    requires Searching(pool, f0, id, nb, N, used, avail) && used + nb <= avail
    requires Low(N, nb) < |pool[id]| ==> !IsLink(pool[id][Low(N, nb)], nb)
    ensures f0.need <= avail && f0.used == used
    ensures f0.slot == if Low(N, nb) < |pool[id]| && (pool[id][Low(N, nb)].Huft? ==> pool[id][Low(N, nb)].b <= nb)
                       then pool[id][Low(N, nb)] else Unset
  {
  }

  lemma NoTable(lens: seq<nat>, s: nat, d: seq<nat>, e: seq<nat>, pool: Pool, bl: nat, bits: seq<bit>, pos0: nat, pos: int, slot: Slot)
    requires Decodes(lens, s, d, e, pool, bl) && pool == []
    ensures Decoded(Wild, slot, DecodeSym(lens, bits, pos0), pos, |bits|, pos0, s, d, e)
  {
  }

  lemma LEDrop(bits: seq<bit>, pos: nat, n: nat)
    requires pos + n <= |bits|
    ensures LE(bits[pos + n..]) == Shr(LE(bits[pos..]), n)
  {
    LESplit(bits[pos..], n);
    assert bits[pos..][n..] == bits[pos + n..];
  }

  lemma SearchBound(pool: Pool, f0: Found, id: nat, nb: nat, N: nat, used: nat, avail: nat)
    requires Searching(pool, f0, id, nb, N, used, avail)
    ensures id < |pool| && used + nb <= f0.need
  {
  }

  /** While a good slot is to be found, the index stays inside the table, and no slot asks for
      more bits to be dropped than were looked at. */
  lemma StillSearching(pool: Pool, f0: Found, id: nat, nb: nat, N: nat, used: nat, avail: nat)
    requires Searching(pool, f0, id, nb, N, used, avail) && used + nb <= avail
    requires f0.need <= avail ==> f0.slot != Unset
    ensures Low(N, nb) < |pool[id]|
    ensures var slot := pool[id][Low(N, nb)];
            && (slot.Huft? ==> slot.b <= nb)
            && (IsLink(slot, nb) ==> slot.v.Next? && id < slot.v.table < |pool|)
  {
  }

  /** What the outcome of a table lookup tells about the symbol in the stream. */
  ghost predicate Decoded(o: Outcome, slot: Slot, r: Parse<nat>, pos: int, n: nat, pos0: int, s: nat, d: seq<nat>, e: seq<nat>) {
    |d| == |e| && (r.Ok? ==> r.val < s + |d|) &&
    match o
    case Return(c) =>
      if c == 0 then r.Ok? && r.pos == pos && slot.Huft? && slot.e <= 16 && slot == SymSlot(s, d, e, r.val, slot.b)
      else c == 1 && if r.Ok? then SymSlot(s, d, e, r.val, 0).e == 99
                     else r.error == Unassigned || r.error == Invalid(1)
    case OutOfInput => n < pos0 + 16
    case Halted => false
    case Wild => r == Err(Unassigned)
  }

  lemma FoundSlot(lens: seq<nat>, s: nat, d: seq<nat>, e: seq<nat>, pool: Pool, bl: nat, bits: seq<bit>, pos0: nat, slot: Slot, o: Outcome)
    requires Decodes(lens, s, d, e, pool, bl) && pool != [] && pos0 <= |bits|
    requires var f := Lookup(pool, 0, bl, LE(bits[pos0..]), 0);
             f.need <= |bits| - pos0 && f.slot == slot
    requires o == if !slot.Huft? then Wild else if slot.e == 99 then Return(1) else Return(0)
    requires slot.Huft? ==> slot.e <= 16 || slot.e == 99
    ensures slot != Unset
    ensures var f := Lookup(pool, 0, bl, LE(bits[pos0..]), 0);
            Decoded(o, slot, DecodeSym(lens, bits, pos0), if slot.Huft? then pos0 + f.used + slot.b else 0, |bits|, pos0, s, d, e)
  {
    assert DecodesAt(lens, s, d, e, pool, bl, bits, pos0);
    NoCodeIs(lens, bits, pos0);
  }

  lemma StartSearch(lens: seq<nat>, s: nat, d: seq<nat>, e: seq<nat>, pool: Pool, bl: nat, bits: seq<bit>, pos0: nat)
    requires Decodes(lens, s, d, e, pool, bl) && pool != [] && pos0 <= |bits|
    ensures var f0 := Lookup(pool, 0, bl, LE(bits[pos0..]), 0);
            && f0.need <= MaxLen(lens)
            && (f0.need <= |bits| - pos0 ==> f0.slot != Unset)
            && Searching(pool, f0, 0, bl, LE(bits[pos0..]), 0, |bits| - pos0)
  {
    assert DecodesAt(lens, s, d, e, pool, bl, bits, pos0);
    NoCodeIs(lens, bits, pos0);
  }

  lemma DecodedArgs(lens: seq<nat>, s: nat, d: seq<nat>, e: seq<nat>, pool: Pool, bl: nat, bits: seq<bit>, pos0: nat)
    requires Decodes(lens, s, d, e, pool, bl)
    ensures var r := DecodeSym(lens, bits, pos0); |d| == |e| && (r.Ok? ==> r.val < s + |d|)
  {
  }

  lemma OutDecoded(slot: Slot, r: Parse<nat>, pos: int, n: nat, pos0: int, s: nat, d: seq<nat>, e: seq<nat>)
    requires |d| == |e| && (r.Ok? ==> r.val < s + |d|) && n < pos0 + 16
    ensures Decoded(OutOfInput, slot, r, pos, n, pos0, s, d, e)
  {
  }

  lemma SamePos(o: Outcome, slot: Slot, r: Parse<nat>, pos: int, pos': int, n: nat, pos0: int, s: nat, d: seq<nat>, e: seq<nat>)
    requires Decoded(o, slot, r, pos, n, pos0, s, d, e) && (o == Return(0) ==> pos' == pos)
    ensures Decoded(o, slot, r, pos', n, pos0, s, d, e)
  {
  }

  /** The only errors of the symbol decoder. */
  lemma {:induction false} NoCodeFrom(lens: seq<nat>, bits: seq<bit>, pos: nat, k: nat, code: nat)
    ensures var r := DecodeFrom(lens, bits, pos, k, code);
            r.Err? ==> r.error == Truncated || r.error == Unassigned || r.error == Invalid(1)
    decreases MaxLen(lens) - k
  {
    if k >= MaxLen(lens) || pos >= |bits| {
    } else {
      NoCodeFrom(lens, bits, pos + 1, k + 1, 2 * code + bits[pos]);
    }
  }

  lemma NoCodeIs(lens: seq<nat>, bits: seq<bit>, pos: nat)
    ensures var r := DecodeSym(lens, bits, pos);
            r.Err? ==> r.error == Truncated || r.error == Unassigned || r.error == Invalid(1)
  {
    NoCodeFrom(lens, bits, pos, 0, 0);
  }

  // ----- the steps of the reference decoder, as the routines take them

  lemma LitSlot(slot: Slot, sym: nat)
    requires slot.Huft? && sym < 257 + |CPLENS| && slot == SymSlot(257, CPLENS, CPLEXT, sym, slot.b) && slot.e <= 16
    ensures slot.v.Num?
    ensures if slot.e == 16 then sym < 256 && slot.v.n == sym
            else if slot.e == 15 then sym == 256
            else 257 <= sym <= 285 && slot.e == LengthExtra(sym - 257) && slot.v.n == LengthBase(sym - 257)
  {
    ExtrasAreDeflate();
    if 257 <= sym <= 285 {
      LengthsAreDeflate(sym - 257);
    }
  }

  lemma BadLitSlot(sym: nat)
    requires sym < 257 + |CPLENS| && SymSlot(257, CPLENS, CPLEXT, sym, 0).e == 99
    ensures sym > 285
  {
    ExtrasAreDeflate();
  }

  lemma DistSlot(slot: Slot, sym: nat)
    requires slot.Huft? && sym < |CPDIST| && slot == SymSlot(0, CPDIST, CPDEXT, sym, slot.b)
    ensures slot.v.Num? && sym < 30 && slot.e == DistExtra(sym) <= 13 && slot.v.n == DistBase(sym)
    ensures SymSlot(0, CPDIST, CPDEXT, sym, 0).e != 99
  {
    ExtrasAreDeflate();
    DistsAreDeflate(sym);
  }

  /** Tables that decode the lengths ll (of literals and lengths) and dl (of distances). */
  ghost predicate LitTables(ll: seq<nat>, tl: Pool, bl: nat) {
    Decodes(ll, 257, CPLENS, CPLEXT, tl, bl) && MaxLen(ll) <= 15
  }

  ghost predicate DistTables(dl: seq<nat>, td: Pool, bd: nat) {
    Decodes(dl, 0, CPDIST, CPDEXT, td, bd) && MaxLen(dl) <= 15
  }

  /** Shifting the next byte in above the buffered bits. */
  lemma MoreBits(input: seq<byte>, pos: nat, p: nat)
    requires pos <= 8 * p && p < |input|
    ensures LE(Stream(input)[pos..8 * (p + 1)]) == LE(Stream(input)[pos..8 * p]) + Shl(input[p], 8 * p - pos)
  {
    hide Stream, BitsOf, LE, Shl;
    var s := Stream(input);
    StreamByte(input, p);
    LEAppend(s[pos..8 * p], s[8 * p..8 * p + 8]);
    assert s[pos..8 * p] + s[8 * p..8 * p + 8] == s[pos..8 * (p + 1)];
  }

  class Inflater {
    const input: seq<byte>
    var inptr: nat
    var bb: nat            // bit buffer
    var bk: nat            // bits in bit buffer
    const out: Output

    constructor (input: seq<byte>, out: Output)
      ensures this.input == input && this.out == out && inptr == 0 && bb == 0 && bk == 0
    {
      this.input := input;
      this.out := out;
      inptr, bb, bk := 0, 0, 0;
    }

    /** The stream position: bits read from the input but still in the buffer are not used. */
    ghost function Pos(): int
      reads this
    {
      8 * inptr - bk
    }

    /** The bit buffer holds the next bk bits of the stream, at most 23. */
    ghost predicate BitsOk()
      reads this
    {
      && inptr <= |input| && bk <= 8 * inptr && bk <= 23
      && bb == LE(Stream(input)[Pos()..8 * inptr])
    }

    lemma InBits()
      requires BitsOk()
      ensures 0 <= Pos() && Pos() + bk <= |Stream(input)|
    {
    }

    /** NEEDBITS(n) */
    method NeedBits(n: nat) returns (ok: bool)
      requires BitsOk() && n <= 16
      modifies this`inptr, this`bb, this`bk
      ensures BitsOk() && Pos() == old(Pos())
      ensures ok ==> n <= bk
      ensures !ok ==> Pos() + n > |Stream(input)|
    {
      while bk < n
        invariant BitsOk() && Pos() == old(Pos())
        decreases n - bk
      {
        if inptr >= |input| {
          return false;
        }
        MoreBits(input, Pos(), inptr);
        bb := bb + Shl(input[inptr], bk);
        inptr := inptr + 1;
        bk := bk + 8;
      }
      return true;
    }

    /** DUMPBITS(n) */
    method DumpBits(n: nat)
      requires BitsOk() && n <= bk
      modifies this`bb, this`bk
      ensures BitsOk() && Pos() == old(Pos()) + n && bk == old(bk) - n
    {
      hide Stream, LE, Low, Shr;
      ghost var s := Stream(input)[Pos()..8 * inptr];
      LESplit(s, n);
      assert s[n..] == Stream(input)[Pos() + n..8 * inptr];
      bb := Shr(bb, n);
      bk := bk - n;
    }

    /** The low bits of the buffer are the next bits of the stream. */
    lemma Peek(n: nat)
      requires BitsOk() && n <= bk
      ensures Low(bb, n) == LE(Stream(input)[Pos()..Pos() + n]) == Low(LE(Stream(input)[Pos()..]), n)
    {
      hide Stream, LE, Low;
      var s, rest := Stream(input)[Pos()..8 * inptr], Stream(input)[Pos()..];
      LESplit(s, n);
      LESplit(rest, n);
      assert s[..n] == Stream(input)[Pos()..Pos() + n] == rest[..n];
    }

    /** NEEDBITS(n), the low n bits, DUMPBITS(n) */
    method TakeBits(n: nat) returns (ok: bool, x: nat)
      requires BitsOk() && n <= 16
      modifies this`inptr, this`bb, this`bk
      ensures BitsOk() && Pos() >= old(Pos())
      ensures ok ==> ReadBits(Stream(input), old(Pos()), n) == Ok(x, Pos())
      ensures !ok ==> ReadBits(Stream(input), old(Pos()), n) == Err(Truncated) && |Stream(input)| < Pos() + 16
    {
      ok := NeedBits(n);
      x := 0;
      if ok {
        Peek(n);
        x := Low(bb, n);
        DumpBits(n);
      }
    }
  
    /** One table: NEEDBITS(nb), the entry that the next nb bits select. More says that the
        entry is a link. */
    method Entry(pool: Pool, id: nat, nb: nat, ghost f0: Found, ghost pos0: nat) returns (ok: bool, slot: Slot, more: bool)
      requires BitsOk() && pos0 <= Pos() && f0.need <= 15
      requires Searching(pool, f0, id, nb, LE(Stream(input)[Pos()..]), Pos() - pos0, |Stream(input)| - pos0)
      requires f0.need <= |Stream(input)| - pos0 ==> f0.slot != Unset
      modifies this`inptr, this`bb, this`bk
      ensures BitsOk() && Pos() == old(Pos())
      ensures !ok ==> |Stream(input)| < pos0 + 16
      ensures ok && !more ==> slot == f0.slot && f0.used == Pos() - pos0 && f0.need <= |Stream(input)| - pos0
      ensures ok && !more && slot.Huft? ==> slot.b <= bk && (slot.e <= 16 || slot.e == 99)
      ensures ok && more ==> slot.Huft? && slot.b <= bk && slot.e > 16 && slot.v.Next? && id < slot.v.table < |pool|
      ensures ok && more ==> Searching(pool, f0, slot.v.table, slot.e - 16, Shr(LE(Stream(input)[Pos()..]), slot.b),
                                       Pos() - pos0 + slot.b, |Stream(input)| - pos0)
    {
      hide *;
      slot, more := Unset, false;
      InBits();
      SearchBound(pool, f0, id, nb, LE(Stream(input)[Pos()..]), Pos() - pos0, |Stream(input)| - pos0);
      ok := NeedBits(nb);
      if !ok {
        return;
      }
      Peek(nb);
      InBits();
      var idx := Low(bb, nb);
      ghost var N := LE(Stream(input)[Pos()..]);
      StillSearching(pool, f0, id, nb, N, Pos() - pos0, |Stream(input)| - pos0);
      slot := pool[id][idx];
      more := slot.Huft? && slot.e > 16 && slot.e != 99;
      if more {
        LinkIs(slot, nb);
        SearchLink(pool, f0, id, nb, N, Pos() - pos0, |Stream(input)| - pos0);
      } else {
        LinkIs(slot, nb);
        SearchEnd(pool, f0, id, nb, N, Pos() - pos0, |Stream(input)| - pos0);
      }
    }

    /** The lookup loop: follows links through the tables and drops the bits of the code. */
    method Decode(pool: Pool, bl: nat, ghost lens: seq<nat>, ghost s: nat, ghost d: seq<nat>, ghost e: seq<nat>)
      returns (o: Outcome, slot: Slot)
      requires BitsOk() && Decodes(lens, s, d, e, pool, bl) && MaxLen(lens) <= 15
      modifies this`inptr, this`bb, this`bk
      ensures BitsOk() && Pos() >= old(Pos())
      ensures Decoded(o, slot, DecodeSym(lens, Stream(input), old(Pos())), Pos(), |Stream(input)|, old(Pos()), s, d, e)
    {
      hide *;
      ghost var bits, pos0 := Stream(input), Pos();
      InBits();
      if pool == [] {
        slot := Unset;
        NoTable(lens, s, d, e, pool, bl, bits, pos0, Pos(), slot);
        return Wild, slot;
      }
      ghost var f0 := Lookup(pool, 0, bl, LE(bits[pos0..]), 0);
      StartSearch(lens, s, d, e, pool, bl, bits, pos0);
      DecodedArgs(lens, s, d, e, pool, bl, bits, pos0);
      var id, nb: nat := 0, bl;
      while true
        invariant BitsOk() && pos0 <= Pos() <= |bits| && id < |pool|
        invariant Searching(pool, f0, id, nb, LE(bits[Pos()..]), Pos() - pos0, |bits| - pos0)
        decreases |pool| - id
      {
        var ok, more;
        ok, slot, more := Entry(pool, id, nb, f0, pos0);
        if !ok {
          OutDecoded(slot, DecodeSym(lens, bits, pos0), Pos(), |bits|, pos0, s, d, e);
          return OutOfInput, slot;
        }
        if !more {
          break;
        }
        ghost var pos := Pos();
        DumpBits(slot.b);
        InBits();
        LEDrop(bits, pos, slot.b);
        id, nb := slot.v.table, slot.e - 16;
      }
      o := if !slot.Huft? then Wild else if slot.e == 99 then Return(1) else Return(0);
      FoundSlot(lens, s, d, e, pool, bl, bits, pos0, slot, o);
      if o == Return(0) {
        DumpBits(slot.b);
      }
      SamePos(o, slot, DecodeSym(lens, bits, pos0), if slot.Huft? then pos0 + f0.used + slot.b else 0, Pos(), |bits|, pos0, s, d, e);
    }
  
    /** The length and distance of a match, after the slot of its length code. */
    method Pair(slot: Slot, td: Pool, bd: nat, ghost dl: seq<nat>, ghost i: nat) returns (o: Outcome, n: nat, d: nat)
      requires BitsOk() && DistTables(dl, td, bd)
      requires i < 29 && slot.Huft? && slot.v.Num? && slot.e == LengthExtra(i) && slot.v.n == LengthBase(i)
      modifies this`inptr, this`bb, this`bk
      ensures BitsOk() && Pos() >= old(Pos())
      ensures var r := ReadMatch(dl, Stream(input), old(Pos()), i);
              && Follows(o, r, |Stream(input)|)
              && (o == Return(0) ==> r == Ok(Match(n, d), Pos()))
    {
      hide *;
      n, d := 0, 0;
      InBits();
      ghost var bits, p0 := Stream(input), Pos();
      PairTables(i, dl, td, bd);
      var ok, x := TakeBits(slot.e);
      ghost var p1 := Pos();
      InBits();
      if !ok {
        PairNoExtra(dl, bits, p0, i, p1);
        return OutOfInput, n, d;
      }
      n := slot.v.n + x;
      var t;
      o, t := Decode(td, bd, dl, 0, CPDIST, CPDEXT);
      ghost var p2 := Pos();
      InBits();
      if o != Return(0) {
        PairNoDist(dl, bits, p0, i, x, p1, o, t, p2);
        return;
      }
      PairDist(dl, bits, p1, o, t, p2);
      var y;
      ok, y := TakeBits(t.e);
      InBits();
      if !ok {
        PairNoOffset(dl, bits, p0, i, x, p1, p2, Pos());
        return OutOfInput, n, d;
      }
      d := t.v.n + y;
      PairDone(dl, bits, p0, i, x, p1, o, p2, y, Pos());
    }

    /** Inflates the codes in a compressed block. */
    method InflateCodes(tl: Pool, td: Pool, bl: nat, bd: nat, ghost ll: seq<nat>, ghost dl: seq<nat>) returns (o: Outcome)
      requires BitsOk() && out.Valid() && out.outcnt < WSIZE
      requires LitTables(ll, tl, bl) && DistTables(dl, td, bd)
      modifies this`inptr, this`bb, this`bk, out, out.slide
      ensures BitsOk() && out.Valid() && out.outcnt < WSIZE && |old(out.history)| >= WSIZE
      ensures o == Return(0) ==> Codes(ll, dl, Stream(input), old(Pos()), old(out.history)) == Ok(out.history, Pos())
      ensures o.Return? ==> o.code <= 1
      ensures Follows(o, Codes(ll, dl, Stream(input), old(Pos()), old(out.history)), |Stream(input)|)
    {
      hide *;
      ghost var bits, h0 := Stream(input), out.history;
      InBits();
      HistoryLong(out);
      LitTablesAre(ll, tl, bl);
      ghost var r := Codes(ll, dl, bits, Pos(), h0);
      while true
        invariant BitsOk() && out.Valid() && out.outcnt < WSIZE && 0 <= Pos() <= |bits| && |out.history| >= WSIZE
        invariant r == Codes(ll, dl, bits, Pos(), out.history)
        decreases |bits| - Pos()
      {
        ghost var pos, h := Pos(), out.history;
        var t;
        o, t := Decode(tl, bl, ll, 257, CPLENS, CPLEXT);
        InBits();
        ghost var p := Pos();
        if o != Return(0) {
          DecodedCode(o, t, DecodeSym(ll, bits, pos), p, |bits|, pos, 257, CPLENS, CPLEXT);
          CodesNoSymbol(ll, dl, bits, pos, h, o, t, p);
          return;
        }
        CodesSymbol(ll, dl, bits, pos, h, t, p);
        if t.e == 16 {
          out.Put(t.v.n);
        } else if t.e == 15 {
          return;
        } else {
          ghost var i := DecodeSym(ll, bits, pos).val - 257;
          var n, d;
          o, n, d := Pair(t, td, bd, dl, i);
          InBits();
          if o != Return(0) {
            PairCode(dl, bits, p, i, o, Pos());
            CodesNoPair(ll, dl, bits, pos, h, p, i, o, Pos());
            return;
          }
          CodesPair(ll, dl, bits, pos, h, p, i, n, d, Pos());
          out.CopyMatch(n, d);
        }
      }
    }
  
    /** "Decompresses" a stored block. */
    method InflateStored() returns (o: Outcome)
      requires BitsOk() && out.Valid() && out.outcnt < WSIZE
      modifies this`inptr, this`bb, this`bk, out, out.slide
      ensures BitsOk() && out.Valid() && out.outcnt < WSIZE
      ensures o == Return(0) ==> Stored(Stream(input), old(Pos()), old(out.history)) == Ok(out.history, Pos())
      ensures Follows(o, Stored(Stream(input), old(Pos()), old(out.history)), |Stream(input)|)
    {
      hide *;
      InBits();
      ghost var bits, p0, h0 := Stream(input), Pos(), out.history;
      var n: nat := bk % 8;
      ToBoundary();
      DumpBits(n);
      InBits();
      var ok;
      ok, n := TakeBits(16);
      if !ok {
        StoredNoLength(bits, p0, h0, Pos());
        return OutOfInput;
      }
      InBits();
      ghost var p1 := Pos();
      var complement;
      ok, complement := TakeBits(16);
      if !ok {
        StoredNoComplement(bits, p0, h0, n, p1, Pos());
        return OutOfInput;
      }
      InBits();
      ghost var p2, size := Pos(), n;
      StoredLength(bits, p0, h0, n, p1, complement, p2);
      if n != 0xffff - complement {  // ~b & 0xffff
        return Return(1);
      }
      ghost var r := Stored(bits, p0, h0);
      while n != 0
        invariant BitsOk() && out.Valid() && out.outcnt < WSIZE && 0 <= Pos() <= |bits| && 0 <= n
        invariant r == ReadBytes(bits, Pos(), n, out.history)
        decreases n
      {
        ghost var pos := Pos();
        var b;
        ok, b := TakeBits(8);
        if !ok {
          ByteMissing(bits, pos, n, out.history, Pos());
          return OutOfInput;
        }
        InBits();
        ByteRead(bits, pos, n, out.history, b, Pos());
        out.Put(b);
        n := n - 1;
      }
      BytesDone(bits, Pos(), out.history);
      return Return(0);
    }

    lemma StartBits()
      requires inptr == 0 && bk == 0 && bb == 0
      ensures BitsOk()
    {
    }

    lemma PosIs()
      ensures Pos() == 8 * inptr - bk
    {
    }

    lemma ToBoundary()
      requires BitsOk()
      ensures bk % 8 <= bk && Pos() + bk % 8 == ByteBoundary(Pos())
    {
    }
  
    /** Decompresses a block with fixed Huffman codes. */
    method InflateFixed() returns (o: Outcome)
      requires BitsOk() && out.Valid() && out.outcnt < WSIZE
      modifies this`inptr, this`bb, this`bk, out, out.slide
      ensures BitsOk() && out.Valid() && out.outcnt < WSIZE && |old(out.history)| >= WSIZE
      ensures var r := Codes(FixedLengths(), FixedDistances(), Stream(input), old(Pos()), old(out.history));
              && (o == Return(0) ==> r == Ok(out.history, Pos()))
              && Follows(o, r, |Stream(input)|)
    {
      hide *;
      InBits();
      HistoryLong(out);
      var l := FixedLitLengths();
      FixedLitFacts();
      var i, tl, bl := BuildTables(l, 257, CPLENS, CPLEXT, 7);
      if i != 0 {
        return Return(i);
      }
      var ld := FixedDistLengths();
      FixedDistFacts();
      var td, bd;
      i, td, bd := BuildTables(ld, 0, CPDIST, CPDEXT, 5);
      if i > 1 {
        return Return(i);
      }
      BothTables(l, tl, bl, ld, td, bd);
      o := InflateCodes(tl, td, bl, bd, l, ld);
      if o.Return? && o.code != 0 {
        return Return(1);
      }
    }
  
    /** Reads the code lengths of the code length alphabet into ll, in their odd order. */
    method BitLengths(nb: nat, ll: array<nat>) returns (ok: bool)
      requires BitsOk() && 4 <= nb <= 19 && ll.Length == 316
      modifies this`inptr, this`bb, this`bk, ll
      ensures BitsOk() && Pos() >= old(Pos())
      ensures var r := ReadCodeLens(Stream(input), old(Pos()), nb, 0, seq(19, _ => 0));
              if ok then r == Ok(ll[..19], Pos()) else r == Err(Truncated)
    {
      hide *;
      InBits();
      BorderIsPermutation();
      ghost var bits := Stream(input);
      ghost var acc: seq<nat> := seq(19, _ => 0);
      ghost var r := ReadCodeLens(bits, Pos(), nb, 0, acc);
      var j: nat := 0;
      while j < nb
        invariant BitsOk() && old(Pos()) <= Pos() && 0 <= Pos() <= |bits| && j <= nb && |acc| == 19
        invariant r == ReadCodeLens(bits, Pos(), nb, j, acc)
        invariant forall i :: 0 <= i < 19 ==> if INVERSE[i] < j then ll[i] == acc[i] else acc[i] == 0
      {
        ghost var pos := Pos();
        var x;
        ok, x := TakeBits(3);
        InBits();
        if !ok {
          CodeLenMissing(bits, pos, nb, j, acc);
          return;
        }
        CodeLenRead(bits, pos, nb, j, acc, x, Pos());
        ll[BORDER[j]] := x;
        acc := acc[BORDER[j] := x];
        j := j + 1;
      }
      CodeLensDone(bits, Pos(), nb, acc);
      while j < 19
        invariant nb <= j <= 19
        invariant BitsOk() && old(Pos()) <= Pos() && 0 <= Pos() <= |bits|
        invariant r == Ok(acc, Pos())
        invariant forall i :: 0 <= i < 19 ==> if INVERSE[i] < j then ll[i] == acc[i] else acc[i] == 0
      {
        ll[BORDER[j]] := 0;
        j := j + 1;
      }
      ok := true;
      assert ll[..19] == acc;
    }

    /** A symbol of the code length alphabet: all its codes fit into one table. */
    method DecodeDirect(tl: Pool, bl: nat, ghost cl: seq<nat>) returns (o: Outcome, j: nat)
      requires BitsOk() && Decodes(cl, 19, [], [], tl, bl) && |cl| == 19 && MaxLen(cl) <= 7 && bl == MaxLen(cl)
      requires BadLens(cl) == 0
      modifies this`inptr, this`bb, this`bk
      ensures BitsOk() && Pos() >= old(Pos())
      ensures var r := DecodeSym(cl, Stream(input), old(Pos()));
              match o
              case Return(c) => c == 0 && r == Ok(j, Pos()) && j < 19
              case OutOfInput => |Stream(input)| < old(Pos()) + 16
              case Halted => false
              case Wild => r == Err(Unassigned)
    {
      hide *;
      InBits();
      ghost var bits, pos := Stream(input), Pos();
      j := 0;
      if tl == [] {
        NullTable(cl, tl, bl, bits, pos);
        return Wild, j;
      }
      var ok := NeedBits(bl);
      InBits();
      if !ok {
        return OutOfInput, j;
      }
      Peek(bl);
      DirectSlot(cl, tl, bl, bits, pos);
      var slot := tl[0][Low(bb, bl)];
      if !slot.Huft? || slot.e == 99 {
        return Wild, j;  // the entry has no value of its own
      }
      DumpBits(slot.b);
      j := slot.v.n;
      o := Return(0);
    }

    /** How often symbol j of the code lengths repeats a length. */
    method RepeatCount(j: nat) returns (ok: bool, count: nat)
      requires BitsOk() && 16 <= j < 19
      modifies this`inptr, this`bb, this`bk
      ensures BitsOk() && Pos() >= old(Pos()) >= 0
      ensures ok ==> count >= RepeatBase(j) && ReadBits(Stream(input), old(Pos()), RepeatExtra(j)) == Ok(count - RepeatBase(j), Pos())
      ensures !ok ==> ReadBits(Stream(input), old(Pos()), RepeatExtra(j)) == Err(Truncated)
    {
      hide *;
      InBits();
      RepeatIs(j);
      var x;
      ok, x := TakeBits(if j == 16 then 2 else if j == 17 then 3 else 7);
      InBits();
      count := (if j == 18 then 11 else 3) + x;
    }

    /** One turn of the loop that reads lengths in: a length, or a run of the same length. */
    method CodeLength(tl: Pool, bl: nat, ghost cl: seq<nat>, n: nat, ll: array<nat>, i: nat, l: nat, ghost acc: seq<nat>)
      returns (o: Outcome, i': nat, l': nat, ghost acc': seq<nat>)
      requires BitsOk() && Decodes(cl, 19, [], [], tl, bl) && |cl| == 19 && MaxLen(cl) <= 7 && bl == MaxLen(cl)
      requires BadLens(cl) == 0 && i < n <= ll.Length && acc == ll[..i]
      modifies this`inptr, this`bb, this`bk, ll
      ensures BitsOk() && Pos() >= old(Pos()) >= 0
      ensures o == Return(0) ==> i < i' <= n && acc' == ll[..i']
      ensures o == Return(0) ==> ReadLens(cl, Stream(input), old(Pos()), n, acc, l) == ReadLens(cl, Stream(input), Pos(), n, acc', l')
      ensures o != Return(0) ==> Follows(o, ReadLens(cl, Stream(input), old(Pos()), n, acc, l), |Stream(input)|)
    {
      hide *;
      InBits();
      ghost var bits, pos := Stream(input), Pos();
      i', l', acc' := i, l, acc;
      var j;
      o, j := DecodeDirect(tl, bl, cl);
      InBits();
      ghost var p := Pos();
      if o != Return(0) {
        LensNoSymbol(cl, bits, pos, n, acc, l, o, p);
        return;
      }
      if j < 16 {
        LensLiteral(cl, bits, pos, n, acc, l, j, p);
        ll[i] := j;
        acc' := acc + [j];
        i', l' := i + 1, j;
        return;
      }
      var ok, count := RepeatCount(j);
      InBits();
      if !ok {
        LensNoCount(cl, bits, pos, n, acc, l, j, p, Pos());
        return OutOfInput, i, l, acc;
      }
      if j != 16 {
        l' := 0;
      }
      LensRepeat(cl, bits, pos, n, acc, l, j, p, count - RepeatBase(j), Pos());
      if i + count > n {
        o := Return(1);
        return;
      }
      SomeRepeats(j);
      FillRun(ll, i, count, l');
      acc' := acc + Repeats(count, l');
      i' := i + count;
    }

    /** Reads n literal and distance code lengths into ll. */
    method CodeLengths(tl: Pool, bl: nat, ghost cl: seq<nat>, n: nat, ll: array<nat>) returns (o: Outcome)
      requires BitsOk() && Decodes(cl, 19, [], [], tl, bl) && |cl| == 19 && MaxLen(cl) <= 7 && bl == MaxLen(cl)
      requires BadLens(cl) == 0 && n <= ll.Length
      modifies this`inptr, this`bb, this`bk, ll
      ensures BitsOk() && Pos() >= old(Pos())
      ensures var r := ReadLens(cl, Stream(input), old(Pos()), n, [], 0);
              && (o == Return(0) ==> r == Ok(ll[..n], Pos()))
              && Follows(o, r, |Stream(input)|)
    {
      hide *;
      InBits();
      ghost var bits, acc: seq<nat> := Stream(input), [];
      ghost var r := ReadLens(cl, bits, Pos(), n, [], 0);
      var i: nat, l: nat := 0, 0;
      while i < n
        invariant BitsOk() && old(Pos()) <= Pos() && 0 <= Pos() <= |bits| && i <= n && acc == ll[..i]
        invariant r == ReadLens(cl, bits, Pos(), n, acc, l)
        decreases n - i
      {
        o, i, l, acc := CodeLength(tl, bl, cl, n, ll, i, l, acc);
        InBits();
        if o != Return(0) {
          return;
        }
      }
      LensDone(cl, bits, Pos(), n, acc, l);
      return Return(0);
    }
  
    /** The part of inflate_dynamic that reads the code lengths of the block. */
    method ReadLengths() returns (o: Outcome, ll: seq<nat>, dl: seq<nat>)
      requires BitsOk()
      modifies this`inptr, this`bb, this`bk
      ensures BitsOk() && Pos() >= old(Pos())
      ensures var r := ReadTrees(Stream(input), old(Pos()));
              && (o == Return(0) ==> r == Ok(Trees(ll, dl), Pos()))
              && Follows(o, r, |Stream(input)|)
    {
      hide *;
      InBits();
      ghost var bits, p0 := Stream(input), Pos();
      ll, dl := [], [];
      var ok, nl, nd, nb;
      ok, nl := TakeBits(5);
      InBits();
      ghost var p1 := Pos();
      if !ok {
        NoCounts(bits, p0, p0, 0, p0, 0);
        return OutOfInput, ll, dl;
      }
      ok, nd := TakeBits(5);
      InBits();
      ghost var p2 := Pos();
      if !ok {
        NoCounts(bits, p0, p1, nl, p1, 0);
        return OutOfInput, ll, dl;
      }
      ok, nb := TakeBits(4);
      InBits();
      if !ok {
        NoCounts(bits, p0, p1, nl, p2, nd);
        return OutOfInput, ll, dl;
      }
      Counted(bits, p0, p1, nl, p2, nd, Pos(), nb);
      o, ll, dl := ReadLengthsOf(257 + nl, 1 + nd, 4 + nb);
    }

    method ReadLengthsOf(nl: nat, nd: nat, nb: nat) returns (o: Outcome, ll: seq<nat>, dl: seq<nat>)
      requires BitsOk() && nl >= 257 && nd >= 1 && 4 <= nb <= 19
      modifies this`inptr, this`bb, this`bk
      ensures BitsOk() && Pos() >= old(Pos())
      ensures var r := ReadTreesOf(Stream(input), old(Pos()), nl, nd, nb);
              && (o == Return(0) ==> r == Ok(Trees(ll, dl), Pos()))
              && Follows(o, r, |Stream(input)|)
    {
      hide *;
      InBits();
      ghost var bits, p0 := Stream(input), Pos();
      ll, dl := [], [];
      if nl > 286 || nd > 30 {
        TooMany(bits, p0, nl, nd, nb, p0);
        return Return(1), ll, dl;
      }
      var lens := new nat[316];
      var ok := BitLengths(nb, lens);
      InBits();
      ghost var p1 := Pos();
      var cl := lens[..19];
      if !ok {
        NoBitLengths(bits, p0, nl, nd, nb, Pos());
        return OutOfInput, ll, dl;
      }
      BitLengthFacts(bits, p0, nb, cl, p1);
      var i, tl, bl := BuildTables(cl, 19, [], [], 7);
      if i != 0 {
        BadBitLengths(bits, p0, nl, nd, nb, cl, p1);
        return Return(i), ll, dl;
      }
      o := CodeLengths(tl, bl, cl, nl + nd, lens);
      InBits();
      LengthsRead(bits, p0, nl, nd, nb, cl, p1, o, lens[..nl + nd], Pos());
      ll, dl := lens[..nl], lens[nl..nl + nd];
      assert lens[..nl + nd][..nl] == ll && lens[..nl + nd][nl..] == dl;
    }

    /** Decompresses a block with dynamic Huffman codes. An incomplete tree halts the system. */
    method InflateDynamic() returns (o: Outcome)
      requires BitsOk() && out.Valid() && out.outcnt < WSIZE
      modifies this`inptr, this`bb, this`bk, out, out.slide
      ensures BitsOk() && out.Valid() && out.outcnt < WSIZE && |old(out.history)| >= WSIZE
      ensures var r := Dynamic(Stream(input), old(Pos()), old(out.history));
              && (o == Return(0) ==> r == Ok(out.history, Pos()))
              && Follows(o, r, |Stream(input)|)
    {
      hide *;
      InBits();
      HistoryLong(out);
      ghost var bits, p0, h := Stream(input), Pos(), out.history;
      var ll, dl;
      o, ll, dl := ReadLengths();
      InBits();
      ghost var p := Pos();
      if o != Return(0) {
        DynamicNoTrees(bits, p0, h, o, p);
        return;
      }
      DynamicTrees(bits, p0, h, ll, dl, p, p);
      TreesArgs(bits, p0, ll, dl, p);
      var i, tl, bl := BuildTables(ll, 257, CPLENS, CPLEXT, 9);
      if i != 0 {
        return if i == 1 then Halted else Return(i);
      }
      var td, bd;
      i, td, bd := BuildTables(dl, 0, CPDIST, CPDEXT, 6);
      if i != 0 {
        return if i == 1 then Halted else Return(i);
      }
      BothTables(ll, tl, bl, dl, td, bd);
      o := InflateCodes(tl, td, bl, bd, ll, dl);
      if o.Return? && o.code != 0 {
        return Return(1);
      }
    }

    /** Decompresses one block, and tells whether it is the last. */
    method InflateBlock() returns (o: Outcome, last: bool)
      requires BitsOk() && out.Valid() && out.outcnt < WSIZE
      modifies this`inptr, this`bb, this`bk, out, out.slide
      ensures BitsOk() && out.Valid() && out.outcnt < WSIZE && |old(out.history)| >= WSIZE
      ensures var r := ReadBlock(Stream(input), old(Pos()), old(out.history));
              && (o == Return(0) ==> r == Ok(Block(last, out.history), Pos()))
              && Follows(o, r, |Stream(input)|)
    {
      hide *;
      InBits();
      HistoryLong(out);
      ghost var bits, p0, h := Stream(input), Pos(), out.history;
      last := false;
      var ok, x, t;
      ok, x := TakeBits(1);
      InBits();
      ghost var p1 := Pos();
      if !ok {
        NoBlockHeader(bits, p0, h, p0, 0);
        return OutOfInput, last;
      }
      last := x == 1;
      ok, t := TakeBits(2);
      InBits();
      ghost var p2 := Pos();
      if !ok {
        NoBlockHeader(bits, p0, h, p1, x);
        return OutOfInput, last;
      }
      BodyIs(bits, p2, h, t);
      if t == 2 {
        o := InflateDynamic();
      } else if t == 0 {
        o := InflateStored();
      } else if t == 1 {
        o := InflateFixed();
      } else {
        o := Return(2);
      }
      InBits();
      BlockDone(bits, p0, h, p1, x, p2, t, o, out.history, Pos());
    }

    /** Decompresses an entry: all blocks, then lookahead that was too much is given back and
        the rest of the window is flushed. */
    method Inflate() returns (o: Outcome)
      requires inptr == 0 && bb == 0 && bk == 0 && out.Valid() && out.outcnt == 0 && out.output == []
      modifies this`inptr, this`bb, this`bk, out, out.slide
      ensures |old(out.history)| >= WSIZE
      ensures Follows(o, Blocks(Stream(input), 0, old(out.history)), |Stream(input)|)
      ensures o == Return(0) ==>
        var r := Blocks(Stream(input), 0, old(out.history));
        && r.val == out.preset + out.output
        && inptr == (r.pos + 7) / 8
        && Crc.Xor(out.crc, Crc.ALL_ONES) == Crc.Crc32(out.output)
      ensures var r := Blocks(Stream(input), 0, old(out.history));
        r.Ok? && r.pos + 16 <= |Stream(input)| ==> o == Return(0)
    {
      hide *;
      HistoryLong(out);
      StartBits();
      PosIs();
      ghost var bits, h0 := Stream(input), out.history;
      ghost var r := Blocks(bits, 0, h0);
      while true
        invariant BitsOk() && out.Valid() && out.outcnt < WSIZE && 0 <= Pos() <= |bits| && |out.history| >= WSIZE
        invariant r == Blocks(bits, Pos(), out.history)
        decreases |bits| - Pos()
      {
        ghost var pos, h := Pos(), out.history;
        var last;
        o, last := InflateBlock();
        InBits();
        HistoryLong(out);
        BlocksNext(bits, pos, h, o, last, out.history, Pos());
        if o != Return(0) {
          if r.Ok? && r.pos + 16 <= |bits| {
            NotFollowed(o, r, 0, |bits|);
          }
          return;
        }
        if last {
          break;
        }
      }
      PosIs();
      ghost var pos := Pos();
      while bk >= 8
        invariant 8 * inptr - bk == pos >= 0 && out.Valid() && r == Ok(out.history, pos)
      {
        bk := bk - 8;
        inptr := inptr - 1;
      }
      out.Flush();
      EndFacts(out, r, pos, |bits|);
    }
  }

  lemma NoBlockHeader(bits: seq<bit>, p0: nat, h: seq<byte>, p1: nat, x: nat)
    requires |h| >= WSIZE
    requires ReadBits(bits, p0, 1) == Err(Truncated)
          || (ReadBits(bits, p0, 1) == Ok(x, p1) && ReadBits(bits, p1, 2) == Err(Truncated))
    ensures Follows(OutOfInput, ReadBlock(bits, p0, h), |bits|)
  {
  }

  lemma BodyIs(bits: seq<bit>, pos: nat, h: seq<byte>, kind: nat)
    requires |h| >= WSIZE
    ensures BlockBody(bits, pos, kind, h) ==
            if kind == 2 then Dynamic(bits, pos, h)
            else if kind == 0 then Stored(bits, pos, h)
            else if kind == 1 then Codes(FixedLengths(), FixedDistances(), bits, pos, h)
            else Err(Invalid(2))
    ensures kind > 2 ==> Follows(Return(2), BlockBody(bits, pos, kind, h), |bits|)
  {
  }

  lemma BlockDone(bits: seq<bit>, p0: nat, h: seq<byte>, p1: nat, x: nat, p2: nat, kind: nat, o: Outcome, h': seq<byte>, p: int)
    requires |h| >= WSIZE && ReadBits(bits, p0, 1) == Ok(x, p1) && ReadBits(bits, p1, 2) == Ok(kind, p2)
    requires Follows(o, BlockBody(bits, p2, kind, h), |bits|)
    requires o == Return(0) ==> p >= 0 && BlockBody(bits, p2, kind, h) == Ok(h', p)
    ensures Follows(o, ReadBlock(bits, p0, h), |bits|)
    ensures o == Return(0) ==> ReadBlock(bits, p0, h) == Ok(Block(x == 1, h'), p)
  {
  }

  lemma BlocksNext(bits: seq<bit>, pos: nat, h: seq<byte>, o: Outcome, last: bool, h': seq<byte>, p: int)
    requires |h| >= WSIZE && Follows(o, ReadBlock(bits, pos, h), |bits|)
    requires o == Return(0) ==> p >= 0 && ReadBlock(bits, pos, h) == Ok(Block(last, h'), p)
    ensures o != Return(0) ==> Follows(o, Blocks(bits, pos, h), |bits|)
    ensures o == Return(0) ==>
      |h'| >= WSIZE && pos < p <= |bits| && Blocks(bits, pos, h) == if last then Ok(h', p) else Blocks(bits, p, h')
  {
  }

  lemma EndFacts(out: Output, r: Parse<seq<byte>>, pos: nat, n: nat)
    requires r.Ok? && r.pos == pos && out.Flushed()
    ensures Follows(Return(0), r, n)
    ensures Crc.Xor(out.crc, Crc.ALL_ONES) == Crc.Crc32(out.output)
  {
  }

  /** A stream that decodes, with two spare bytes behind it, leaves no other outcome. */
  lemma NotFollowed<T>(o: Outcome, r: Parse<T>, pos: int, n: nat)
    requires Follows(o, r, n) && r.Ok? && r.pos + 16 <= n
    ensures o == Return(0)
  {
  }

  lemma NoCounts(bits: seq<bit>, p0: nat, p1: nat, x: nat, p2: nat, y: nat)
    requires ReadBits(bits, p0, 5) == Err(Truncated)
          || (ReadBits(bits, p0, 5) == Ok(x, p1)
              && (ReadBits(bits, p1, 5) == Err(Truncated)
                  || (ReadBits(bits, p1, 5) == Ok(y, p2) && ReadBits(bits, p2, 4) == Err(Truncated))))
    ensures Follows(OutOfInput, ReadTrees(bits, p0), |bits|)
  {
  }

  lemma Counted(bits: seq<bit>, p0: nat, p1: nat, x: nat, p2: nat, y: nat, p3: nat, z: nat)
    requires ReadBits(bits, p0, 5) == Ok(x, p1) && ReadBits(bits, p1, 5) == Ok(y, p2) && ReadBits(bits, p2, 4) == Ok(z, p3)
    ensures z <= 15 && ReadTrees(bits, p0) == ReadTreesOf(bits, p3, 257 + x, 1 + y, 4 + z)
  {
    assert Pow2(4) == 16;
    hide ReadTreesOf, ReadBits, Pow2;
  }

  lemma TooMany(bits: seq<bit>, p0: nat, nl: nat, nd: nat, nb: nat, p: int)
    requires nl >= 257 && nd >= 1 && nb <= 19 && (nl > 286 || nd > 30)
    ensures Follows(Return(1), ReadTreesOf(bits, p0, nl, nd, nb), |bits|)
  {
  }

  lemma NoBitLengths(bits: seq<bit>, p0: nat, nl: nat, nd: nat, nb: nat, p: int)
    requires 257 <= nl <= 286 && 1 <= nd <= 30 && nb <= 19
    requires ReadCodeLens(bits, p0, nb, 0, seq(19, _ => 0)) == Err(Truncated)
    ensures Follows(OutOfInput, ReadTreesOf(bits, p0, nl, nd, nb), |bits|)
  {
  }

  lemma BitLengthFacts(bits: seq<bit>, p0: nat, nb: nat, cl: seq<nat>, p1: nat)
    requires nb <= 19 && ReadCodeLens(bits, p0, nb, 0, seq(19, _ => 0)) == Ok(cl, p1)
    ensures Args(cl, 19, [], []) && |cl| == 19 <= N_MAX && MaxLen(cl) <= 7
  {
    assert AtMost(cl, 7);
  }

  lemma BadBitLengths(bits: seq<bit>, p0: nat, nl: nat, nd: nat, nb: nat, cl: seq<nat>, p1: nat)
    requires 257 <= nl <= 286 && 1 <= nd <= 30 && nb <= 19 && BadLens(cl) != 0
    requires ReadCodeLens(bits, p0, nb, 0, seq(19, _ => 0)) == Ok(cl, p1)
    ensures Follows(Return(BadLens(cl)), ReadTreesOf(bits, p0, nl, nd, nb), |bits|)
  {
  }

  lemma LengthsRead(bits: seq<bit>, p0: nat, nl: nat, nd: nat, nb: nat, cl: seq<nat>, p1: nat, o: Outcome, lens: seq<nat>, p: int)
    requires 257 <= nl <= 286 && 1 <= nd <= 30 && nb <= 19 && BadLens(cl) == 0 && |lens| == nl + nd
    requires ReadCodeLens(bits, p0, nb, 0, seq(19, _ => 0)) == Ok(cl, p1)
    requires Follows(o, ReadLens(cl, bits, p1, nl + nd, [], 0), |bits|)
    requires o == Return(0) ==> p >= 0 && ReadLens(cl, bits, p1, nl + nd, [], 0) == Ok(lens, p)
    ensures Follows(o, ReadTreesOf(bits, p0, nl, nd, nb), |bits|)
    ensures o == Return(0) ==> ReadTreesOf(bits, p0, nl, nd, nb) == Ok(Trees(lens[..nl], lens[nl..]), p)
  {
  }

  lemma DynamicNoTrees(bits: seq<bit>, p0: nat, h: seq<byte>, o: Outcome, p: int)
    requires |h| >= WSIZE && o != Return(0) && Follows(o, ReadTrees(bits, p0), |bits|)
    ensures Follows(o, Dynamic(bits, p0, h), |bits|)
  {
  }

  lemma DynamicTrees(bits: seq<bit>, p0: nat, h: seq<byte>, ll: seq<nat>, dl: seq<nat>, p: nat, p': int)
    requires |h| >= WSIZE && ReadTrees(bits, p0) == Ok(Trees(ll, dl), p)
    ensures BadLens(ll) > 0 ==> Follows(if BadLens(ll) == 1 then Halted else Return(BadLens(ll)), Dynamic(bits, p0, h), |bits|)
    ensures BadLens(ll) == 0 < BadLens(dl) ==>
              Follows(if BadLens(dl) == 1 then Halted else Return(BadLens(dl)), Dynamic(bits, p0, h), |bits|)
    ensures BadLens(ll) == 0 == BadLens(dl) ==> Dynamic(bits, p0, h) == Codes(ll, dl, bits, p, h)
  {
    hide BadLens, ReadTrees, Codes;
  }

  lemma TreesArgs(bits: seq<bit>, p0: nat, ll: seq<nat>, dl: seq<nat>, p: nat)
    requires ReadTrees(bits, p0) == Ok(Trees(ll, dl), p)
    ensures Args(ll, 257, CPLENS, CPLEXT) && |ll| <= N_MAX && MaxLen(ll) <= 15
    ensures Args(dl, 0, CPDIST, CPDEXT) && |dl| <= N_MAX && MaxLen(dl) <= 15 && |dl| < Pow2(6)
  {
    hide *;
    TableSizes();
    TreesBounds(bits, p0, ll, dl, p);
    ArgsOf(ll, 257, CPLENS, CPLEXT, 15);
    ArgsOf(dl, 0, CPDIST, CPDEXT, 15);
  }

  lemma TreesBounds(bits: seq<bit>, p0: nat, ll: seq<nat>, dl: seq<nat>, p: nat)
    requires ReadTrees(bits, p0) == Ok(Trees(ll, dl), p)
    ensures 257 <= |ll| <= 286 && 1 <= |dl| <= 30 && AtMost(ll, 15) && AtMost(dl, 15)
  {
    hide ReadTrees;
  }

  lemma TableSizes()
    ensures |CPLENS| == |CPLEXT| == 31 && |CPDIST| == |CPDEXT| == 30 && N_MAX == 288 && Pow2(6) == 64
    ensures ExtrasOk(CPLEXT) && ExtrasOk(CPDEXT)
  {
    ExtrasAreDeflate();
    assert Shl(1, 4) == 16;
    assert Shl(1, 6) == 64;
  }

  lemma ArgsOf(lens: seq<nat>, s: nat, d: seq<nat>, e: seq<nat>, m: nat)
    requires AtMost(lens, m) && m <= 15 && ExtrasOk(e) && |d| == |e| && 0 < |lens| <= s + |d|
    ensures Args(lens, s, d, e) && MaxLen(lens) <= m
  {
  }

  function Repeats(n: nat, l: nat): (r: seq<nat>)
    ensures |r| == n
  {
    seq(n, _ => l)
  }

  method FillRun(ll: array<nat>, i: nat, count: nat, l: nat)
    requires i + count <= ll.Length
    modifies ll
    ensures ll[..i + count] == old(ll[..i]) + Repeats(count, l)
  {
    var j: nat := 0;
    while j < count
      invariant j <= count && ll[..i] == old(ll[..i])
      invariant forall a :: i <= a < i + j ==> ll[a] == l
    {
      ll[i + j] := l;
      j := j + 1;
    }
  }

  lemma SomeRepeats(sym: nat)
    ensures RepeatBase(sym) >= 1
  {
  }

  lemma RepeatIs(sym: nat)
    requires 16 <= sym < 19
    ensures RepeatExtra(sym) == if sym == 16 then 2 else if sym == 17 then 3 else 7
    ensures RepeatBase(sym) == if sym == 18 then 11 else 3
  {
  }

  lemma LensNoSymbol(cl: seq<nat>, bits: seq<bit>, pos: nat, n: nat, acc: seq<nat>, last: nat, o: Outcome, p: int)
    requires |acc| < n && o != Return(0)
    requires var r := DecodeSym(cl, bits, pos);
             match o
             case Return(c) => c == 0
             case OutOfInput => |bits| < pos + 16
             case Halted => false
             case Wild => r == Err(Unassigned)
    ensures Follows(o, ReadLens(cl, bits, pos, n, acc, last), |bits|)
  {
  }

  lemma LensLiteral(cl: seq<nat>, bits: seq<bit>, pos: nat, n: nat, acc: seq<nat>, last: nat, j: nat, p: nat)
    requires |acc| < n && DecodeSym(cl, bits, pos) == Ok(j, p) && j < 16
    ensures ReadLens(cl, bits, pos, n, acc, last) == ReadLens(cl, bits, p, n, acc + [j], j)
  {
  }

  lemma LensNoCount(cl: seq<nat>, bits: seq<bit>, pos: nat, n: nat, acc: seq<nat>, last: nat, j: nat, p: nat, p': int)
    requires |acc| < n && DecodeSym(cl, bits, pos) == Ok(j, p) && j >= 16
    requires ReadBits(bits, p, RepeatExtra(j)) == Err(Truncated)
    ensures Follows(OutOfInput, ReadLens(cl, bits, pos, n, acc, last), |bits|)
  {
  }

  lemma LensRepeat(cl: seq<nat>, bits: seq<bit>, pos: nat, n: nat, acc: seq<nat>, last: nat, j: nat, p: nat, x: nat, p': nat)
    requires |acc| < n && DecodeSym(cl, bits, pos) == Ok(j, p) && j >= 16
    requires ReadBits(bits, p, RepeatExtra(j)) == Ok(x, p')
    ensures var count := RepeatBase(j) + x; var l := if j == 16 then last else 0;
            if |acc| + count > n then Follows(Return(1), ReadLens(cl, bits, pos, n, acc, last), |bits|)
            else ReadLens(cl, bits, pos, n, acc, last) == ReadLens(cl, bits, p', n, acc + Repeats(count, l), l)
  {
  }

  lemma LensDone(cl: seq<nat>, bits: seq<bit>, pos: nat, n: nat, acc: seq<nat>, last: nat)
    requires |acc| == n && pos <= |bits|
    ensures ReadLens(cl, bits, pos, n, acc, last) == Ok(acc, pos)
    ensures Follows(Return(0), ReadLens(cl, bits, pos, n, acc, last), |bits|)
  {
  }

  /** Where each code length stands in the order of the code length code lengths. */
  const INVERSE: seq<nat> := [3, 17, 15, 13, 11, 9, 7, 5, 4, 6, 8, 10, 12, 14, 16, 18, 0, 1, 2]

  lemma BorderIsPermutation()
    ensures |BORDER| == 19 && |INVERSE| == 19
    ensures forall j :: 0 <= j < 19 ==> BORDER[j] < 19 && INVERSE[BORDER[j]] == j
    ensures forall i :: 0 <= i < 19 ==> INVERSE[i] < 19 && BORDER[INVERSE[i]] == i
  {
  }

  lemma CodeLenMissing(bits: seq<bit>, pos: nat, nb: nat, j: nat, acc: seq<nat>)
    requires j < nb <= 19 && |acc| == 19 && ReadBits(bits, pos, 3) == Err(Truncated)
    ensures ReadCodeLens(bits, pos, nb, j, acc) == Err(Truncated)
  {
  }

  lemma CodeLenRead(bits: seq<bit>, pos: nat, nb: nat, j: nat, acc: seq<nat>, x: nat, p: nat)
    requires j < nb <= 19 && |acc| == 19 && ReadBits(bits, pos, 3) == Ok(x, p)
    ensures BORDER[j] < 19 && ReadCodeLens(bits, pos, nb, j, acc) == ReadCodeLens(bits, p, nb, j + 1, acc[BORDER[j] := x])
  {
  }

  lemma CodeLensDone(bits: seq<bit>, pos: nat, nb: nat, acc: seq<nat>)
    requires nb <= 19 && |acc| == 19 && pos <= |bits|
    ensures ReadCodeLens(bits, pos, nb, nb, acc) == Ok(acc, pos)
  {
  }

  lemma NullTable(cl: seq<nat>, tl: Pool, bl: nat, bits: seq<bit>, pos: nat)
    requires Decodes(cl, 19, [], [], tl, bl) && tl == []
    ensures DecodeSym(cl, bits, pos) == Err(Unassigned)
  {
  }

  /** With 19 lengths, an incomplete set that is not rejected has unused symbols. */
  lemma NeverInvalid(cl: seq<nat>, bits: seq<bit>, pos: nat)
    requires |cl| == 19 && 0 < MaxLen(cl) <= 7 && BadLens(cl) == 0 && 0 !in cl && pos <= |bits|
    ensures DecodeSym(cl, bits, pos) != Err(Invalid(1))
  {
    KraftAtLeast(cl, MaxLen(cl));
    if KraftSum(cl, MaxLen(cl)) == Pow2(MaxLen(cl)) {
      CompleteAssigns(cl, 7, 19, [], [], bits, pos);
    }
  }

  lemma DirectSlot(cl: seq<nat>, tl: Pool, bl: nat, bits: seq<bit>, pos: nat)
    requires Decodes(cl, 19, [], [], tl, bl) && |cl| == 19 && MaxLen(cl) <= 7 && bl == MaxLen(cl) && BadLens(cl) == 0
    requires tl != [] && pos + bl <= |bits|
    ensures Low(LE(bits[pos..]), bl) < |tl[0]|
    ensures var slot := tl[0][Low(LE(bits[pos..]), bl)];
            var r := DecodeSym(cl, bits, pos);
            if slot.Huft? && slot.e != 99
            then slot.v.Num? && slot.b <= bl && slot.v.n < 19 && r == Ok(slot.v.n, pos + slot.b)
            else r == Err(Unassigned)
  {
    assert DecodesAt(cl, 19, [], [], tl, bl, bits, pos);
    NoCodeIs(cl, bits, pos);
    if bl > 0 && 0 !in cl {
      NeverInvalid(cl, bits, pos);
    }
    InvalidOnly(cl, bits, pos, 0, 0);
  }

  lemma {:induction false} InvalidOnly(lens: seq<nat>, bits: seq<bit>, pos: nat, k: nat, code: nat)
    ensures DecodeFrom(lens, bits, pos, k, code) == Err(Invalid(1)) ==> 0 !in lens
    decreases MaxLen(lens) - k
  {
    if k >= MaxLen(lens) || pos >= |bits| {
    } else {
      InvalidOnly(lens, bits, pos + 1, k + 1, 2 * code + bits[pos]);
    }
  }

  method FixedLitLengths() returns (s: seq<nat>)
    ensures s == FixedLengths()
  {
    var l := new nat[288](_ => 0);
    var i := 0;
    while i < 144
      invariant i <= 144 && forall j :: 0 <= j < i ==> l[j] == 8
    {
      l[i] := 8;
      i := i + 1;
    }
    while i < 256
      invariant 144 <= i <= 256
      invariant forall j :: 0 <= j < i ==> l[j] == if j < 144 then 8 else 9
    {
      l[i] := 9;
      i := i + 1;
    }
    while i < 280
      invariant 256 <= i <= 280
      invariant forall j :: 0 <= j < i ==> l[j] == if j < 144 then 8 else if j < 256 then 9 else 7
    {
      l[i] := 7;
      i := i + 1;
    }
    while i < 288
      invariant 280 <= i <= 288
      invariant forall j :: 0 <= j < i ==> l[j] == if j < 144 then 8 else if j < 256 then 9 else if j < 280 then 7 else 8
    {
      l[i] := 8;
      i := i + 1;
    }
    s := l[..];
  }

  method FixedDistLengths() returns (s: seq<nat>)
    ensures s == FixedDistances()
  {
    var l := new nat[30](_ => 0);
    var i := 0;
    while i < 30
      invariant i <= 30 && forall j :: 0 <= j < i ==> l[j] == 5
    {
      l[i] := 5;
      i := i + 1;
    }
    s := l[..];
  }

  lemma {:induction false} KraftRun(a: seq<nat>, n: nat, x: nat, g: nat, v: nat)
    requires 1 <= x <= g && v == Pow2(g - x)
    ensures KraftSum(a + seq(n, _ => x), g) == KraftSum(a, g) + n * v
  {
    hide Pow2;
    var run := seq(n, _ => x);
    if n == 0 {
      assert a + run == a;
    } else {
      assert (a + run)[..|a| + n - 1] == a + seq(n - 1, _ => x);
      KraftRun(a, n - 1, x, g, v);
      assert n * v == (n - 1) * v + v;
    }
  }

  lemma MaxLenIs(lens: seq<nat>, g: nat)
    requires g in lens && forall i :: 0 <= i < |lens| ==> lens[i] <= g
    ensures MaxLen(lens) == g
  {
    var i :| 0 <= i < |lens| && lens[i] == g;
  }

  lemma FixedLitRange()
    ensures |FixedLengths()| == 288 && FixedLengths()[144] == 9 && forall i :: 0 <= i < 288 ==> 7 <= FixedLengths()[i] <= 9
  {
  }

  lemma Pow2Nine()
    ensures Pow2(9) == 512
  {
    assert Shl(1, 5) == 32;
    ShlAdd(1, 5, 4);
    assert Shl(32, 4) == 512;
  }

  lemma FixedLitFacts()
    ensures var l := FixedLengths();
            Args(l, 257, CPLENS, CPLEXT) && |l| <= N_MAX && MaxLen(l) == 9 && BadLens(l) == 0
  {
    hide FixedLengths, MaxLen, KraftSum, Pow2;
    FixedLitRange();
    var l := FixedLengths();
    MaxLenIs(l, 9);
    FixedKraft();
    Pow2Nine();
  }

  lemma FixedKraft()
    ensures KraftSum(FixedLengths(), 9) == 512
  {
    var a: seq<nat> := [];
    assert Pow2(0) == 1 && Pow2(1) == 2 && Pow2(2) == 4;
    KraftRun(a, 144, 8, 9, 2);
    assert a + seq(144, _ => 8) == seq(144, _ => 8);
    KraftRun(seq(144, _ => 8), 112, 9, 9, 1);
    KraftRun(seq(144, _ => 8) + seq(112, _ => 9), 24, 7, 9, 4);
    KraftRun(seq(144, _ => 8) + seq(112, _ => 9) + seq(24, _ => 7), 8, 8, 9, 2);
  }

  lemma FixedDistKraft()
    ensures KraftSum(FixedDistances(), 5) == 30 && |FixedDistances()| == 30 && forall i :: 0 <= i < 30 ==> FixedDistances()[i] == 5
  {
    var a: seq<nat> := [];
    assert Pow2(0) == 1;
    KraftRun(a, 30, 5, 5, 1);
    assert a + seq(30, _ => 5) == FixedDistances();
    assert KraftSum(a, 5) == 0;
  }

  lemma FixedDistFacts()
    ensures var l := FixedDistances();
            Args(l, 0, CPDIST, CPDEXT) && |l| <= N_MAX && MaxLen(l) == 5 && BadLens(l) == 1
  {
    var l := FixedDistances();
    assert l[0] == 5;
    hide FixedDistances, MaxLen, KraftSum;
    MaxLenIs(l, 5);
    FixedDistKraft();
    assert Shl(1, 5) == 32;
  }

  lemma BothTables(ll: seq<nat>, tl: Pool, bl: nat, dl: seq<nat>, td: Pool, bd: nat)
    requires Decodes(ll, 257, CPLENS, CPLEXT, tl, bl) && MaxLen(ll) <= 15
    requires Decodes(dl, 0, CPDIST, CPDEXT, td, bd) && MaxLen(dl) <= 15
    ensures LitTables(ll, tl, bl) && DistTables(dl, td, bd)
  {
  }

  lemma StoredNoLength(bits: seq<bit>, pos: nat, h: seq<byte>, p: int)
    requires ReadBits(bits, ByteBoundary(pos), 16) == Err(Truncated)
    ensures Follows(OutOfInput, Stored(bits, pos, h), |bits|)
  {
  }

  lemma StoredNoComplement(bits: seq<bit>, pos: nat, h: seq<byte>, n: nat, p1: nat, p: int)
    requires ReadBits(bits, ByteBoundary(pos), 16) == Ok(n, p1) && ReadBits(bits, p1, 16) == Err(Truncated)
    ensures Follows(OutOfInput, Stored(bits, pos, h), |bits|)
  {
  }

  lemma StoredLength(bits: seq<bit>, pos: nat, h: seq<byte>, n: nat, p1: nat, complement: nat, p2: nat)
    requires ReadBits(bits, ByteBoundary(pos), 16) == Ok(n, p1) && ReadBits(bits, p1, 16) == Ok(complement, p2)
    ensures complement <= 0xffff
    ensures if n + complement == 0xffff then Stored(bits, pos, h) == ReadBytes(bits, p2, n, h)
            else Follows(Return(1), Stored(bits, pos, h), |bits|)
  {
    Pow2Eight();
    ShlAdd(1, 8, 8);
    assert Shl(256, 4) == 4096;
    assert Shl(4096, 4) == 65536;
    ShlAdd(256, 4, 4);
  }

  lemma ByteMissing(bits: seq<bit>, pos: nat, n: nat, h: seq<byte>, p: int)
    requires n > 0 && ReadBits(bits, pos, 8) == Err(Truncated)
    ensures Follows(OutOfInput, ReadBytes(bits, pos, n, h), |bits|)
  {
  }

  lemma ByteRead(bits: seq<bit>, pos: nat, n: nat, h: seq<byte>, b: nat, p: nat)
    requires n > 0 && ReadBits(bits, pos, 8) == Ok(b, p)
    ensures b < 256 && ReadBytes(bits, pos, n, h) == ReadBytes(bits, p, n - 1, h + [b])
  {
    Pow2Eight();
  }

  lemma BytesDone(bits: seq<bit>, pos: nat, h: seq<byte>)
    requires pos <= |bits|
    ensures ReadBytes(bits, pos, 0, h) == Ok(h, pos) && Follows(Return(0), ReadBytes(bits, pos, 0, h), |bits|)
  {
  }

  lemma DecodedCode(o: Outcome, slot: Slot, r: Parse<nat>, pos: int, n: nat, pos0: int, s: nat, d: seq<nat>, e: seq<nat>)
    requires Decoded(o, slot, r, pos, n, pos0, s, d, e)
    ensures o.Return? ==> o.code <= 1
  {
  }

  lemma PairCode(dl: seq<nat>, bits: seq<bit>, p: nat, i: nat, o: Outcome, p': int)
    requires Follows(o, ReadMatch(dl, bits, p, i), |bits|)
    ensures o.Return? ==> o.code <= 1
  {
    match ReadBits(bits, p, LengthExtra(i))
    case Err(_) =>
    case Ok(x, p1) => NoCodeIs(dl, bits, p1);
  }

  lemma HistoryLong(out: Output)
    requires out.Valid()
    ensures |out.history| >= WSIZE && 0 < WSIZE
  {
  }

  lemma LitTablesAre(ll: seq<nat>, tl: Pool, bl: nat)
    requires LitTables(ll, tl, bl)
    ensures Decodes(ll, 257, CPLENS, CPLEXT, tl, bl) && MaxLen(ll) <= 15
  {
  }

  lemma CodesNoSymbol(ll: seq<nat>, dl: seq<nat>, bits: seq<bit>, pos: nat, h: seq<byte>, o: Outcome, t: Slot, p: int)
    requires |h| >= WSIZE && o != Return(0)
    requires Decoded(o, t, DecodeSym(ll, bits, pos), p, |bits|, pos, 257, CPLENS, CPLEXT)
    ensures Follows(o, Codes(ll, dl, bits, pos, h), |bits|)
  {
    var r := DecodeSym(ll, bits, pos);
    if o == Return(1) && r.Ok? {
      BadLitSlot(r.val);
    }
  }

  lemma CodesSymbol(ll: seq<nat>, dl: seq<nat>, bits: seq<bit>, pos: nat, h: seq<byte>, t: Slot, p: int)
    requires |h| >= WSIZE
    requires Decoded(Return(0), t, DecodeSym(ll, bits, pos), p, |bits|, pos, 257, CPLENS, CPLEXT)
    ensures var sym := DecodeSym(ll, bits, pos); var r := Codes(ll, dl, bits, pos, h);
            && sym.Ok? && sym.pos == p && t.Huft? && t.v.Num?
            && if t.e == 16 then t.v.n < 256 && r == Codes(ll, dl, bits, p, h + [t.v.n])
               else if t.e == 15 then r == Ok(h, p) && Follows(Return(0), r, |bits|)
               else 257 <= sym.val <= 285 && t.e == LengthExtra(sym.val - 257) && t.v.n == LengthBase(sym.val - 257)
  {
    LitSlot(t, DecodeSym(ll, bits, pos).val);
  }

  lemma CodesNoPair(ll: seq<nat>, dl: seq<nat>, bits: seq<bit>, pos: nat, h: seq<byte>, p: nat, i: nat, o: Outcome, p': int)
    requires |h| >= WSIZE && o != Return(0) && i < 29
    requires DecodeSym(ll, bits, pos) == Ok(257 + i, p) && Follows(o, ReadMatch(dl, bits, p, i), |bits|)
    ensures Follows(o, Codes(ll, dl, bits, pos, h), |bits|)
  {
  }

  lemma CodesPair(ll: seq<nat>, dl: seq<nat>, bits: seq<bit>, pos: nat, h: seq<byte>, p: nat, i: nat, n: nat, d: nat, p': nat)
    requires |h| >= WSIZE && i < 29
    requires DecodeSym(ll, bits, pos) == Ok(257 + i, p) && ReadMatch(dl, bits, p, i) == Ok(Match(n, d), p')
    ensures n >= 3 && 1 <= d <= WSIZE && pos < p <= p' <= |bits|
    ensures Codes(ll, dl, bits, pos, h) == Codes(ll, dl, bits, p', Copied(h, d, n))
  {
  }

  lemma PairTables(i: nat, dl: seq<nat>, td: Pool, bd: nat)
    requires DistTables(dl, td, bd)
    ensures LengthExtra(i) <= 5
    ensures Decodes(dl, 0, CPDIST, CPDEXT, td, bd) && MaxLen(dl) <= 15
  {
  }

  lemma PairNoExtra(dl: seq<nat>, bits: seq<bit>, p0: nat, i: nat, p: int)
    requires ReadBits(bits, p0, LengthExtra(i)) == Err(Truncated)
    ensures Follows(OutOfInput, ReadMatch(dl, bits, p0, i), |bits|)
  {
  }

  lemma PairNoDist(dl: seq<nat>, bits: seq<bit>, p0: nat, i: nat, x: nat, p1: nat, o: Outcome, t: Slot, p2: int)
    requires ReadBits(bits, p0, LengthExtra(i)) == Ok(x, p1)
    requires Decoded(o, t, DecodeSym(dl, bits, p1), p2, |bits|, p1, 0, CPDIST, CPDEXT) && o != Return(0)
    ensures Follows(o, ReadMatch(dl, bits, p0, i), |bits|)
  {
    var r := DecodeSym(dl, bits, p1);
    if r.Ok? {
      DistSlot(SymSlot(0, CPDIST, CPDEXT, r.val, 0), r.val);
    }
  }

  lemma PairDist(dl: seq<nat>, bits: seq<bit>, p1: nat, o: Outcome, t: Slot, p2: int)
    requires Decoded(o, t, DecodeSym(dl, bits, p1), p2, |bits|, p1, 0, CPDIST, CPDEXT) && o == Return(0)
    ensures var r := DecodeSym(dl, bits, p1);
            && r.Ok? && r.pos == p2 && r.val < 30 && t.Huft? && t.v.Num?
            && t.e == DistExtra(r.val) <= 13 && t.v.n == DistBase(r.val)
  {
    DistSlot(t, DecodeSym(dl, bits, p1).val);
  }

  lemma PairNoOffset(dl: seq<nat>, bits: seq<bit>, p0: nat, i: nat, x: nat, p1: nat, p2: nat, p: int)
    requires ReadBits(bits, p0, LengthExtra(i)) == Ok(x, p1)
    requires var r := DecodeSym(dl, bits, p1);
             r.Ok? && r.pos == p2 && r.val < 30 && ReadBits(bits, p2, DistExtra(r.val)) == Err(Truncated)
    ensures Follows(OutOfInput, ReadMatch(dl, bits, p0, i), |bits|)
  {
  }

  lemma PairDone(dl: seq<nat>, bits: seq<bit>, p0: nat, i: nat, x: nat, p1: nat, o: Outcome, p2: nat, y: nat, p3: nat)
    requires ReadBits(bits, p0, LengthExtra(i)) == Ok(x, p1) && o == Return(0)
    requires var r := DecodeSym(dl, bits, p1);
             r.Ok? && r.pos == p2 && r.val < 30 && ReadBits(bits, p2, DistExtra(r.val)) == Ok(y, p3)
    ensures var r := ReadMatch(dl, bits, p0, i);
            && r == Ok(Match(LengthBase(i) + x, DistBase(DecodeSym(dl, bits, p1).val) + y), p3)
            && Follows(o, r, |bits|)
  {
  }

  lemma FollowsIs<T>(o: Outcome, r: Parse<T>, n: nat)
    requires Follows(o, r, n)
    ensures o == Return(0) ==> r.Ok?
    ensures o.Return? && o.code > 0 ==> r == Err(Invalid(o.code)) || (o.code == 1 && r == Err(Unassigned))
    ensures o == OutOfInput && r.Ok? ==> n < r.pos + 16
    ensures o == Halted ==> r == Err(Invalid(1))
    ensures o == Wild ==> r == Err(Unassigned)
  {
  }

  /** What unzip does with a deflated entry: the crc table is made, the crc register is
      initialized, and the entry is inflated. */
  method Decompress(input: seq<byte>, window: array<byte>) returns (o: Outcome, output: seq<byte>, crc: bv32, inptr: nat)
    requires window.Length == 32768
    modifies window
    ensures var r := Blocks(Stream(input), 0, old(window[..]));
      && (o.Return? && o.code > 0 ==> r == Err(Invalid(o.code)) || (o.code == 1 && r == Err(Unassigned)))
      && (o == OutOfInput && r.Ok? ==> |Stream(input)| < r.pos + 16)
      && (o == Halted ==> r == Err(Invalid(1)))
      && (o == Wild ==> r == Err(Unassigned))
    ensures o == Return(0) ==>
      var r := Blocks(Stream(input), 0, old(window[..]));
      && r.Ok?
      && r.val == old(window[..]) + output
      && inptr == (r.pos + 7) / 8
      && crc == Crc.Crc32(output)
    ensures var r := Blocks(Stream(input), 0, old(window[..]));
      r.Ok? && r.pos + 16 <= |Stream(input)| ==> o == Return(0)
  {
    hide Stream, Blocks, Crc.TableOk, Crc.Register, Crc.Crc32, Crc.Xor, Follows;
    var table := Crc.MakeCrc();
    var out := new Output(window, table[..]);
    var inflater := new Inflater(input, out);
    o := inflater.Inflate();
    FollowsIs(o, Blocks(Stream(input), 0, old(window[..])), |Stream(input)|);
    output, crc, inptr := out.output, Crc.Xor(out.crc, Crc.ALL_ONES), inflater.inptr;
  }
}
