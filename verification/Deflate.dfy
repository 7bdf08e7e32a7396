// The DEFLATE format of RFC 1951, read one bit at a time.
module Deflate {
  // The reference that the decompressor is compared with; it keeps all of its output.
  // The history h is everything a distance can reach back into: a preset of at least 32768
  // bytes and then the output.

  import opened Bits
  import opened Canonical
  import opened Window

  /** n bits, least significant first (section 3.1.1). */
  function ReadBits(bits: seq<bit>, pos: nat, n: nat): (r: Parse<nat>)
    ensures r.Ok? ==> r.pos == pos + n <= |bits| && r.val < Pow2(n)
  {
    if pos + n > |bits| then Err(Truncated)
    else
      LEBound(bits[pos..pos + n]);
      Ok(LE(bits[pos..pos + n]), pos + n)
  }

  // ----- lengths and distances (section 3.2.5), for length code 257 + i and distance code i

  function LengthExtra(i: nat): nat {
    if i < 8 || i >= 28 then 0 else (i - 4) / 4
  }

  function LengthBase(i: nat): (b: nat)
    ensures b >= 3
  {
    if i < 8 then 3 + i
    else if i < 28 then 3 + Shl(4 + i % 4, LengthExtra(i))
    else 258
  }

  function DistExtra(i: nat): nat {
    if i < 4 then 0 else (i - 2) / 2
  }

  function DistBase(i: nat): nat {
    if i < 4 then 1 + i else 1 + Shl(2 + i % 2, DistExtra(i))
  }

  lemma WindowSize()
    ensures Pow2(15) == WSIZE
  {
    assert Shl(1, 5) == 32;
    assert Shl(32, 5) == 1024;
    assert Shl(1024, 5) == 32768;
    ShlAdd(1, 5, 5);
    ShlAdd(1, 10, 5);
  }

  /** No distance reaches back further than the window is long. */
  lemma DistBound(i: nat, x: nat)
    requires i < 30 && x < Pow2(DistExtra(i))
    ensures 1 <= DistBase(i) + x <= WSIZE
  {
    if i >= 4 {
      FarBound(2 + i % 2, x, DistExtra(i));
    }
  }

  lemma FarBound(a: nat, x: nat, e: nat)
    requires a <= 3 && e <= 13 && x < Pow2(e)
    ensures 1 + Shl(a, e) + x <= WSIZE
  {
    ShlMono(a, 3, e);
    ShlPlus(3, 1, e);
    ShlAdd(1, 2, e);
    assert Shl(1, 2) == 4;
    Pow2Mono(e + 2, 15);
    WindowSize();
  }

  datatype Match = Match(length: nat, dist: nat)

  /** The rest of a <length, backward distance> pair, after its length code. */
  function ReadMatch(dl: seq<nat>, bits: seq<bit>, pos: nat, i: nat): (r: Parse<Match>)
    ensures r.Ok? ==> pos <= r.pos <= |bits| && r.val.length >= 3 && 1 <= r.val.dist <= WSIZE
  {
    match ReadBits(bits, pos, LengthExtra(i))
    case Err(e) => Err(e)
    case Ok(x, p1) =>
      match DecodeSym(dl, bits, p1)
      case Err(e) => Err(e)
      case Ok(sym, p2) =>
        if sym >= 30 then Err(Invalid(1))
        else
          match ReadBits(bits, p2, DistExtra(sym))
          case Err(e) => Err(e)
          case Ok(y, p3) =>
            DistBound(sym, y);
            Ok(Match(LengthBase(i) + x, DistBase(sym) + y), p3)
  }

  /** Literals and matches up to the end-of-block code (section 3.2.3). */
  function Codes(ll: seq<nat>, dl: seq<nat>, bits: seq<bit>, pos: nat, h: seq<byte>): (r: Parse<seq<byte>>)
    requires |h| >= WSIZE
    ensures r.Ok? ==> pos <= r.pos <= |bits| && h <= r.val
    decreases |bits| - pos
  {
    match DecodeSym(ll, bits, pos)
    case Err(e) => Err(e)
    case Ok(sym, p) =>
      if sym < 256 then Codes(ll, dl, bits, p, h + [sym])
      else if sym == 256 then Ok(h, p)
      else if sym > 285 then Err(Invalid(1))
      else
        match ReadMatch(dl, bits, p, sym - 257)
        case Err(e) => Err(e)
        case Ok(m, p') => Codes(ll, dl, bits, p', Copied(h, m.dist, m.length))
  }

  // ----- non-compressed blocks (section 3.2.4)

  function ReadBytes(bits: seq<bit>, pos: nat, n: nat, h: seq<byte>): (r: Parse<seq<byte>>)
    ensures r.Ok? ==> pos <= r.pos <= |bits| && h <= r.val
    decreases n
  {
    if n == 0 then if pos <= |bits| then Ok(h, pos) else Err(Truncated)
    else
      match ReadBits(bits, pos, 8)
      case Err(e) => Err(e)
      case Ok(b, p) =>
        Pow2Eight();
        ReadBytes(bits, p, n - 1, h + [b])
  }

  function ByteBoundary(pos: nat): nat {
    (pos + 7) / 8 * 8
  }

  function Stored(bits: seq<bit>, pos: nat, h: seq<byte>): (r: Parse<seq<byte>>)
    ensures r.Ok? ==> pos <= r.pos <= |bits| && h <= r.val
  {
    match ReadBits(bits, ByteBoundary(pos), 16)
    case Err(e) => Err(e)
    case Ok(n, p1) =>
      match ReadBits(bits, p1, 16)
      case Err(e) => Err(e)
      case Ok(complement, p2) =>
        if n + complement != 0xffff then Err(Invalid(1))
        else ReadBytes(bits, p2, n, h)
  }

  // ----- fixed Huffman codes (section 3.2.6)

  function FixedLengths(): (r: seq<nat>)
    ensures |r| == 288
  {
    seq(144, _ => 8) + seq(112, _ => 9) + seq(24, _ => 7) + seq(8, _ => 8)
  }

  function FixedDistances(): seq<nat> {
    seq(30, _ => 5)
  }

  // ----- dynamic Huffman codes (section 3.2.7)

  const BORDER: seq<nat> := [16, 17, 18, 0, 8, 7, 9, 6, 10, 5, 11, 4, 12, 3, 13, 2, 14, 1, 15]

  /** The code lengths for the code length alphabet, from the j-th on. */
  function ReadCodeLens(bits: seq<bit>, pos: nat, nb: nat, j: nat, acc: seq<nat>): (r: Parse<seq<nat>>)
    requires j <= nb <= 19 && |acc| == 19
    ensures r.Ok? ==> pos <= r.pos <= |bits| && |r.val| == 19
    ensures r.Ok? && AtMost(acc, 7) ==> AtMost(r.val, 7)
    decreases nb - j
  {
    if j == nb then if pos <= |bits| then Ok(acc, pos) else Err(Truncated)
    else
      match ReadBits(bits, pos, 3)
      case Err(e) => Err(e)
      case Ok(x, p) =>
        assert Pow2(3) == 8;
        ReadCodeLens(bits, p, nb, j + 1, acc[BORDER[j] := x])
  }

  /** What is wrong with a set of code lengths: it has more codes than bits, or it leaves bit
      patterns unused (which a single code of one bit may). */
  function BadLens(lens: seq<nat>): (r: nat)
    ensures r <= 2
  {
    var g := MaxLen(lens);
    if g == 0 then 0
    else if KraftSum(lens, g) > Pow2(g) then 2
    else if KraftSum(lens, g) < Pow2(g) && g != 1 then 1
    else 0
  }

  /** n literal/length and distance code lengths, the last of them being last. */
  function ReadLens(cl: seq<nat>, bits: seq<bit>, pos: nat, n: nat, acc: seq<nat>, last: nat): (r: Parse<seq<nat>>)
    requires |acc| <= n
    ensures r.Ok? ==> pos <= r.pos <= |bits| && |r.val| == n
    ensures r.Ok? && last <= 15 && AtMost(acc, 15) ==> AtMost(r.val, 15)
    decreases n - |acc|
  {
    if |acc| == n then if pos <= |bits| then Ok(acc, pos) else Err(Truncated)
    else
      match DecodeSym(cl, bits, pos)
      case Err(e) => Err(e)
      case Ok(sym, p) =>
        if sym < 16 then ReadLens(cl, bits, p, n, acc + [sym], sym)
        else
          match ReadBits(bits, p, RepeatExtra(sym))
          case Err(e) => Err(e)
          case Ok(x, p') =>
            var count := RepeatBase(sym) + x;
            var len := if sym == 16 then last else 0;
            if |acc| + count > n then Err(Invalid(1))
            else ReadLens(cl, bits, p', n, acc + seq(count, _ => len), len)
  }

  function RepeatExtra(sym: nat): nat {
    if sym == 16 then 2 else if sym == 17 then 3 else 7
  }

  function RepeatBase(sym: nat): (b: nat)
    ensures b >= 3
  {
    if sym == 16 || sym == 17 then 3 else 11
  }

  datatype Trees = Trees(ll: seq<nat>, dl: seq<nat>)

  ghost predicate AtMost(lens: seq<nat>, m: nat) {
    forall i :: 0 <= i < |lens| ==> lens[i] <= m
  }

  /** The code lengths at the front of a block with dynamic codes. The decoder modelled
      rejects more than 286 literal/length codes or more than 30 distance codes. */
  function ReadTrees(bits: seq<bit>, pos: nat): (r: Parse<Trees>)
    ensures r.Ok? ==> pos <= r.pos <= |bits|
    ensures r.Ok? ==> 257 <= |r.val.ll| <= 286 && 1 <= |r.val.dl| <= 30
    ensures r.Ok? ==> AtMost(r.val.ll, 15) && AtMost(r.val.dl, 15)
  {
    match ReadBits(bits, pos, 5)
    case Err(e) => Err(e)
    case Ok(x, p1) =>
      match ReadBits(bits, p1, 5)
      case Err(e) => Err(e)
      case Ok(y, p2) =>
        match ReadBits(bits, p2, 4)
        case Err(e) => Err(e)
        case Ok(z, p3) =>
          assert Pow2(4) == 16;
          ReadTreesOf(bits, p3, 257 + x, 1 + y, 4 + z)
  }

  function ReadTreesOf(bits: seq<bit>, pos: nat, nl: nat, nd: nat, nb: nat): (r: Parse<Trees>)
    requires nl >= 257 && nd >= 1 && nb <= 19
    ensures r.Ok? ==> pos <= r.pos <= |bits|
    ensures r.Ok? ==> 257 <= |r.val.ll| <= 286 && 1 <= |r.val.dl| <= 30
    ensures r.Ok? ==> AtMost(r.val.ll, 15) && AtMost(r.val.dl, 15)
  {
    if nl > 286 || nd > 30 then Err(Invalid(1))
    else
      match ReadCodeLens(bits, pos, nb, 0, seq(19, _ => 0))
      case Err(e) => Err(e)
      case Ok(cl, p1) =>
        if BadLens(cl) > 0 then Err(Invalid(BadLens(cl)))
        else
          match ReadLens(cl, bits, p1, nl + nd, [], 0)
          case Err(e) => Err(e)
          case Ok(lens, p2) => Ok(Trees(lens[..nl], lens[nl..]), p2)
  }

  function Dynamic(bits: seq<bit>, pos: nat, h: seq<byte>): (r: Parse<seq<byte>>)
    requires |h| >= WSIZE
    ensures r.Ok? ==> pos <= r.pos <= |bits| && h <= r.val
  {
    match ReadTrees(bits, pos)
    case Err(e) => Err(e)
    case Ok(t, p) =>
      if BadLens(t.ll) > 0 then Err(Invalid(BadLens(t.ll)))
      else if BadLens(t.dl) > 0 then Err(Invalid(BadLens(t.dl)))
      else Codes(t.ll, t.dl, bits, p, h)
  }

  // ----- blocks (section 3.2.3)

  datatype Block = Block(last: bool, history: seq<byte>)

  function BlockBody(bits: seq<bit>, pos: nat, kind: nat, h: seq<byte>): (r: Parse<seq<byte>>)
    requires |h| >= WSIZE
    ensures r.Ok? ==> pos <= r.pos <= |bits| && h <= r.val
  {
    if kind == 2 then Dynamic(bits, pos, h)
    else if kind == 0 then Stored(bits, pos, h)
    else if kind == 1 then Codes(FixedLengths(), FixedDistances(), bits, pos, h)
    else Err(Invalid(2))
  }

  function ReadBlock(bits: seq<bit>, pos: nat, h: seq<byte>): (r: Parse<Block>)
    requires |h| >= WSIZE
    ensures r.Ok? ==> pos < r.pos <= |bits| && h <= r.val.history
  {
    match ReadBits(bits, pos, 1)
    case Err(e) => Err(e)
    case Ok(final, p1) =>
      match ReadBits(bits, p1, 2)
      case Err(e) => Err(e)
      case Ok(kind, p2) =>
        match BlockBody(bits, p2, kind, h)
        case Err(e) => Err(e)
        case Ok(h', p3) => Ok(Block(final == 1, h'), p3)
  }

  /** Blocks up to and including the last one. */
  function Blocks(bits: seq<bit>, pos: nat, h: seq<byte>): (r: Parse<seq<byte>>)
    requires |h| >= WSIZE
    ensures r.Ok? ==> pos < r.pos <= |bits| && h <= r.val
    decreases |bits| - pos
  {
    match ReadBlock(bits, pos, h)
    case Err(e) => Err(e)
    case Ok(b, p) => if b.last then Ok(b.history, p) else Blocks(bits, p, b.history)
  }
}
