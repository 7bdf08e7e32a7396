// Encoding in the DEFLATE format, and back.
module Format {
  // What is written by the rules and with the numbers of RFC 1951 is what the reference decoder
  // reads, whatever the encoder chose: kinds of blocks, codes, matches and repeat counts.

  import opened Bits
  import opened Canonical
  import opened Window
  import opened Deflate
  import HuftCode
  import Inflate

  // ----- bits at a place

  ghost predicate Here(bits: seq<bit>, pos: nat, s: seq<bit>) {
    pos + |s| <= |bits| && bits[pos..pos + |s|] == s
  }

  lemma HereBoth(bits: seq<bit>, pos: nat, a: seq<bit>, b: seq<bit>)
    requires Here(bits, pos, a + b)
    ensures Here(bits, pos, a) && Here(bits, pos + |a|, b)
  {
    var s := bits[pos..pos + |a + b|];
    assert s[..|a|] == a && s[|a|..] == b;
    assert bits[pos..pos + |a|] == s[..|a|] && bits[pos + |a|..pos + |a| + |b|] == s[|a|..];
  }

  /** A number, least significant bit first. */
  lemma NumberHere(bits: seq<bit>, pos: nat, x: nat, n: nat)
    requires Here(bits, pos, BitsOf(x, n)) && x < Pow2(n)
    ensures ReadBits(bits, pos, n) == Ok(x, pos + n)
  {
    LEBitsOf(x, n);
    LowSmall(x, n);
    hide LE, Low, BitsOf, Pow2;
  }

  /** The code of a symbol, most significant bit first. */
  function SymBits(lens: seq<nat>, s: nat): seq<bit>
    requires s < |lens|
  {
    HuftCode.CodeBits(Code(lens, s), lens[s])
  }

  /** Lengths of at most 16 bits that do not ask for more codes than there are. */
  ghost predicate Good(lens: seq<nat>) {
    (forall i :: 0 <= i < |lens| ==> lens[i] <= 16) && HuftCode.Usable(lens)
  }

  function Moved<T>(r: Parse<T>, n: nat): Parse<T> {
    match r
    case Ok(v, p) => Ok(v, n + p)
    case Err(e) => Err(e)
  }

  lemma {:induction false} DecodeMoved(lens: seq<nat>, bits: seq<bit>, n: nat, i: nat, k: nat, code: nat)
    requires n <= |bits|
    ensures DecodeFrom(lens, bits, n + i, k, code) == Moved(DecodeFrom(lens, bits[n..], i, k, code), n)
    decreases MaxLen(lens) - k
  {
    if k >= MaxLen(lens) || n + i >= |bits| {
    } else {
      DecodeMoved(lens, bits, n, i + 1, k + 1, 2 * code + bits[n + i]);
    }
  }

  lemma SymHere(lens: seq<nat>, bits: seq<bit>, pos: nat, s: nat)
    requires Good(lens) && s < |lens| && lens[s] > 0 && Here(bits, pos, SymBits(lens, s))
    ensures DecodeSym(lens, bits, pos) == Ok(s, pos + lens[s])
  {
    var c := SymBits(lens, s);
    var rest := bits[pos + |c|..];
    assert bits[pos..] == c + rest;
    HuftCode.RoundTrip(lens, s, rest);
    DecodeMoved(lens, bits, pos, 0, 0, 0);
    hide Code, DecodeFrom, HuftCode.CodeBits, HuftCode.Usable;
  }

  // ----- compressed data (section 3.2.5)

  /** A literal byte, or a match: length code 257 + i with extra bits x, distance code d with extra bits y. */
  datatype Token = Literal(b: byte) | Copy(i: nat, x: nat, d: nat, y: nat)

  ghost predicate CanWrite(ll: seq<nat>, dl: seq<nat>, t: Token) {
    match t
    case Literal(b) => b < |ll| && ll[b] > 0
    case Copy(i, x, d, y) =>
      && i < 29 && 257 + i < |ll| && ll[257 + i] > 0 && x < Pow2(LengthExtra(i))
      && d < 30 && d < |dl| && dl[d] > 0 && y < Pow2(DistExtra(d)) && Good(dl)
  }

  function TokenBits(ll: seq<nat>, dl: seq<nat>, t: Token): seq<bit>
    requires match t case Literal(b) => b < |ll| case Copy(i, x, d, y) => 257 + i < |ll| && d < |dl|
  {
    match t
    case Literal(b) => SymBits(ll, b)
    case Copy(i, x, d, y) =>
      SymBits(ll, 257 + i) + (BitsOf(x, LengthExtra(i)) + (SymBits(dl, d) + BitsOf(y, DistExtra(d))))
  }

  /** The history after a token. */
  function Played(h: seq<byte>, t: Token): (r: seq<byte>)
    requires |h| >= 32768 && (t.Copy? ==> t.d < 30 && t.y < Pow2(DistExtra(t.d)))
    ensures |r| >= |h|
  {
    match t
    case Literal(b) => h + [b]
    case Copy(i, x, d, y) => DistBound(d, y); Copied(h, DistBase(d) + y, LengthBase(i) + x)
  }

  ghost predicate CanWriteAll(ll: seq<nat>, dl: seq<nat>, ts: seq<Token>) {
    forall t :: t in ts ==> CanWrite(ll, dl, t)
  }

  /** All tokens and the end of the block. */
  ghost function TokensBits(ll: seq<nat>, dl: seq<nat>, ts: seq<Token>): seq<bit>
    requires 256 < |ll| && CanWriteAll(ll, dl, ts)
  {
    if ts == [] then SymBits(ll, 256)
    else
      assert ts[0] in ts;
      TokenBits(ll, dl, ts[0]) + TokensBits(ll, dl, ts[1..])
  }

  ghost function PlayedAll(ll: seq<nat>, dl: seq<nat>, h: seq<byte>, ts: seq<Token>): (r: seq<byte>)
    requires |h| >= 32768 && CanWriteAll(ll, dl, ts)
    ensures |r| >= |h|
    decreases |ts|
  {
    if ts == [] then h
    else
      assert ts[0] in ts;
      PlayedAll(ll, dl, Played(h, ts[0]), ts[1..])
  }

  lemma TokenRead(ll: seq<nat>, dl: seq<nat>, bits: seq<bit>, pos: nat, h: seq<byte>, t: Token)
    requires Good(ll) && CanWrite(ll, dl, t) && |h| >= 32768 && Here(bits, pos, TokenBits(ll, dl, t))
    ensures Codes(ll, dl, bits, pos, h) == Codes(ll, dl, bits, pos + |TokenBits(ll, dl, t)|, Played(h, t))
  {
    match t
    case Literal(b) =>
      SymHere(ll, bits, pos, b);
      OneLiteral(ll, dl, bits, pos, h, b, pos + ll[b]);
      hide Codes, DecodeSym, SymBits, Good;
      assert |SymBits(ll, b)| == ll[b];
    case Copy(i, x, d, y) =>
      CopyRead(ll, dl, bits, pos, h, i, x, d, y);
  }

  lemma OneLiteral(ll: seq<nat>, dl: seq<nat>, bits: seq<bit>, pos: nat, h: seq<byte>, b: byte, p: nat)
    requires |h| >= WSIZE && DecodeSym(ll, bits, pos) == Ok(b, p)
    ensures Codes(ll, dl, bits, pos, h) == Codes(ll, dl, bits, p, h + [b])
  {
  }

  lemma OneCopy(ll: seq<nat>, dl: seq<nat>, bits: seq<bit>, pos: nat, h: seq<byte>, i: nat, p: nat, m: Match, p': nat)
    requires |h| >= WSIZE && i < 29 && DecodeSym(ll, bits, pos) == Ok(257 + i, p) && ReadMatch(dl, bits, p, i) == Ok(m, p')
    ensures m.dist >= 1 && m.dist <= |h|
    ensures Codes(ll, dl, bits, pos, h) == Codes(ll, dl, bits, p', Copied(h, m.dist, m.length))
  {
    hide DecodeSym, ReadMatch, Copied;
  }

  lemma MatchRead(dl: seq<nat>, bits: seq<bit>, p: nat, i: nat, x: nat, p1: nat, d: nat, p2: nat, y: nat, p3: nat)
    requires ReadBits(bits, p, LengthExtra(i)) == Ok(x, p1) && DecodeSym(dl, bits, p1) == Ok(d, p2) && d < 30
    requires ReadBits(bits, p2, DistExtra(d)) == Ok(y, p3)
    ensures ReadMatch(dl, bits, p, i) == Ok(Match(LengthBase(i) + x, DistBase(d) + y), p3)
  {
    hide ReadBits, DecodeSym, LengthExtra, LengthBase, DistExtra, DistBase;
  }

  lemma CopyRead(ll: seq<nat>, dl: seq<nat>, bits: seq<bit>, pos: nat, h: seq<byte>, i: nat, x: nat, d: nat, y: nat)
    requires var t := Copy(i, x, d, y); Good(ll) && CanWrite(ll, dl, t) && |h| >= 32768 && Here(bits, pos, TokenBits(ll, dl, t))
    ensures var t := Copy(i, x, d, y); Codes(ll, dl, bits, pos, h) == Codes(ll, dl, bits, pos + |TokenBits(ll, dl, t)|, Played(h, t))
  {
    hide *;
    CopyParts(ll, dl, i, x, d, y);
    var a, b, c, e := SymBits(ll, 257 + i), BitsOf(x, LengthExtra(i)), SymBits(dl, d), BitsOf(y, DistExtra(d));
    CopyPlayed(h, i, x, d, y);
    HereBoth(bits, pos, a, b + (c + e));
    HereBoth(bits, pos + |a|, b, c + e);
    HereBoth(bits, pos + |a| + |b|, c, e);
    SymHere(ll, bits, pos, 257 + i);
    NumberHere(bits, pos + |a|, x, LengthExtra(i));
    SymHere(dl, bits, pos + |a| + |b|, d);
    NumberHere(bits, pos + |a| + |b| + |c|, y, DistExtra(d));
    MatchRead(dl, bits, pos + |a|, i, x, pos + |a| + |b|, d, pos + |a| + |b| + |c|, y, pos + |a| + |b| + |c| + |e|);
    WindowIs();
    OneCopy(ll, dl, bits, pos, h, i, pos + |a|, Match(LengthBase(i) + x, DistBase(d) + y), pos + |a| + |b| + |c| + |e|);
  }

  lemma CopyParts(ll: seq<nat>, dl: seq<nat>, i: nat, x: nat, d: nat, y: nat)
    requires CanWrite(ll, dl, Copy(i, x, d, y))
    ensures i < 29 && 257 + i < |ll| && ll[257 + i] > 0 && x < Pow2(LengthExtra(i))
    ensures d < 30 && d < |dl| && dl[d] > 0 && y < Pow2(DistExtra(d)) && Good(dl)
    ensures |SymBits(ll, 257 + i)| == ll[257 + i] && |SymBits(dl, d)| == dl[d]
    ensures TokenBits(ll, dl, Copy(i, x, d, y)) ==
      SymBits(ll, 257 + i) + (BitsOf(x, LengthExtra(i)) + (SymBits(dl, d) + BitsOf(y, DistExtra(d))))
  {
    hide LengthExtra, DistExtra, Pow2, Good, Code;
  }

  lemma CopyPlayed(h: seq<byte>, i: nat, x: nat, d: nat, y: nat)
    requires |h| >= 32768 && d < 30 && y < Pow2(DistExtra(d))
    ensures 1 <= DistBase(d) + y <= 32768 && Played(h, Copy(i, x, d, y)) == Copied(h, DistBase(d) + y, LengthBase(i) + x)
  {
    hide LengthBase, DistBase, DistExtra, LengthExtra, Copied, Pow2, BitsOf;
    DistBound(d, y);
  }

  lemma WindowIs()
    ensures WSIZE == 32768
  {
  }

  lemma BlockEnd(ll: seq<nat>, dl: seq<nat>, bits: seq<bit>, pos: nat, h: seq<byte>, p: nat)
    requires |h| >= WSIZE && DecodeSym(ll, bits, pos) == Ok(256, p)
    ensures Codes(ll, dl, bits, pos, h) == Ok(h, p)
  {
  }

  /** Compressed data decodes to what its tokens say, whatever the codes. */
  lemma {:induction false} CodesRead(ll: seq<nat>, dl: seq<nat>, bits: seq<bit>, pos: nat, h: seq<byte>, ts: seq<Token>)
    requires Good(ll) && 256 < |ll| && ll[256] > 0 && CanWriteAll(ll, dl, ts) && |h| >= 32768
    requires Here(bits, pos, TokensBits(ll, dl, ts))
    ensures Codes(ll, dl, bits, pos, h) == Ok(PlayedAll(ll, dl, h, ts), pos + |TokensBits(ll, dl, ts)|)
    decreases |ts|
  {
    hide Codes, DecodeSym, Good, Here, TokenBits, Played, SymBits, CanWrite;
    if ts == [] {
      SymHere(ll, bits, pos, 256);
      SymLength(ll, 256);
      WindowIs();
      BlockEnd(ll, dl, bits, pos, h, pos + ll[256]);
    } else {
      assert ts[0] in ts;
      TokenWritten(ll, dl, ts[0]);
      var a, rest := TokenBits(ll, dl, ts[0]), TokensBits(ll, dl, ts[1..]);
      HereBoth(bits, pos, a, rest);
      TokenRead(ll, dl, bits, pos, h, ts[0]);
      CodesRead(ll, dl, bits, pos + |a|, Played(h, ts[0]), ts[1..]);
    }
  }

  lemma SymLength(lens: seq<nat>, s: nat)
    requires s < |lens|
    ensures |SymBits(lens, s)| == lens[s]
  {
  }

  lemma TokenWritten(ll: seq<nat>, dl: seq<nat>, t: Token)
    requires CanWrite(ll, dl, t)
    ensures match t case Literal(b) => b < |ll| case Copy(i, x, d, y) => 257 + i < |ll| && d < |dl|
    ensures t.Copy? ==> t.d < 30 && t.y < Pow2(DistExtra(t.d))
  {
  }

  // ----- blocks with stored data (section 3.2.4)

  lemma {:induction false} BytesRead(bits: seq<bit>, pos: nat, h: seq<byte>, data: seq<byte>)
    requires Here(bits, pos, Stream(data))
    ensures ReadBytes(bits, pos, |data|, h) == Ok(h + data, pos + 8 * |data|)
    decreases |data|
  {
    hide ReadBits, BitsOf, Here, Pow2;
    HereBounds(bits, pos, Stream(data));
    if data == [] {
      assert h + data == h;
    } else {
      HereBoth(bits, pos, BitsOf(data[0], 8), Stream(data[1..]));
      Pow2Eight();
      NumberHere(bits, pos, data[0], 8);
      BytesRead(bits, pos + 8, h + [data[0]], data[1..]);
      assert h + [data[0]] + data[1..] == h + data;
    }
  }

  lemma HereBounds(bits: seq<bit>, pos: nat, s: seq<bit>)
    requires Here(bits, pos, s)
    ensures pos + |s| <= |bits|
  {
  }

  lemma Pow2Sixteen()
    ensures Pow2(16) == 65536
  {
    Pow2Eight();
    ShlAdd(1, 8, 8);
    ShlInner16();
  }

  lemma ShlInner16()
    ensures Shl(256, 8) == 65536
  {
    assert Shl(256, 4) == 4096;
    assert Shl(4096, 4) == 65536;
    ShlAdd(256, 4, 4);
  }

  lemma NextByte(pos: nat, p: nat)
    requires pos <= p < pos + 8 && p % 8 == 0
    ensures ByteBoundary(pos) == p
  {
  }

  lemma StoredIs(bits: seq<bit>, pos: nat, h: seq<byte>, p: nat, n: nat, c: nat)
    requires ByteBoundary(pos) == p && ReadBits(bits, p, 16) == Ok(n, p + 16) && ReadBits(bits, p + 16, 16) == Ok(c, p + 32)
    ensures n + c == 65535 ==> Stored(bits, pos, h) == ReadBytes(bits, p + 32, n, h)
    ensures n + c != 65535 ==> Stored(bits, pos, h) == Err(Invalid(1))
  {
    hide ReadBits, ReadBytes, ByteBoundary;
  }

  lemma BlockIs(bits: seq<bit>, pos: nat, h: seq<byte>, last: bit, kind: nat, h': seq<byte>, p: nat)
    requires |h| >= 32768 && ReadBits(bits, pos, 1) == Ok(last, pos + 1) && ReadBits(bits, pos + 1, 2) == Ok(kind, pos + 3)
    ensures kind == 0 && Stored(bits, pos + 3, h) == Ok(h', p) ==>
      ReadBlock(bits, pos, h) == Ok(Block(last == 1, h'), p)
    ensures kind == 1 && Codes(FixedLengths(), FixedDistances(), bits, pos + 3, h) == Ok(h', p) ==>
      ReadBlock(bits, pos, h) == Ok(Block(last == 1, h'), p)
    ensures kind == 2 && Dynamic(bits, pos + 3, h) == Ok(h', p) ==>
      ReadBlock(bits, pos, h) == Ok(Block(last == 1, h'), p)
    ensures kind == 3 ==> ReadBlock(bits, pos, h) == Err(Invalid(2))
  {
    hide ReadBits, Stored, Codes, Dynamic, FixedLengths, FixedDistances;
  }

  /** The three bits in front of a block. */
  lemma HeaderRead(bits: seq<bit>, pos: nat, last: bit, k0: bit, k1: bit)
    requires Here(bits, pos, [last, k0, k1])
    ensures ReadBits(bits, pos, 1) == Ok(last, pos + 1) && ReadBits(bits, pos + 1, 2) == Ok(k0 + 2 * k1, pos + 3)
  {
    assert [last, k0, k1] == [last] + [k0, k1];
    HereBoth(bits, pos, [last], [k0, k1]);
    hide Here;
    HereIs(bits, pos, [last]);
    HereIs(bits, pos + 1, [k0, k1]);
    assert [last][1..] == [] && [k0, k1][1..] == [k1] && [k1][1..] == [];
    assert LE([last]) == last && LE([k1]) == k1 && LE([k0, k1]) == k0 + 2 * k1;
  }

  lemma HereIs(bits: seq<bit>, pos: nat, s: seq<bit>)
    requires Here(bits, pos, s)
    ensures pos + |s| <= |bits| && bits[pos..pos + |s|] == s
  {
  }

  lemma StoredRead(bits: seq<bit>, pos: nat, h: seq<byte>, data: seq<byte>, p: nat)
    requires |data| <= 65535 && pos <= p < pos + 8 && p % 8 == 0
    requires Here(bits, p, BitsOf(|data|, 16)) && Here(bits, p + 16, BitsOf(65535 - |data|, 16)) && Here(bits, p + 32, Stream(data))
    ensures Stored(bits, pos, h) == Ok(h + data, p + 32 + 8 * |data|)
  {
    hide *;
    var n, c := |data|, 65535 - |data|;
    NextByte(pos, p);
    Pow2Sixteen();
    NumberHere(bits, p, n, 16);
    NumberHere(bits, p + 16, c, 16);
    BytesRead(bits, p + 32, h, data);
    StoredIs(bits, pos, h, p, n, c);
  }

  /** Any data of up to 65535 bytes, behind its length and the complement of its length, from the
      next byte on. */
  lemma StoredBlock(bits: seq<bit>, pos: nat, h: seq<byte>, last: bit, data: seq<byte>, p: nat)
    requires |h| >= 32768 && |data| <= 65535 && pos + 3 <= p < pos + 11 && p % 8 == 0
    requires Here(bits, pos, [last, 0, 0])
    requires Here(bits, p, BitsOf(|data|, 16)) && Here(bits, p + 16, BitsOf(65535 - |data|, 16)) && Here(bits, p + 32, Stream(data))
    ensures ReadBlock(bits, pos, h) == Ok(Block(last == 1, h + data), p + 32 + 8 * |data|)
  {
    hide *;
    HeaderRead(bits, pos, last, 0, 0);
    StoredRead(bits, pos + 3, h, data, p);
    BlockIs(bits, pos, h, last, 0, h + data, p + 32 + 8 * |data|);
  }

  // ----- blocks with fixed codes (section 3.2.6)

  /** Which literal/length value has how many bits. */
  lemma FixedRanges(s: nat)
    requires s < 288
    ensures |FixedLengths()| == 288
    ensures FixedLengths()[s] == if s <= 143 then 8 else if s <= 255 then 9 else if s <= 279 then 7 else 8
  {
  }

  lemma {:induction false} CountRun(n: nat, v: nat, k: nat)
    ensures Count(seq(n, _ => v), k) == if v == k then n else 0
  {
    if n == 0 {
    } else {
      assert seq(n, _ => v)[..n - 1] == seq(n - 1, _ => v);
      CountRun(n - 1, v, k);
    }
  }

  /** How many of the first s values have codes of k bits. */
  lemma FixedCount(s: nat, k: nat)
    requires s <= 288
    ensures var c := Count(FixedLengths()[..s], k);
      && (k == 8 ==> c == (if s <= 144 then s else if s <= 280 then 144 else s - 136))
      && (k == 9 ==> c == (if s <= 144 then 0 else if s <= 256 then s - 144 else 112))
      && (k == 7 ==> c == (if s <= 256 then 0 else if s <= 280 then s - 256 else 24))
      && (k != 7 && k != 8 && k != 9 ==> c == 0)
  {
    hide FixedLengths, Count;
    FixedPrefix(s);
    var f := FixedLengths();
    if s <= 144 {
      CountRun(s, 8, k);
    } else if s <= 256 {
      FixedCount(144, k);
      CountSplit(f[..144], seq(s - 144, _ => 9), k);
      CountRun(s - 144, 9, k);
    } else if s <= 280 {
      FixedCount(256, k);
      CountSplit(f[..256], seq(s - 256, _ => 7), k);
      CountRun(s - 256, 7, k);
    } else {
      FixedCount(280, k);
      CountSplit(f[..280], seq(s - 280, _ => 8), k);
      CountRun(s - 280, 8, k);
    }
  }

  lemma FixedPrefix(s: nat)
    requires s <= 288
    ensures var f := FixedLengths();
      f[..s] ==
        if s <= 144 then seq(s, _ => 8)
        else if s <= 256 then f[..144] + seq(s - 144, _ => 9)
        else if s <= 280 then f[..256] + seq(s - 256, _ => 7)
        else f[..280] + seq(s - 280, _ => 8)
  {
  }

  lemma FixedNext()
    ensures var f := FixedLengths(); NextCode(f, 7) == 0 && NextCode(f, 8) == 48 && NextCode(f, 9) == 400
  {
    var f := FixedLengths();
    assert f[..288] == f;
    hide FixedLengths, Count;
    FixedCount(288, 1);
    FixedCount(288, 2);
    FixedCount(288, 3);
    FixedCount(288, 4);
    FixedCount(288, 5);
    FixedCount(288, 6);
    FixedCount(288, 7);
    FixedCount(288, 8);
    assert NextCode(f, 1) == 0;
    assert NextCode(f, 2) == 0;
    assert NextCode(f, 3) == 0;
    assert NextCode(f, 4) == 0;
    assert NextCode(f, 5) == 0;
    assert NextCode(f, 6) == 0;
  }

  /** The codes of the table in the standard. */
  lemma FixedCode(s: nat)
    requires s < 288
    ensures Code(FixedLengths(), s) ==
      if s <= 143 then 0x30 + s else if s <= 255 then 0x190 + (s - 144) else if s <= 279 then s - 256 else 0xC0 + (s - 280)
  {
    FixedRanges(s);
    FixedNext();
    FixedCount(s, FixedLengths()[s]);
    hide FixedLengths, NextCode, Count;
  }

  lemma FixedDistCode(d: nat)
    requires d < 30
    ensures |FixedDistances()| == 30 && FixedDistances()[d] == 5 && Code(FixedDistances(), d) == d
  {
    var f := FixedDistances();
    assert f[..d] == seq(d, _ => 5);
    CountRun(d, 5, 5);
    CountRun(30, 5, 1);
    CountRun(30, 5, 2);
    CountRun(30, 5, 3);
    CountRun(30, 5, 4);
    hide Count;
    assert NextCode(f, 1) == 0;
    assert NextCode(f, 2) == 0;
    assert NextCode(f, 3) == 0;
    assert NextCode(f, 4) == 0;
  }

  lemma FixedGood()
    ensures Good(FixedLengths()) && Good(FixedDistances())
  {
    Inflate.FixedLitFacts();
    Inflate.FixedDistFacts();
    hide FixedLengths, FixedDistances, KraftSum, Pow2;
  }

  /** Any literals and matches, written with the codes above. */
  lemma FixedBlock(bits: seq<bit>, pos: nat, h: seq<byte>, last: bit, ts: seq<Token>)
    requires |h| >= 32768 && CanWriteAll(FixedLengths(), FixedDistances(), ts)
    requires Here(bits, pos, [last, 1, 0]) && Here(bits, pos + 3, TokensBits(FixedLengths(), FixedDistances(), ts))
    ensures ReadBlock(bits, pos, h) ==
      Ok(Block(last == 1, PlayedAll(FixedLengths(), FixedDistances(), h, ts)), pos + 3 + |TokensBits(FixedLengths(), FixedDistances(), ts)|)
  {
    hide *;
    var ll, dl := FixedLengths(), FixedDistances();
    HeaderRead(bits, pos, last, 1, 0);
    FixedGood();
    FixedRanges(256);
    CodesRead(ll, dl, bits, pos + 3, h, ts);
    BlockIs(bits, pos, h, last, 1, PlayedAll(ll, dl, h, ts), pos + 3 + |TokensBits(ll, dl, ts)|);
  }

  // ----- the numbers of section 3.2.5

  /** Length codes 257 + i: extra bits and shortest length. */
  lemma LengthNumbers(i: nat)
    requires i < 29
    ensures LengthExtra(i) == [0, 0, 0, 0, 0, 0, 0, 0, 1, 1, 1, 1, 2, 2, 2, 2, 3, 3, 3, 3, 4, 4, 4, 4, 5, 5, 5, 5, 0][i]
    ensures LengthBase(i) == [3, 4, 5, 6, 7, 8, 9, 10, 11, 13, 15, 17, 19, 23, 27, 31, 35, 43, 51, 59, 67, 83, 99, 115,
                              131, 163, 195, 227, 258][i]
  {
    Inflate.LengthsAreDeflate(i);
    Inflate.ExtrasAreDeflate();
    hide LengthBase, LengthExtra;
  }

  lemma DistNumbers(d: nat)
    requires d < 30
    ensures DistExtra(d) == [0, 0, 0, 0, 1, 1, 2, 2, 3, 3, 4, 4, 5, 5, 6, 6, 7, 7, 8, 8, 9, 9, 10, 10, 11, 11, 12, 12, 13, 13][d]
    ensures DistBase(d) == [1, 2, 3, 4, 5, 7, 9, 13, 17, 25, 33, 49, 65, 97, 129, 193, 257, 385, 513, 769, 1025, 1537,
                            2049, 3073, 4097, 6145, 8193, 12289, 16385, 24577][d]
  {
    Inflate.DistsAreDeflate(d);
    Inflate.ExtrasAreDeflate();
    hide DistBase, DistExtra;
  }

  // ----- the description of dynamic codes (section 3.2.7)

  /** At which place the length of code length symbol s is written: in the order 16, 17, 18, 0, 8, 7,
      9, 6, 10, 5, 11, 4, 12, 3, 13, 2, 14, 1, 15. */
  function PlaceOf(s: nat): (j: nat)
    requires s < 19
    ensures j < 19
  {
    if s >= 16 then s - 16 else if s == 0 then 3 else if s >= 8 then 2 * s - 12 else 19 - 2 * s
  }

  lemma BorderPlaces(j: nat, s: nat)
    requires j < 19 && s < 19
    ensures |BORDER| == 19 && BORDER[j] < 19 && (BORDER[j] == s <==> PlaceOf(s) == j)
  {
  }

  lemma CodeLensStep(bits: seq<bit>, pos: nat, nb: nat, j: nat, acc: seq<nat>)
    requires j < nb <= 19 && |acc| == 19 && ReadCodeLens(bits, pos, nb, j, acc).Ok?
    ensures pos + 3 <= |bits| && |BORDER| == 19 && BORDER[j] < 19
    ensures ReadCodeLens(bits, pos, nb, j, acc) ==
      ReadCodeLens(bits, pos + 3, nb, j + 1, acc[BORDER[j] := LE(bits[pos..pos + 3])])
  {
    hide LE;
  }

  lemma {:induction false} CodeLensFrom(bits: seq<bit>, pos: nat, nb: nat, j: nat, acc: seq<nat>, s: nat)
    requires j <= nb <= 19 && |acc| == 19 && s < 19 && ReadCodeLens(bits, pos, nb, j, acc).Ok?
    ensures var r := ReadCodeLens(bits, pos, nb, j, acc);
      && r.pos == pos + 3 * (nb - j) <= |bits|
      && r.val[s] == if j <= PlaceOf(s) < nb
                     then LE(bits[pos + 3 * (PlaceOf(s) - j)..pos + 3 * (PlaceOf(s) - j) + 3]) else acc[s]
    decreases nb - j
  {
    hide LE, PlaceOf, BORDER;
    if j == nb {
    } else {
      CodeLensStep(bits, pos, nb, j, acc);
      BorderPlaces(j, s);
      CodeLensFrom(bits, pos + 3, nb, j + 1, acc[BORDER[j] := LE(bits[pos..pos + 3])], s);
    }
  }

  /** Each symbol gets the three bits written at its place, or 0 if nothing was written there. */
  lemma CodeLensAt(bits: seq<bit>, pos: nat, nb: nat, s: nat)
    requires nb <= 19 && s < 19 && ReadCodeLens(bits, pos, nb, 0, seq(19, _ => 0)).Ok?
    ensures var r := ReadCodeLens(bits, pos, nb, 0, seq(19, _ => 0));
      var j := if s >= 16 then s - 16 else if s == 0 then 3 else if s >= 8 then 2 * s - 12 else 19 - 2 * s;
      && r.pos == pos + 3 * nb <= |bits|
      && r.val[s] == if j < nb then LE(bits[pos + 3 * j..pos + 3 * j + 3]) else 0
  {
    CodeLensFrom(bits, pos, nb, 0, seq(19, _ => 0), s);
    hide LE, ReadCodeLens;
  }

  lemma {:induction false} CodeLensExist(bits: seq<bit>, pos: nat, nb: nat, j: nat, acc: seq<nat>)
    requires j <= nb <= 19 && |acc| == 19 && pos + 3 * (nb - j) <= |bits|
    ensures ReadCodeLens(bits, pos, nb, j, acc).Ok?
    decreases nb - j
  {
    if j == nb {
    } else {
      CodeLensExist(bits, pos + 3, nb, j + 1, acc[BORDER[j] := LE(bits[pos..pos + 3])]);
    }
  }

  /** cl written at these places. */
  ghost predicate CodeLensWritten(bits: seq<bit>, pos: nat, nb: nat, cl: seq<nat>) {
    && |cl| == 19 && nb <= 19 && pos + 3 * nb <= |bits|
    && forall s :: 0 <= s < 19 ==>
      cl[s] < 8 && (if PlaceOf(s) < nb then Here(bits, pos + 3 * PlaceOf(s), BitsOf(cl[s], 3)) else cl[s] == 0)
  }

  lemma WrittenAt(bits: seq<bit>, pos: nat, nb: nat, cl: seq<nat>, s: nat)
    requires CodeLensWritten(bits, pos, nb, cl) && s < 19
    ensures cl[s] == if PlaceOf(s) < nb then LE(bits[pos + 3 * PlaceOf(s)..pos + 3 * PlaceOf(s) + 3]) else 0
  {
    if PlaceOf(s) < nb {
      LEBitsOf(cl[s], 3);
      assert Pow2(3) == 8;
      LowSmall(cl[s], 3);
    }
    hide LE, Low, BitsOf, PlaceOf;
  }

  lemma CodeLensRead(bits: seq<bit>, pos: nat, nb: nat, cl: seq<nat>)
    requires CodeLensWritten(bits, pos, nb, cl)
    ensures ReadCodeLens(bits, pos, nb, 0, seq(19, _ => 0)) == Ok(cl, pos + 3 * nb)
  {
    hide LE, ReadCodeLens, PlaceOf;
    CodeLensExist(bits, pos, nb, 0, seq(19, _ => 0));
    var r := ReadCodeLens(bits, pos, nb, 0, seq(19, _ => 0));
    forall s | 0 <= s < 19
      ensures r.val[s] == cl[s]
    {
      CodeLensFrom(bits, pos, nb, 0, seq(19, _ => 0), s);
      WrittenAt(bits, pos, nb, cl, s);
    }
    CodeLensFrom(bits, pos, nb, 0, seq(19, _ => 0), 0);
    assert r.val == cl;
  }

  /** A code length, the one before it 3 + x times, or 3 + x or 11 + x zeros. */
  datatype Item = Len(n: nat) | Same(x: nat) | Zeros(x: nat) | ManyZeros(x: nat)

  function Previous(acc: seq<nat>): nat {
    if acc == [] then 0 else acc[|acc| - 1]
  }

  function Added(acc: seq<nat>, t: Item): (r: seq<nat>)
    ensures |r| > |acc|
  {
    match t
    case Len(n) => acc + [n]
    case Same(x) => acc + seq(3 + x, _ => Previous(acc))
    case Zeros(x) => acc + seq(3 + x, _ => 0)
    case ManyZeros(x) => acc + seq(11 + x, _ => 0)
  }

  function AddedAll(acc: seq<nat>, ts: seq<Item>): (r: seq<nat>)
    ensures |r| >= |acc| + |ts|
    decreases |ts|
  {
    if ts == [] then acc else AddedAll(Added(acc, ts[0]), ts[1..])
  }

  /** The symbol of the code length alphabet, its extra bits and their number. */
  function Symbol(t: Item): (nat, nat, nat) {
    match t
    case Len(n) => (n, 0, 0)
    case Same(x) => (16, x, 2)
    case Zeros(x) => (17, x, 3)
    case ManyZeros(x) => (18, x, 7)
  }

  ghost predicate CanWriteItem(cl: seq<nat>, t: Item) {
    var (s, x, n) := Symbol(t);
    |cl| == 19 && s < 19 && cl[s] > 0 && x < Pow2(n) && (t.Len? ==> t.n < 16)
  }

  function ItemBits(cl: seq<nat>, t: Item): seq<bit>
    requires Symbol(t).0 < |cl|
  {
    SymBits(cl, Symbol(t).0) + BitsOf(Symbol(t).1, Symbol(t).2)
  }

  ghost function ItemsBits(cl: seq<nat>, ts: seq<Item>): seq<bit>
    requires forall t :: t in ts ==> CanWriteItem(cl, t)
  {
    if ts == [] then []
    else
      assert ts[0] in ts;
      SymbolIn(cl, ts[0]);
      ItemBits(cl, ts[0]) + ItemsBits(cl, ts[1..])
  }

  lemma LensDone(cl: seq<nat>, bits: seq<bit>, pos: nat, acc: seq<nat>)
    requires pos <= |bits|
    ensures ReadLens(cl, bits, pos, |acc|, acc, Previous(acc)) == Ok(acc, pos)
  {
  }

  lemma LenRead(cl: seq<nat>, bits: seq<bit>, pos: nat, n: nat, acc: seq<nat>, k: nat, p: nat)
    requires |acc| < n && k < 16 && DecodeSym(cl, bits, pos) == Ok(k, p)
    ensures ReadLens(cl, bits, pos, n, acc, Previous(acc)) == ReadLens(cl, bits, p, n, acc + [k], k)
  {
    hide DecodeSym;
  }

  lemma RunRead(cl: seq<nat>, bits: seq<bit>, pos: nat, n: nat, acc: seq<nat>, k: nat, p: nat, x: nat, e: nat)
    requires |acc| < n && 16 <= k <= 18 && DecodeSym(cl, bits, pos) == Ok(k, p)
    requires e == (if k == 16 then 2 else if k == 17 then 3 else 7) && ReadBits(bits, p, e) == Ok(x, p + e)
    ensures var count := (if k == 18 then 11 else 3) + x; var v := if k == 16 then Previous(acc) else 0;
      if |acc| + count > n then ReadLens(cl, bits, pos, n, acc, Previous(acc)) == Err(Invalid(1))
      else ReadLens(cl, bits, pos, n, acc, Previous(acc)) == ReadLens(cl, bits, p + e, n, acc + seq(count, _ => v), v)
  {
    hide DecodeSym, ReadBits, Previous;
  }

  lemma PreviousRun(acc: seq<nat>, count: nat, v: nat)
    requires count > 0
    ensures Previous(acc + seq(count, _ => v)) == v && Previous(acc + [v]) == v
  {
  }

  lemma ItemRead(cl: seq<nat>, bits: seq<bit>, pos: nat, n: nat, acc: seq<nat>, t: Item)
    requires Good(cl) && CanWriteItem(cl, t) && Here(bits, pos, ItemBits(cl, t)) && |Added(acc, t)| <= n
    ensures ReadLens(cl, bits, pos, n, acc, Previous(acc)) ==
      ReadLens(cl, bits, pos + |ItemBits(cl, t)|, n, Added(acc, t), Previous(Added(acc, t)))
  {
    hide *;
    SymbolIn(cl, t);
    if t.Len? {
      LenParts(cl, acc, t.n);
      SymHere(cl, bits, pos, t.n);
      LenRead(cl, bits, pos, n, acc, t.n, pos + cl[t.n]);
      PreviousRun(acc, 1, t.n);
    } else {
      var (k, x, e) := Symbol(t);
      SymbolIs(t);
      ItemParts(cl, acc, t, k, e);
      RunHere(cl, bits, pos, n, acc, k, x, e);
    }
  }

  lemma SymbolIs(t: Item)
    ensures !t.Len? ==> Symbol(t).1 == t.x
  {
  }

  lemma LenParts(cl: seq<nat>, acc: seq<nat>, k: nat)
    requires CanWriteItem(cl, Len(k)) && Symbol(Len(k)).0 < |cl|
    ensures k < 16 && k < |cl| && cl[k] > 0 && |SymBits(cl, k)| == cl[k]
    ensures ItemBits(cl, Len(k)) == SymBits(cl, k) && Added(acc, Len(k)) == acc + [k]
  {
    hide Previous, Code;
    assert BitsOf(0, 0) == [];
  }

  /** The code and the extra bits of a repeat, and what it stands for. */
  lemma ItemParts(cl: seq<nat>, acc: seq<nat>, t: Item, k: nat, e: nat)
    requires CanWriteItem(cl, t) && !t.Len? && Symbol(t).0 < |cl| && (k, t.x, e) == Symbol(t)
    ensures RunOk(cl, k, t.x, e) && 16 <= k <= 18 && e == (if k == 16 then 2 else if k == 17 then 3 else 7)
    ensures k < |cl| && ItemBits(cl, t) == SymBits(cl, k) + BitsOf(t.x, e)
    ensures Added(acc, t) == acc + seq((if k == 18 then 11 else 3) + t.x, _ => if k == 16 then Previous(acc) else 0)
  {
    hide Pow2, Previous, Code;
    var n := (if k == 18 then 11 else 3) + t.x;
    assert t.Same? ==> seq(n, _ => if k == 16 then Previous(acc) else 0) == seq(n, _ => Previous(acc));
    assert !t.Same? ==> seq(n, _ => if k == 16 then Previous(acc) else 0) == seq(n, _ => 0);
  }

  ghost predicate RunOk(cl: seq<nat>, k: nat, x: nat, e: nat) {
    k < |cl| && cl[k] > 0 && x < Pow2(e) && |SymBits(cl, k)| == cl[k]
  }

  lemma RunHere(cl: seq<nat>, bits: seq<bit>, pos: nat, n: nat, acc: seq<nat>, k: nat, x: nat, e: nat)
    requires Good(cl) && RunOk(cl, k, x, e) && 16 <= k <= 18 && e == (if k == 16 then 2 else if k == 17 then 3 else 7)
    requires k < |cl| && Here(bits, pos, SymBits(cl, k) + BitsOf(x, e))
    requires |acc| + (if k == 18 then 11 else 3) + x <= n
    ensures var r := acc + seq((if k == 18 then 11 else 3) + x, _ => if k == 16 then Previous(acc) else 0);
      ReadLens(cl, bits, pos, n, acc, Previous(acc)) ==
        ReadLens(cl, bits, pos + |SymBits(cl, k) + BitsOf(x, e)|, n, r, Previous(r))
  {
    hide *;
    RunParts(cl, k, x, e);
    HereBoth(bits, pos, SymBits(cl, k), BitsOf(x, e));
    SymHere(cl, bits, pos, k);
    NumberHere(bits, pos + cl[k], x, e);
    RunRead(cl, bits, pos, n, acc, k, pos + cl[k], x, e);
    var v := if k == 16 then Previous(acc) else 0;
    var c := (if k == 18 then 11 else 3) + x;
    PreviousRun(acc, c, v);
    assert seq(c, _ => v) == seq(c, _ => if k == 16 then Previous(acc) else 0);
  }

  lemma RunParts(cl: seq<nat>, k: nat, x: nat, e: nat)
    requires RunOk(cl, k, x, e)
    ensures k < |cl| && cl[k] > 0 && x < Pow2(e) && |SymBits(cl, k)| == cl[k]
  {
  }

  lemma {:induction false} ItemsRead(cl: seq<nat>, bits: seq<bit>, pos: nat, acc: seq<nat>, ts: seq<Item>)
    requires Good(cl) && (forall t :: t in ts ==> CanWriteItem(cl, t)) && Here(bits, pos, ItemsBits(cl, ts))
    ensures ReadLens(cl, bits, pos, |AddedAll(acc, ts)|, acc, Previous(acc)) == Ok(AddedAll(acc, ts), pos + |ItemsBits(cl, ts)|)
    decreases |ts|
  {
    hide ReadLens, Previous, Good, Here, CanWriteItem, Added, ItemBits;
    HereBounds(bits, pos, ItemsBits(cl, ts));
    if ts == [] {
      LensDone(cl, bits, pos, acc);
    } else {
      assert ts[0] in ts;
      SymbolIn(cl, ts[0]);
      HereBoth(bits, pos, ItemBits(cl, ts[0]), ItemsBits(cl, ts[1..]));
      ItemRead(cl, bits, pos, |AddedAll(acc, ts)|, acc, ts[0]);
      ItemsRead(cl, bits, pos + |ItemBits(cl, ts[0])|, Added(acc, ts[0]), ts[1..]);
    }
  }

  lemma SymbolIn(cl: seq<nat>, t: Item)
    requires CanWriteItem(cl, t)
    ensures Symbol(t).0 < |cl|
  {
  }

  lemma FiveFour(n: nat)
    ensures n < 32 ==> n < Pow2(5)
    ensures n < 16 ==> n < Pow2(4)
  {
    assert Pow2(4) == 16 && Pow2(5) == 32;
  }

  lemma TreesAre(bits: seq<bit>, pos: nat, x: nat, y: nat, z: nat)
    requires ReadBits(bits, pos, 5) == Ok(x, pos + 5) && ReadBits(bits, pos + 5, 5) == Ok(y, pos + 10)
    requires ReadBits(bits, pos + 10, 4) == Ok(z, pos + 14)
    ensures z < 16
    ensures ReadTrees(bits, pos) == ReadTreesOf(bits, pos + 14, 257 + x, 1 + y, 4 + z)
    ensures x > 29 || y > 29 ==> ReadTrees(bits, pos) == Err(Invalid(1))
  {
    hide ReadBits, ReadTreesOf;
    assert Pow2(4) == 16;
    hide Pow2;
    TooMany(bits, pos + 14, 257 + x, 1 + y, 4 + z);
  }

  lemma TooMany(bits: seq<bit>, pos: nat, nl: nat, nd: nat, nb: nat)
    requires nl >= 257 && nd >= 1 && nb <= 19
    ensures nl > 286 || nd > 30 ==> ReadTreesOf(bits, pos, nl, nd, nb) == Err(Invalid(1))
  {
    hide ReadCodeLens, ReadLens, BadLens;
  }

  lemma TreesOfAre(bits: seq<bit>, pos: nat, nl: nat, nd: nat, nb: nat, cl: seq<nat>, p: nat, lens: seq<nat>, p': nat)
    requires 257 <= nl <= 286 && 1 <= nd <= 30 && nb <= 19 && |cl| == 19 && BadLens(cl) == 0
    requires ReadCodeLens(bits, pos, nb, 0, seq(19, _ => 0)) == Ok(cl, p)
    requires |lens| == nl + nd && ReadLens(cl, bits, p, nl + nd, [], 0) == Ok(lens, p')
    ensures ReadTreesOf(bits, pos, nl, nd, nb) == Ok(Trees(lens[..nl], lens[nl..]), p')
  {
    hide ReadCodeLens, ReadLens, BadLens;
  }

  /** The numbers of codes, the code length code and the lengths of both codes with their repeats. */
  ghost predicate TreesWritten(bits: seq<bit>, pos: nat, nl: nat, nd: nat, nb: nat, cl: seq<nat>, items: seq<Item>) {
    && 257 <= nl <= 286 && 1 <= nd <= 30 && 4 <= nb <= 19
    && Here(bits, pos, BitsOf(nl - 257, 5)) && Here(bits, pos + 5, BitsOf(nd - 1, 5)) && Here(bits, pos + 10, BitsOf(nb - 4, 4))
    && CodeLensWritten(bits, pos + 14, nb, cl) && Good(cl) && BadLens(cl) == 0
    && (forall t :: t in items ==> CanWriteItem(cl, t))
    && Here(bits, pos + 14 + 3 * nb, ItemsBits(cl, items))
    && |AddedAll([], items)| == nl + nd
  }

  lemma TreesRead(bits: seq<bit>, pos: nat, nl: nat, nd: nat, nb: nat, cl: seq<nat>, items: seq<Item>)
    requires TreesWritten(bits, pos, nl, nd, nb, cl, items)
    ensures var lens := AddedAll([], items);
      ReadTrees(bits, pos) == Ok(Trees(lens[..nl], lens[nl..]), pos + 14 + 3 * nb + |ItemsBits(cl, items)|)
  {
    hide *;
    WrittenParts(bits, pos, nl, nd, nb, cl, items);
    CountsRead(bits, pos, nl, nd, nb);
    NothingBefore();
    var lens := AddedAll([], items);
    CodeLensRead(bits, pos + 14, nb, cl);
    CodeLensSize(bits, pos + 14, nb, cl);
    ItemsRead(cl, bits, pos + 14 + 3 * nb, [], items);
    TreesOfAre(bits, pos + 14, nl, nd, nb, cl, pos + 14 + 3 * nb, lens, pos + 14 + 3 * nb + |ItemsBits(cl, items)|);
  }

  lemma WrittenParts(bits: seq<bit>, pos: nat, nl: nat, nd: nat, nb: nat, cl: seq<nat>, items: seq<Item>)
    requires TreesWritten(bits, pos, nl, nd, nb, cl, items)
    ensures 257 <= nl <= 286 && 1 <= nd <= 30 && 4 <= nb <= 19
    ensures Here(bits, pos, BitsOf(nl - 257, 5)) && Here(bits, pos + 5, BitsOf(nd - 1, 5)) && Here(bits, pos + 10, BitsOf(nb - 4, 4))
    ensures CodeLensWritten(bits, pos + 14, nb, cl) && Good(cl) && BadLens(cl) == 0
    ensures (forall t :: t in items ==> CanWriteItem(cl, t)) && Here(bits, pos + 14 + 3 * nb, ItemsBits(cl, items))
    ensures |AddedAll([], items)| == nl + nd
  {
    hide Here, CodeLensWritten, Good, BadLens, CanWriteItem, ItemsBits, AddedAll, BitsOf;
  }

  lemma CountsRead(bits: seq<bit>, pos: nat, nl: nat, nd: nat, nb: nat)
    requires 257 <= nl <= 286 && 1 <= nd <= 30 && 4 <= nb <= 19
    requires Here(bits, pos, BitsOf(nl - 257, 5)) && Here(bits, pos + 5, BitsOf(nd - 1, 5)) && Here(bits, pos + 10, BitsOf(nb - 4, 4))
    ensures ReadTrees(bits, pos) == ReadTreesOf(bits, pos + 14, nl, nd, nb)
  {
    hide *;
    FiveFour(nl - 257);
    FiveFour(nd - 1);
    FiveFour(nb - 4);
    NumberHere(bits, pos, nl - 257, 5);
    NumberHere(bits, pos + 5, nd - 1, 5);
    NumberHere(bits, pos + 10, nb - 4, 4);
    TreesAre(bits, pos, nl - 257, nd - 1, nb - 4);
  }

  lemma NothingBefore()
    ensures Previous([]) == 0
  {
  }

  lemma CodeLensSize(bits: seq<bit>, pos: nat, nb: nat, cl: seq<nat>)
    requires CodeLensWritten(bits, pos, nb, cl)
    ensures |cl| == 19
  {
  }

  lemma DynamicIs(bits: seq<bit>, pos: nat, h: seq<byte>, ll: seq<nat>, dl: seq<nat>, p: nat)
    requires |h| >= 32768 && ReadTrees(bits, pos) == Ok(Trees(ll, dl), p) && BadLens(ll) == 0 && BadLens(dl) == 0
    ensures Dynamic(bits, pos, h) == Codes(ll, dl, bits, p, h)
  {
    hide ReadTrees, BadLens, Codes;
  }

  /** Any literals and matches, written with any codes that the block describes itself. */
  lemma DynamicBlock(bits: seq<bit>, pos: nat, h: seq<byte>, last: bit, nl: nat, nd: nat, nb: nat, cl: seq<nat>, items: seq<Item>, ts: seq<Token>)
    requires |h| >= 32768 && Here(bits, pos, [last, 0, 1]) && TreesWritten(bits, pos + 3, nl, nd, nb, cl, items)
    requires var lens := AddedAll([], items); |lens| == nl + nd && 257 <= nl
    requires var lens := AddedAll([], items); var ll := lens[..nl]; var dl := lens[nl..];
      && Good(ll) && ll[256] > 0 && BadLens(ll) == 0 && BadLens(dl) == 0 && CanWriteAll(ll, dl, ts)
      && Here(bits, pos + 17 + 3 * nb + |ItemsBits(cl, items)|, TokensBits(ll, dl, ts))
    ensures var lens := AddedAll([], items); var ll := lens[..nl]; var dl := lens[nl..];
      ReadBlock(bits, pos, h) == Ok(Block(last == 1, PlayedAll(ll, dl, h, ts)),
        pos + 17 + 3 * nb + |ItemsBits(cl, items)| + |TokensBits(ll, dl, ts)|)
  {
    hide *;
    WrittenParts(bits, pos + 3, nl, nd, nb, cl, items);
    var lens := AddedAll([], items);
    var ll, dl := lens[..nl], lens[nl..];
    var p := pos + 17 + 3 * nb + |ItemsBits(cl, items)|;
    HeaderRead(bits, pos, last, 0, 1);
    TreesRead(bits, pos + 3, nl, nd, nb, cl, items);
    CodesRead(ll, dl, bits, p, h, ts);
    DynamicIs(bits, pos + 3, h, ll, dl, p);
    BlockIs(bits, pos, h, last, 2, PlayedAll(ll, dl, h, ts), p + |TokensBits(ll, dl, ts)|);
  }

  // ----- whole streams

  /** Blocks one behind the other, the last of them marked: they decode one after the other. */
  lemma {:induction false} StreamRead(bits: seq<bit>, at: seq<nat>, hs: seq<seq<byte>>)
    requires |at| == |hs| >= 2 && forall i :: 0 <= i < |hs| ==> |hs[i]| >= 32768
    requires forall i, j :: 0 <= i && j == i + 1 && j < |at| ==>
      ReadBlock(bits, at[i], hs[i]) == Ok(Block(j == |at| - 1, hs[j]), at[j])
    ensures Blocks(bits, at[0], hs[0]) == Ok(hs[|hs| - 1], at[|at| - 1])
    decreases |at|
  {
    hide ReadBlock;
    assert ReadBlock(bits, at[0], hs[0]) == Ok(Block(1 == |at| - 1, hs[1]), at[1]);
    if |at| == 2 {
    } else {
      var at', hs' := at[1..], hs[1..];
      forall i, j | 0 <= i && j == i + 1 && j < |at'|
        ensures ReadBlock(bits, at'[i], hs'[i]) == Ok(Block(j == |at'| - 1, hs'[j]), at'[j])
      {
        assert at'[i] == at[i + 1] && hs'[i] == hs[i + 1] && at'[j] == at[j + 1] && hs'[j] == hs[j + 1];
        assert ReadBlock(bits, at[i + 1], hs[i + 1]) == Ok(Block(j + 1 == |at| - 1, hs[j + 1]), at[j + 1]);
      }
      StreamRead(bits, at', hs');
    }
  }

  // ----- what is refused

  /** Block type 3, and symbols without a meaning. */
  lemma Refused(bits: seq<bit>, pos: nat, h: seq<byte>, last: bit, ll: seq<nat>, dl: seq<nat>, sym: nat, p: nat, i: nat, x: nat, p': nat)
    requires |h| >= 32768
    ensures Here(bits, pos, [last, 1, 1]) ==> ReadBlock(bits, pos, h) == Err(Invalid(2))
    ensures DecodeSym(ll, bits, pos) == Ok(sym, p) && sym >= 286 ==> Codes(ll, dl, bits, pos, h) == Err(Invalid(1))
    ensures ReadBits(bits, pos, LengthExtra(i)) == Ok(x, p') && DecodeSym(dl, bits, p') == Ok(sym, p) && sym >= 30 ==>
      ReadMatch(dl, bits, pos, i) == Err(Invalid(1))
  {
    if Here(bits, pos, [last, 1, 1]) {
      HeaderRead(bits, pos, last, 1, 1);
      BlockIs(bits, pos, h, last, 3, h, pos);
    }
    hide ReadBlock, DecodeSym, ReadBits;
  }

  /** Data whose length and complement do not belong together. */
  lemma StoredRefused(bits: seq<bit>, pos: nat, h: seq<byte>, n: nat, c: nat, p: nat)
    requires n <= 65535 && c <= 65535 && n + c != 65535 && pos <= p < pos + 8 && p % 8 == 0
    requires Here(bits, p, BitsOf(n, 16)) && Here(bits, p + 16, BitsOf(c, 16))
    ensures Stored(bits, pos, h) == Err(Invalid(1))
  {
    hide *;
    NextByte(pos, p);
    Pow2Sixteen();
    NumberHere(bits, p, n, 16);
    NumberHere(bits, p + 16, c, 16);
    StoredIs(bits, pos, h, p, n, c);
  }

  /** 2 for more codes than there are, 1 for fewer, unless the only code has one bit. */
  lemma WhatIsBad(lens: seq<nat>)
    ensures var g := MaxLen(lens);
      && (g > 0 && KraftSum(lens, g) > Pow2(g) ==> BadLens(lens) == 2)
      && (g > 1 && KraftSum(lens, g) < Pow2(g) ==> BadLens(lens) == 1)
      && (g == 0 || KraftSum(lens, g) == Pow2(g) || (g == 1 && KraftSum(lens, g) < 2) ==> BadLens(lens) == 0)
  {
    assert Pow2(1) == 2;
    hide MaxLen, KraftSum, Pow2;
  }

  /** Codes that are bad in this way, the first of the three sets that is. */
  lemma TreesRefused(bits: seq<bit>, pos: nat, h: seq<byte>, nl: nat, nd: nat, nb: nat, cl: seq<nat>, ll: seq<nat>, dl: seq<nat>, p: nat)
    requires |h| >= 32768 && 257 <= nl <= 286 && 1 <= nd <= 30 && nb <= 19
    ensures ReadCodeLens(bits, pos, nb, 0, seq(19, _ => 0)) == Ok(cl, p) && BadLens(cl) > 0 ==>
      ReadTreesOf(bits, pos, nl, nd, nb) == Err(Invalid(BadLens(cl)))
    ensures ReadTrees(bits, pos) == Ok(Trees(ll, dl), p) && BadLens(ll) > 0 ==> Dynamic(bits, pos, h) == Err(Invalid(BadLens(ll)))
    ensures ReadTrees(bits, pos) == Ok(Trees(ll, dl), p) && BadLens(ll) == 0 < BadLens(dl) ==>
      Dynamic(bits, pos, h) == Err(Invalid(BadLens(dl)))
  {
    hide ReadTrees, ReadCodeLens, ReadLens, BadLens, Codes;
  }

  lemma NoCodeYet(lens: seq<nat>, bits: seq<bit>, pos: nat, k: nat, code: nat, k': nat, code': nat)
    requires k < MaxLen(lens) && pos < |bits| && k' == k + 1 && code' == 2 * code + bits[pos]
    requires forall s :: 0 <= s < |lens| ==> !HasCode(lens, s, k', code')
    ensures DecodeFrom(lens, bits, pos, k, code) == DecodeFrom(lens, bits, pos + 1, k', code')
  {
    hide HasCode, MaxLen;
  }

  lemma NoCodeAtAll(lens: seq<nat>, bits: seq<bit>, pos: nat, k: nat, code: nat)
    requires k >= MaxLen(lens) && 0 !in lens
    ensures DecodeFrom(lens, bits, pos, k, code) == Err(Invalid(1))
  {
  }

  lemma FromStart(lens: seq<nat>, bits: seq<bit>, pos: nat)
    ensures DecodeSym(lens, bits, pos) == DecodeFrom(lens, bits, pos, 0, 0)
  {
  }

  lemma FiveHere(bits: seq<bit>, pos: nat, s: seq<bit>)
    requires Here(bits, pos, s) && |s| == 5
    ensures pos + 5 <= |bits| && bits[pos] == s[0] && bits[pos + 1] == s[1] && bits[pos + 2] == s[2]
    ensures bits[pos + 3] == s[3] && bits[pos + 4] == s[4]
  {
    var t := bits[pos..pos + 5];
    assert t[0] == bits[pos] && t[1] == bits[pos + 1] && t[2] == bits[pos + 2] && t[3] == bits[pos + 3] && t[4] == bits[pos + 4];
  }

  lemma NoFixedCode(k: nat, code: nat)
    requires k < 5 || code >= 30
    ensures |FixedDistances()| == 30 && forall s :: 0 <= s < 30 ==> !HasCode(FixedDistances(), s, k, code)
  {
    forall s | 0 <= s < 30
      ensures !HasCode(FixedDistances(), s, k, code)
    {
      FixedDistCode(s);
    }
  }

  /** The two patterns that no distance code 0 to 29 uses. */
  lemma NoFixedDistance(bits: seq<bit>, pos: nat, x: bit)
    requires Here(bits, pos, [1, 1, 1, 1, x])
    ensures DecodeSym(FixedDistances(), bits, pos) == Err(Invalid(1))
  {
    hide *;
    var f := FixedDistances();
    FiveHere(bits, pos, [1, 1, 1, 1, x]);
    FromStart(f, bits, pos);
    FixedDistLongest();
    NoFixedCode(1, 1);
    NoFixedCode(2, 3);
    NoFixedCode(3, 7);
    NoFixedCode(4, 15);
    NoFixedCode(5, 30 + x);
    NoCodeYet(f, bits, pos, 0, 0, 1, 1);
    NoCodeYet(f, bits, pos + 1, 1, 1, 2, 3);
    NoCodeYet(f, bits, pos + 2, 2, 3, 3, 7);
    NoCodeYet(f, bits, pos + 3, 3, 7, 4, 15);
    NoCodeYet(f, bits, pos + 4, 4, 15, 5, 30 + x);
    NoCodeAtAll(f, bits, pos + 5, 5, 30 + x);
  }

  lemma FixedDistLongest()
    ensures MaxLen(FixedDistances()) == 5 && 0 !in FixedDistances()
  {
    assert 0 !in FixedDistances();
    Inflate.FixedDistFacts();
    hide FixedDistances, MaxLen;
  }
}
