// The tables that huft_build makes decode the code of the given lengths.
module HuftCode {
  // From right slots (HuftTable) to the bit-by-bit decoder of RFC 1951 (Canonical).

  import opened Bits
  import opened Canonical
  import opened HuftTable

  function MinLen(lens: seq<nat>): (m: nat)
    ensures m > 0 ==> m in lens
    ensures forall j :: 0 <= j < |lens| && lens[j] > 0 ==> 0 < m <= lens[j]
  {
    if lens == [] then 0
    else
      var m := MinLen(lens[..|lens| - 1]);
      var last := lens[|lens| - 1];
      assert forall s :: 0 <= s < |lens| - 1 ==> lens[..|lens| - 1][s] == lens[s];
      if last > 0 && (m == 0 || last < m) then last else m
  }

  /** The requested lookup bits, bounded by the shortest and the longest code. */
  function LookupBits(lens: seq<nat>, m: nat): nat {
    var l := if m < MinLen(lens) then MinLen(lens) else m;
    if l > MaxLen(lens) then MaxLen(lens) else l
  }

  /** The arguments that huft_build is called with, as its callers have to choose them. */
  ghost predicate Args(lens: seq<nat>, s: nat, d: seq<nat>, e: seq<nat>) {
    && |d| == |e| && ExtrasOk(e)
    && 0 < |lens| <= s + |d|
    && forall i :: 0 <= i < |lens| ==> lens[i] <= BMAX
  }

  /** At least one code, and not more codes than bits. */
  ghost predicate Usable(lens: seq<nat>) {
    0 < MaxLen(lens) <= BMAX && KraftSum(lens, MaxLen(lens)) <= Pow2(MaxLen(lens))
  }

  function FilledCounts(lens: seq<nat>, g: nat, y: nat): (c: seq<nat>)
    requires g <= BMAX
    ensures IsCounts(c)
  {
    Counts(lens)[g := Count(lens, g) + y]
  }

  ghost function CodeTab(lens: seq<nat>, m: nat, s: nat, d: seq<nat>, e: seq<nat>): Tab
    requires Args(lens, s, d, e) && Usable(lens)
  {
    var g := MaxLen(lens);
    Tab(FilledCounts(lens, g, Pow2(g) - KraftSum(lens, g)), g, LookupBits(lens, m), CodeOrder(lens, g), |lens|, s, d, e)
  }

  lemma CodeTabFixed(lens: seq<nat>, m: nat, s: nat, d: seq<nat>, e: seq<nat>)
    requires Args(lens, s, d, e) && Usable(lens)
    ensures Fixed(CodeTab(lens, m, s, d, e))
  {
    hide KraftSum, Count, CodeOrder, MinLen, Off;
    var g := MaxLen(lens);
    var c, c0 := CodeTab(lens, m, s, d, e).c, Counts(lens);
    EndIsKraftSum(lens, g);
    EndAgree(c, c0, g - 1);
    CodeOrderSyms(lens, g);
    CodeOrderLen(lens, g);
    OffIsTotal(lens, g);
  }

  lemma CodeTabOf(lens: seq<nat>, m: nat, s: nat, d: seq<nat>, e: seq<nat>)
    requires Args(lens, s, d, e) && Usable(lens)
    ensures TabOf(lens, CodeTab(lens, m, s, d, e))
  {
    CodeTabFixed(lens, m, s, d, e);
  }

  // ----- the canonical decoder reaches the code at the position

  lemma NextBit(bits: seq<bit>, pos: nat, j: nat)
    requires pos + j < |bits|
    ensures var N := LE(bits[pos..]); Rev(N, j + 1) == 2 * Rev(N, j) + bits[pos + j]
  {
    var N := LE(bits[pos..]);
    RevNext(N, j);
    LESplit(bits[pos..], j);
    assert bits[pos..][j..] == bits[pos + j..];
  }

  lemma NoShorter(lens: seq<nat>, t: Tab, X: nat, j: nat)
    requires Fixed(t) && t.g == MaxLen(lens) && X < Pow2(t.g)
    requires forall i :: 1 <= i < t.g ==> t.c[i] == Count(lens, i)
    requires 1 <= j < LenAt(t, X)
    ensures FindCode(lens, j, Top(t.g, X, j), |lens|).None?
  {
    Below(t, X, j, LenAt(t, X));
    NextCodeIsFirst(lens, t.c, j);
    HasCodeRange(lens, j, Top(t.g, X, j));
  }

  /** Until the code at the position is complete, the decoder has only collected its bits. */
  lemma {:induction false} DecodeTo(lens: seq<nat>, t: Tab, bits: seq<bit>, pos: nat, j: nat)
    requires Fixed(t) && t.g == MaxLen(lens)
    requires forall i :: 1 <= i < t.g ==> t.c[i] == Count(lens, i)
    requires pos + j <= |bits|
    requires var N := LE(bits[pos..]); Rev(N, t.g) < Pow2(t.g) && j < LenAt(t, Rev(N, t.g))
    ensures DecodeSym(lens, bits, pos) == DecodeFrom(lens, bits, pos + j, j, Rev(LE(bits[pos..]), j))
  {
    hide *;
    var N := LE(bits[pos..]);
    if j > 0 {
      DecodeTo(lens, t, bits, pos, j - 1);
      NextBit(bits, pos, j - 1);
      TopRev(N, t.g, j);
      NoShorter(lens, t, Rev(N, t.g), j);
      DecodeStep(lens, bits, pos + j - 1, j - 1, Rev(N, j - 1));
    } else {
      DecodeStart(lens, bits, pos, N);
    }
  }

  lemma DecodeStep(lens: seq<nat>, bits: seq<bit>, pos: nat, k: nat, code: nat)
    requires k < MaxLen(lens) && pos < |bits| && FindCode(lens, k + 1, 2 * code + bits[pos], |lens|).None?
    ensures DecodeFrom(lens, bits, pos, k, code) == DecodeFrom(lens, bits, pos + 1, k + 1, 2 * code + bits[pos])
  {
    hide FindCode, MaxLen;
  }

  lemma DecodeStart(lens: seq<nat>, bits: seq<bit>, pos: nat, N: nat)
    ensures DecodeSym(lens, bits, pos) == DecodeFrom(lens, bits, pos, 0, Rev(N, 0))
  {
    hide DecodeFrom;
  }

  /** The counts are those of the lengths, with dummy codes added to the longest length. */
  ghost predicate TabOf(lens: seq<nat>, t: Tab) {
    && Fixed(t) && t.g == MaxLen(lens) && t.syms == CodeOrder(lens, t.g)
    && (forall i :: 1 <= i < t.g ==> t.c[i] == Count(lens, i))
    && t.c[t.g] >= Count(lens, t.g)
  }

  lemma TabOfParts(lens: seq<nat>, t: Tab)
    requires TabOf(lens, t)
    ensures IsCounts(t.c) && 1 <= t.g <= BMAX && t.syms == CodeOrder(lens, t.g)
    ensures forall i :: 1 <= i < t.g ==> t.c[i] == Count(lens, i)
    ensures forall i :: 0 <= i <= BMAX ==> Counts(lens)[i] == Count(lens, i)
  {
    hide Count, CodeOrder;
  }

  lemma SymHasCode(lens: seq<nat>, k: nat, r: nat)
    requires r < Count(lens, k)
    ensures HasCode(lens, SymsOfLen(lens, k)[r], k, NextCode(lens, k) + r)
  {
    hide Count, NextCode, SymsOfLen;
  }

  lemma IndexIs(t: Tab, k: nat, code: nat)
    requires IsCounts(t.c) && 1 <= k <= BMAX
    ensures Index(t, k, code) == Off(t.c, k) + code - First(t.c, k)
  {
  }

  /** The symbol that Index points at has the code at the position. */
  lemma SymbolAt(lens: seq<nat>, t: Tab, k: nat, code: nat)
    requires TabOf(lens, t) && 1 <= k <= t.g && First(t.c, k) <= code < First(t.c, k) + Count(lens, k)
    ensures 0 <= Index(t, k, code) < |t.syms| && HasCode(lens, t.syms[Index(t, k, code)], k, code)
  {
    hide *;
    TabOfParts(lens, t);
    OffAgree(t.c, Counts(lens), k);
    CodeOrderAt(lens, t.g, k, code - First(t.c, k));
    NextCodeIsFirst(lens, t.c, k);
    SymHasCode(lens, k, code - First(t.c, k));
    IndexIs(t, k, code);
  }

  lemma NoSymbolAt(lens: seq<nat>, t: Tab, k: nat, code: nat)
    requires TabOf(lens, t) && 1 <= k <= t.g && First(t.c, k) + Count(lens, k) <= code < End(t.c, k)
    ensures k == t.g && |t.syms| <= Index(t, k, code) && !exists s :: HasCode(lens, s, k, code)
  {
    NextCodeIsFirst(lens, t.c, k);
    HasCodeRange(lens, k, code);
    OffAgree(t.c, Counts(lens), k);
    CodeOrderLen(lens, t.g);
  }

  /** What the canonical decoder returns, in terms of the code at the position. */
  lemma DecodeIs(lens: seq<nat>, t: Tab, bits: seq<bit>, pos: nat)
    requires TabOf(lens, t) && pos <= |bits|
    ensures var N := LE(bits[pos..]);
            var k := LenAt(t, Rev(N, t.g));
            var p := Index(t, k, Rev(N, k));
            && p >= 0
            && DecodeSym(lens, bits, pos) ==
               if pos + k > |bits| then Err(Truncated)
               else if p < |t.syms| then Ok(t.syms[p], pos + k)
               else Err(NoCode(lens))
  {
    hide *;
    var N := LE(bits[pos..]);
    CodeAt(lens, t, N);
    var k := LenAt(t, Rev(N, t.g));
    IndexNat(t, k, Rev(N, k));
    if pos + k > |bits| {
      DecodeTo(lens, t, bits, pos, |bits| - pos);
      DecodeEnd(lens, bits, |bits| - pos, Rev(N, |bits| - pos));
    } else {
      DecodeTo(lens, t, bits, pos, k - 1);
      NextBit(bits, pos, k - 1);
      LastBit(lens, t, bits, pos + k - 1, k, Rev(N, k), Rev(N, k - 1));
    }
  }

  lemma CodeAt(lens: seq<nat>, t: Tab, N: nat)
    requires TabOf(lens, t)
    ensures Fixed(t) && IsCounts(t.c) && t.g == MaxLen(lens) <= BMAX && Rev(N, t.g) < Pow2(t.g)
    ensures forall i :: 1 <= i < t.g ==> t.c[i] == Count(lens, i)
    ensures var k := LenAt(t, Rev(N, t.g)); 1 <= k <= t.g && First(t.c, k) <= Rev(N, k) < End(t.c, k)
  {
    RevBound(N, t.g);
    TopRev(N, t.g, LenAt(t, Rev(N, t.g)));
  }

  lemma IndexNat(t: Tab, k: nat, code: nat)
    requires Fixed(t) && 1 <= k <= t.g && First(t.c, k) <= code
    ensures Index(t, k, code) >= 0
  {
  }

  lemma DecodeEnd(lens: seq<nat>, bits: seq<bit>, k: nat, code: nat)
    requires k < MaxLen(lens)
    ensures DecodeFrom(lens, bits, |bits|, k, code) == Err(Truncated)
  {
  }

  lemma TabOfLength(lens: seq<nat>, t: Tab)
    requires TabOf(lens, t)
    ensures t.g == MaxLen(lens) && Fixed(t)
  {
  }

  lemma HasCodeIn(lens: seq<nat>, s: nat, k: nat, code: nat)
    requires HasCode(lens, s, k, code)
    ensures s < |lens|
  {
  }

  lemma OneBit(lens: seq<nat>, bits: seq<bit>, pos: nat, k: nat, code: nat, before: nat)
    requires 1 <= k <= MaxLen(lens) && pos < |bits| && code == 2 * before + bits[pos]
    ensures var found := FindCode(lens, k, code, |lens|);
      && (found.Some? ==> DecodeFrom(lens, bits, pos, k - 1, before) == Ok(found.value, pos + 1))
      && (found.None? && k == MaxLen(lens) ==> DecodeFrom(lens, bits, pos, k - 1, before) == Err(NoCode(lens)))
  {
    hide FindCode, MaxLen, NoCode;
  }

  lemma LastBit(lens: seq<nat>, t: Tab, bits: seq<bit>, pos: nat, k: nat, code: nat, before: nat)
    requires TabOf(lens, t) && pos < |bits| && 1 <= k <= t.g
    requires First(t.c, k) <= code < End(t.c, k) && code == 2 * before + bits[pos]
    ensures var p := Index(t, k, code);
            DecodeFrom(lens, bits, pos, k - 1, before) ==
            if p < |t.syms| then Ok(t.syms[p], pos + 1) else Err(NoCode(lens))
  {
    hide *;
    TabOfParts(lens, t);
    TabOfLength(lens, t);
    OneBit(lens, bits, pos, k, code, before);
    if code < First(t.c, k) + Count(lens, k) {
      SymbolAt(lens, t, k, code);
      HasCodeIn(lens, t.syms[Index(t, k, code)], k, code);
      var found := FindCode(lens, k, code, |lens|);
      HasCodeUnique(lens, found.value, t.syms[Index(t, k, code)], k, code);
    } else {
      NoSymbolAt(lens, t, k, code);
    }
  }

  // ----- the theorem

  /** Looking the stream up at pos finds the slot of the symbol that the canonical decoder
      reads there, after looking at no more bits than the longest code has. */
  ghost predicate DecodesAt(lens: seq<nat>, s: nat, d: seq<nat>, e: seq<nat>, pool: Pool, bl: nat, bits: seq<bit>, pos: nat)
    requires |d| == |e| && |lens| <= s + |d| && pool != [] && pos <= |bits|
  {
    var f := Lookup(pool, 0, bl, LE(bits[pos..]), 0);
    && f.need <= MaxLen(lens)
    && (bl == MaxLen(lens) ==>
         var j := Low(LE(bits[pos..]), bl);
         j < |pool[0]| && f.slot == pool[0][j] && f.used == 0)
    && match DecodeSym(lens, bits, pos)
       case Ok(sym, pos') => f.used < pos' - pos <= f.need && f.slot == SymSlot(s, d, e, sym, pos' - pos - f.used)
       case Err(Truncated) => pos + f.need > |bits|
       case Err(Unassigned) => f.slot == Garbage || (f.slot.Huft? && f.slot.e == 99)
       case Err(Invalid(_)) => f.slot.Huft? && f.slot.e == 99
  }

  ghost predicate Decodes(lens: seq<nat>, s: nat, d: seq<nat>, e: seq<nat>, pool: Pool, bl: nat) {
    && |d| == |e| && |lens| <= s + |d|
    && if pool == [] then 0 in lens && MaxLen(lens) == 0
       else forall bits: seq<bit>, pos: nat :: pos <= |bits| ==> DecodesAt(lens, s, d, e, pool, bl, bits, pos)
  }

  lemma NoZero(lens: seq<nat>)
    requires 0 !in lens && MaxLen(lens) <= BMAX
    ensures |CodeOrder(lens, MaxLen(lens))| == |lens|
  {
    OffIsTotal(lens, MaxLen(lens));
    CodeOrderLen(lens, MaxLen(lens));
    if Count(lens, 0) > 0 {
      var s := CountIndex(lens, 0, 0);
    }
  }

  /** The first table holds the position of every stream. */
  lemma RootHolds(t: Tab, i: Info, N: nat)
    requires Fixed(t) && i.w == 0 && i.q == 0
    ensures Holds(t, i, Rev(N, t.g))
  {
    RevBound(N, t.g);
    LowSmall(Rev(N, t.g), t.g);
  }

  /** The slot found for the stream is what the canonical decoder says. */
  lemma FoundMeans(lens: seq<nat>, t: Tab, bits: seq<bit>, pos: nat, f: Found)
    requires TabOf(lens, t) && pos <= |bits| && t.n == |lens| && |lens| <= t.s + |t.d|
    requires var N := LE(bits[pos..]); var k := LenAt(t, Rev(N, t.g));
             f.used < k <= f.need && LeafAt(t, f.slot, k, Rev(N, k), f.used)
    ensures match DecodeSym(lens, bits, pos)
            case Ok(sym, pos') => f.used < pos' - pos <= f.need && f.slot == SymSlot(t.s, t.d, t.e, sym, pos' - pos - f.used)
            case Err(Truncated) => pos + f.need > |bits|
            case Err(Unassigned) => f.slot == Garbage || (f.slot.Huft? && f.slot.e == 99)
            case Err(Invalid(_)) => f.slot.Huft? && f.slot.e == 99
  {
    hide TabOf, DecodeSym, Rev, LE, LenAt, Index, SymSlot, Count, First, End, CodeOrder, Pow2, Shl, Top;
    DecodeIs(lens, t, bits, pos);
    TabOfParts(lens, t);
    TabOfLength(lens, t);
    if 0 !in lens {
      NoZero(lens);
    }
  }

  lemma {:induction false} KraftAtLeast(lens: seq<nat>, g: nat)
    requires forall i :: 0 <= i < |lens| ==> 1 <= lens[i] <= g
    ensures KraftSum(lens, g) >= |lens|
  {
    if lens == [] {
    } else {
      KraftAtLeast(lens[..|lens| - 1], g);
    }
  }

  /** A complete set of codes leaves no bit pattern without a symbol. */
  lemma CompleteAssigns(lens: seq<nat>, m: nat, s: nat, d: seq<nat>, e: seq<nat>, bits: seq<bit>, pos: nat)
    requires Args(lens, s, d, e) && Usable(lens) && KraftSum(lens, MaxLen(lens)) == Pow2(MaxLen(lens)) && pos <= |bits|
    ensures var r := DecodeSym(lens, bits, pos); r.Ok? || r == Err(Truncated)
  {
    var t := CodeTab(lens, m, s, d, e);
    var N := LE(bits[pos..]);
    CodeTabOf(lens, m, s, d, e);
    DecodeIs(lens, t, bits, pos);
    CodeAt(lens, t, N);
    var k := LenAt(t, Rev(N, t.g));
    SymbolAt(lens, t, k, Rev(N, k));
  }

  lemma TablesDecode(lens: seq<nat>, m: nat, s: nat, d: seq<nat>, e: seq<nat>, pool: Pool, info: seq<Info>, bits: seq<bit>, pos: nat)
    requires Args(lens, s, d, e) && Usable(lens) && pos <= |bits|
    requires var t := CodeTab(lens, m, s, d, e);
             && Fixed(t) && TablesOk(t, pool, info) && FilledTo(t, pool, info, Pow2(t.g)) && NoWide(info)
             && pool != [] && info[0].w == 0 && info[0].q == 0 && info[0].nb == t.l
    ensures DecodesAt(lens, s, d, e, pool, LookupBits(lens, m), bits, pos)
  {
    hide Lookup, FilledTo, LenAt, LeafAt, Index, Holds, Fixed, LookupBits, DecodeSym;
    var t := CodeTab(lens, m, s, d, e);
    var N := LE(bits[pos..]);
    RootHolds(t, info[0], N);
    LookupCorrect(t, pool, info, 0, N);
    if LookupBits(lens, m) == MaxLen(lens) {
      LookupDirect(t, pool, info, N);
    }
    CodeTabOf(lens, m, s, d, e);
    FoundMeans(lens, t, bits, pos, Lookup(pool, 0, t.l, N, 0));
  }

  // ----- encoding and decoding

  /** The k bits of a code, most significant first (section 3.1.1 of RFC 1951). */
  function CodeBits(code: nat, k: nat): (s: seq<bit>)
    ensures |s| == k
  {
    if k == 0 then [] else CodeBits(code / 2, k - 1) + [code % 2]
  }

  lemma NoneRead(N: nat)
    ensures Rev(N, 0) == 0
  {
  }

  lemma LastFirst(b: bit, rest: seq<bit>)
    ensures LE([b] + rest) % 2 == b
  {
    assert ([b] + rest)[0] == b;
  }

  lemma {:induction false} RevCodeBits(code: nat, k: nat, rest: seq<bit>)
    ensures Rev(LE(CodeBits(code, k) + rest), k) == Low(code, k)
  {
    hide LE, Rev;
    if k > 0 {
      var a := CodeBits(code / 2, k - 1);
      var last: seq<bit> := [code % 2];
      var s := a + (last + rest);
      assert CodeBits(code, k) + rest == s;
      RevCodeBits(code / 2, k - 1, last + rest);
      RevNext(LE(s), k - 1);
      LESplit(s, k - 1);
      assert s[k - 1..] == last + rest;
      LastFirst(code % 2, rest);
    } else {
      NoneRead(LE(CodeBits(code, 0) + rest));
    }
  }

  lemma OwnTable(lens: seq<nat>, s: nat)
    requires (forall i :: 0 <= i < |lens| ==> lens[i] <= BMAX) && Usable(lens)
    requires s < |lens| && lens[s] > 0
    ensures Args(lens, |lens|, [], [])
    ensures var t := CodeTab(lens, 1, |lens|, [], []); var k := lens[s];
      && TabOf(lens, t) && Fixed(t) && 1 <= k <= t.g && End(t.c, t.g) <= Pow2(t.g)
      && First(t.c, k) + Count(lens, k) <= End(t.c, k)
      && HasCode(lens, s, k, Code(lens, s))
  {
    hide Code, Pow2, CodeOrder, KraftSum, Count;
    CodeTabOf(lens, 1, |lens|, [], []);
  }

  /** The code of a symbol, followed by anything, decodes to that symbol, and exactly the bits
      of the code are used. */
  lemma RoundTrip(lens: seq<nat>, s: nat, rest: seq<bit>)
    requires (forall i :: 0 <= i < |lens| ==> lens[i] <= BMAX) && Usable(lens)
    requires s < |lens| && lens[s] > 0
    ensures DecodeSym(lens, CodeBits(Code(lens, s), lens[s]) + rest, 0) == Ok(s, lens[s])
  {
    hide *;
    OwnTable(lens, s);
    var t := CodeTab(lens, 1, |lens|, [], []);
    var k, code := lens[s], Code(lens, s);
    TabOfParts(lens, t);
    var bits := CodeBits(code, k) + rest;
    assert bits[0..] == bits;
    HasCodeRange(lens, k, code);
    NextCodeIsFirst(lens, t.c, k);
    EndGrows(t.c, k, t.g);
    LowSmall(code, k);
    RevCodeBits(code, k, rest);
    PositionHasCode(t, LE(bits), k, code);
    DecodeIs(lens, t, bits, 0);
    SymbolAt(lens, t, k, code);
    HasCodeUnique(lens, s, t.syms[Index(t, k, code)], k, code);
  }

  lemma PositionHasCode(t: Tab, N: nat, k: nat, code: nat)
    requires Fixed(t) && 1 <= k <= t.g && Rev(N, k) == code && First(t.c, k) <= code < End(t.c, k)
    ensures LenAt(t, Rev(N, t.g)) == k
  {
    TopRev(N, t.g, k);
    LenIs(t, Rev(N, t.g), k);
  }
}
