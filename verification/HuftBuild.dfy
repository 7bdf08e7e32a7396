// huft_build of boot/zBoot/inflate.c: from code lengths to linked lookup tables. Each loop of the C
// function is a method.
module HuftBuild {
  import opened Bits
  import opened Canonical
  import opened HuftTable
  import opened TableBuilder
  import opened HuftCode
  import opened HuftLimit

  const N_MAX: nat := 288

  /** A part of v[] that was never written. */
  const UNSET: int := -1

  lemma ShlNone(x: nat)
    ensures Shl(x, 0) == x
  {
  }

  lemma RevNone(x: nat, y: nat)
    ensures Rev(x, 0) == 0 && Rev(y, 0) == 0
  {
  }

  /** "Backwards increment": adds one to a k-bit code whose first bit is the lowest.
      The mask j of the source is 1 << n here, and n == -1 when j has been shifted out. */
  method BackwardsIncrement(i0: nat, k: nat, ghost code: nat) returns (i: nat)
    requires k > 0 && i0 == Rev(code, k)
    ensures i == Rev(code + 1, k)
  {
    hide *;
    i := i0;
    var n: int := k - 1;
    ghost var high := code;
    ShlNone(code + 1);
    while n >= 0 && Shr(i, n) % 2 == 1
      invariant -1 <= n < k
      invariant i == Rev(high, n + 1)
      invariant code + 1 == Shl(high + 1, k - 1 - n)
      decreases n
    {
      TopBit(high, n);
      Carry(high, k - 1 - n);
      i := i - Pow2(n);
      high := high / 2;
      n := n - 1;
    }
    RevShl(high + 1, n + 1, k - 1 - n);
    if n >= 0 {
      TopBit(high, n);
      i := i + Pow2(n);
    } else {
      RevNone(high, high + 1);
    }
  }

  lemma Carry(high: nat, m: nat)
    requires high % 2 == 1
    ensures Shl(high + 1, m) == Shl(high / 2 + 1, m + 1)
  {
    ShlInner(high / 2 + 1, m + 1);
  }

  lemma TopBit(high: nat, n: nat)
    ensures Shr(Rev(high, n + 1), n) == high % 2
    ensures high % 2 == 1 ==> Rev(high, n + 1) == Pow2(n) + Rev(high / 2, n)
    ensures high % 2 == 0 ==> Rev(high + 1, n + 1) == Pow2(n) + Rev(high, n + 1)
  {
    RevBound(high / 2, n);
    SplitUnique(Rev(high, n + 1), n, high % 2, Rev(high / 2, n));
    ShlZero(n);
  }

  /** Tries smaller tables up to z bits. The f patterns are those that the codes of length
      at most k leave open under prefix q. When k - w is z already, the result is z + 1. */
  method SmallerTable(c: seq<nat>, w: nat, k: nat, z: nat, f0: nat, ghost q: nat) returns (j: nat)
    requires IsCounts(c) && w < k <= BMAX && w + z <= BMAX
    requires 0 < f0 && f0 + End(c, k) == Shl(q + 1, k - w)
    ensures if k - w >= z then j == k - w + 1
            else k - w < j <= z && (j == z || Shl(q + 1, j) <= End(c, w + j))
  {
    var f := f0;
    var xp := k;
    j := k - w + 1;
    while j < z
      invariant k <= xp == w + j - 1 && (j <= z || xp == k)
      invariant f > 0 && f + End(c, xp) == Shl(q + 1, j - 1)
    {
      xp := xp + 1;
      f := 2 * f;
      if f <= c[xp] {
        break;
      }
      f := f - c[xp];
      j := j + 1;
    }
  }

  /** The size of the table to open for the current code, of which a + 1 are left with
      length k: the smallest that holds all codes with the table's prefix q, at most l bits
      unless that prefix is wide. */
  method TableBits(c: seq<nat>, g: nat, l: nat, w: nat, k: nat, a: nat, ghost q: nat) returns (j: nat)
    requires IsCounts(c) && 1 <= l <= g <= BMAX && w < k <= g
    requires End(c, k) == Shl(q, k - w) + a + 1
    requires Shl(q + 1, g - w) <= End(c, g)
    ensures k - w <= j && w + (if j <= l then j else l) <= g
    ensures j < l ==> Shl(q + 1, j) <= End(c, w + j)
    ensures j > l <==> k > w + l || (k == w + l < g && End(c, k) < Shl(q + 1, l))
    ensures j <= g + 1
  {
    j := k - w;
    var z := if g - w > l then l else g - w;
    var f := Pow2(j);
    ShlPlus(q, 1, j);
    if f > a + 1 {
      j := SmallerTable(c, w, k, z, f - (a + 1), q);
    }
  }

  class Builder {
    const t: Tab
    const v: seq<int>
    var u: seq<nat>
    var x: seq<nat>
    var pool: Pool
    var h: int
    var w: int
    var i: nat
    var p: nat
    ghost var info: seq<Info>

    ghost predicate Static() {
      && Fixed(t)
      && |v| >= t.n
      && (forall j :: 0 <= j < |t.syms| ==> v[j] == t.syms[j])
      && (forall j :: |t.syms| <= j < t.n ==> v[j] == UNSET)
    }

    /** The tables are right for all codes before position F. */
    ghost predicate At(F: nat)
      reads this
    {
      Static() && Inv(t, pool, info, u, x, h, w, F)
    }

    constructor (t: Tab, v: seq<int>)
      requires Fixed(t) && |v| >= t.n
      requires forall j :: 0 <= j < |t.syms| ==> v[j] == t.syms[j]
      requires forall j :: |t.syms| <= j < t.n ==> v[j] == UNSET
      ensures At(0) && i == 0 && p == 0 && h == -1 && this.t == t
    {
      this.t := t;
      this.v := v;
      u := seq(BMAX, _ => 0);
      x := seq(BMAX + 1, _ => 0);
      pool := [];
      info := [];
      h := -1;
      w := -(t.l as int);
      i := 0;
      p := 0;
    }

    /** Opens the next table for the code at F, and links it to the last one if there is one. */
    method OpenTable(k: nat, a: nat, ghost F: nat, ghost code: nat)
      requires Inv(t, pool, info, u, x, h, w, F) && AtCode(t, F, k, code) && i == Rev(code, k) && k > w + t.l
      requires IsCounts(t.c) && k <= BMAX && code + a + 1 == End(t.c, k)
      modifies this
      ensures Inv(t, pool, info, u, x, h, w, F)
      ensures w == old(w) + t.l && i == old(i) && p == old(p) && 0 <= w < k && h >= 0
    {
      hide *;
      ghost var pool0, info0, u0, x0, h0, w0 := pool, info, u, x, h, w;
      StateFacts(t, pool, info, u, x, h, w, F);
      PrefixStart(t, pool, info, u, x, h, w, F, k, code);
      ghost var q := Top(t.g, F, w + t.l);
      h := h + 1;
      w := w + t.l;
      var j := TableBits(t.c, t.g, t.l, w, k, a, q);
      var table := |pool|;
      pool := pool + [NewSlots(j)];
      u := u[h := table];
      if h > 0 {
        x := x[h := i];
        LinkIndex(t, pool0, info0, u0, x0, h0, w0, F, k, code);
        var last := u[h - 1];
        pool := pool[last := pool[last][Shr(i, w - t.l) := Huft(16 + j, t.l, Next(table))]];
      }
      OpenStep(t, pool0, info0, u0, x0, h0, w0, F, k, code, q, j, pool);
      info := info + [NewInfo(t, w, q, j)];
    }
  
    /** All codes of length k. */
    method CodesOfLength(k: nat, ghost F: nat)
      requires Static() && Inv(t, pool, info, u, x, h, w, F) && 1 <= k <= t.g
      requires Reached(t, p, i, k, First(t.c, k), F)
      modifies this
      ensures Static() && Inv(t, pool, info, u, x, h, w, Shl(End(t.c, k), t.g - k))
      ensures Reached(t, p, i, k, End(t.c, k), Shl(End(t.c, k), t.g - k))
    {
      hide *;
      StateFacts(t, pool, info, u, x, h, w, F);
      LengthFacts(t, k);
      var a := t.c[k];
      ghost var code, F1 := First(t.c, k), F;
      while a != 0
        invariant Static() && Inv(t, pool, info, u, x, h, w, F1)
        invariant code + a == End(t.c, k) && First(t.c, k) <= code && Reached(t, p, i, k, code, F1)
      {
        a := a - 1;
        ReachedCode(t, p, i, k, code, F1);
        ReachedFacts(t, p, i, k, code, F1);
        while k > w + t.l
          invariant Static() && Inv(t, pool, info, u, x, h, w, F1)
          invariant i == Rev(code, k) && CodeIndex(t, p, k, code)
          decreases k - w
        {
          OpenTable(k, a, F1, code);
        }
        StateFacts(t, pool, info, u, x, h, w, F1);
        TableOpen(t, pool, info, u, x, h, w, F1, k, code);
        StoreCode(k, F1, code);
        code, F1 := code + 1, Shl(code + 1, t.g - k);
        ReachedNext(t, p, i, k, code, F1);
      }
      ReachedFacts(t, p, i, k, code, F1);
    }

    /** Goes through the bit lengths, from kmin, the shortest there is. */
    method Run(kmin: nat)
      requires Static() && Inv(t, pool, info, u, x, h, w, 0) && i == 0 && p == 0
      requires 1 <= kmin <= t.g && (forall j :: 1 <= j < kmin ==> t.c[j] == 0)
      modifies this
      ensures Static() && Inv(t, pool, info, u, x, h, w, Pow2(t.g))
    {
      hide *;
      StateFacts(t, pool, info, u, x, h, w, 0);
      RunStart(t, kmin);
      var k := kmin;
      while k <= t.g
        invariant Static() && 1 <= k <= t.g + 1
        invariant Inv(t, pool, info, u, x, h, w, Shl(End(t.c, k - 1), t.g - k + 1))
        invariant i == Rev(End(t.c, k - 1), k - 1) && p == if Off(t.c, k) < t.n then Off(t.c, k) else t.n
      {
        ReachedLength(t, p, i, k);
        CodesOfLength(k, Shl(End(t.c, k - 1), t.g - k + 1));
        LengthDone(t, p, i, k);
        k := k + 1;
      }
      RunEnd(t);
    }

    /** The table entry r for the p-th code, of which the last b bits are looked up. */
    method NextEntry(b: nat) returns (r: Slot)
      requires Static()
      modifies this`p
      ensures r == LeafSlot(t, old(p), b)
      ensures p == if old(p) < t.n then old(p) + 1 else old(p)
    {
      if p >= t.n {
        r := Huft(99, b, Num(0));  // out of values: invalid code
      } else {
        var sym := v[p];
        p := p + 1;
        if sym == UNSET {
          r := Garbage;
        } else if sym < t.s {
          r := Huft(if sym < 256 then 16 else 15, b, Num(sym));
        } else {
          r := Huft(t.e[sym - t.s], b, Num(t.d[sym - t.s]));
        }
      }
    }

    /** Stores the entry for the code at F and steps to the next code. */
    method StoreCode(k: nat, ghost F: nat, ghost code: nat)
      requires Static() && Inv(t, pool, info, u, x, h, w, F) && AtCode(t, F, k, code) && i == Rev(code, k)
      requires h >= 0 && 0 <= w < k <= w + t.l && CodeIndex(t, p, k, code)
      modifies this
      ensures Static() && k <= t.g && Inv(t, pool, info, u, x, h, w, Shl(code + 1, t.g - k))
      ensures i == Rev(code + 1, k) && h >= 0 && CodeIndex(t, p, k, code + 1)
    {
      hide *;
      StateFacts(t, pool, info, u, x, h, w, F);
      AtCodeParts(t, F, k, code);
      IndexFacts(t, p, F, k, code);
      var r := NextEntry(k - w);
      LeafIs(t, r, k, code, w);
      Step(k, F, code, r);
    }

    method Step(k: nat, ghost F: nat, ghost code: nat, r: Slot)
      requires Inv(t, pool, info, u, x, h, w, F) && AtCode(t, F, k, code) && i == Rev(code, k)
      requires Fixed(t) && h >= 0 && 0 <= w < k <= w + t.l && k <= t.g && LeafAt(t, r, k, code, w)
      modifies this`pool, this`i, this`h, this`w
      ensures k <= t.g && Inv(t, pool, info, u, x, h, w, Shl(code + 1, t.g - k))
      ensures i == Rev(code + 1, k) && h >= 0
    {
      hide *;
      ghost var pool0 := pool;
      StateFacts(t, pool, info, u, x, h, w, F);
      RevPartsOf(code, k, w);
      var q := u[h];
      var slots := FillSlots(pool[q], Shr(i, w), k - w, r);
      pool := pool[q := slots];
      StartLeaving(t, pool0, info, u, x, h, w, F, k, code, r, pool);
      i := BackwardsIncrement(i, k, code);
      ghost var F' := Shl(code + 1, t.g - k);
      LeavingFacts(t, pool, info, u, x, h, w, F, F');
      while Low(i, w) != x[h]
        invariant Leaving(t, pool, info, u, x, h, w, F, F')
        invariant 0 <= h < |x| && 0 <= w < k && i == Rev(code + 1, k)
        decreases h
      {
        Pop(t, pool, info, u, x, h, w, F, F', k, code + 1);
        h := h - 1;
        w := w - t.l;
        LeavingFacts(t, pool, info, u, x, h, w, F, F');
      }
      Arrive(t, pool, info, u, x, h, w, F, F', k, code + 1);
    }
  }

  /** The codes of length k that are left start at position F, in code and in the value list. */
  ghost predicate Reached(t: Tab, p: nat, i: nat, k: nat, code: nat, F: nat) {
    && Fixed(t) && 1 <= k <= t.g
    && F == Shl(code, t.g - k) && i == Rev(code, k) && CodeIndex(t, p, k, code)
  }

  lemma ReachedLength(t: Tab, p: nat, i: nat, k: nat)
    requires Fixed(t) && 1 <= k <= t.g
    requires i == Rev(End(t.c, k - 1), k - 1) && p == if Off(t.c, k) < t.n then Off(t.c, k) else t.n
    ensures Reached(t, p, i, k, First(t.c, k), Shl(End(t.c, k - 1), t.g - k + 1))
  {
    var e := End(t.c, k - 1);
    ShlInner(e, t.g - k + 1);
    RevShl(e, k - 1, 1);
    assert Shl(e, 1) == 2 * e;
  }

  lemma RunStart(t: Tab, kmin: nat)
    requires Fixed(t) && 1 <= kmin <= t.g && (forall j :: 1 <= j < kmin ==> t.c[j] == 0)
    ensures kmin <= BMAX && Shl(End(t.c, kmin - 1), t.g - kmin + 1) == 0
    ensures Rev(End(t.c, kmin - 1), kmin - 1) == 0 && Off(t.c, kmin) == 0
  {
    EndZero(t.c, kmin - 1);
    OffZero(t.c, kmin);
    ShlZero(t.g - kmin + 1);
    ShlZero(kmin - 1);
    RevShl(0, 0, kmin - 1);
  }

  lemma LengthDone(t: Tab, p: nat, i: nat, k: nat)
    requires Fixed(t) && 1 <= k <= t.g
    requires Reached(t, p, i, k, End(t.c, k), Shl(End(t.c, k), t.g - k))
    ensures i == Rev(End(t.c, k), k) && p == if Off(t.c, k + 1) < t.n then Off(t.c, k + 1) else t.n
  {
  }

  lemma RunEnd(t: Tab)
    requires Fixed(t)
    ensures Shl(End(t.c, t.g), 0) == Pow2(t.g)
  {
  }

  lemma LengthFacts(t: Tab, k: nat)
    requires Fixed(t) && 1 <= k <= t.g
    ensures IsCounts(t.c) && k < |t.c| && k <= BMAX && First(t.c, k) + t.c[k] == End(t.c, k)
  {
  }

  lemma ReachedFacts(t: Tab, p: nat, i: nat, k: nat, code: nat, F: nat)
    requires Reached(t, p, i, k, code, F)
    ensures k <= t.g && F == Shl(code, t.g - k) && i == Rev(code, k) && CodeIndex(t, p, k, code)
  {
  }

  lemma ReachedNext(t: Tab, p: nat, i: nat, k: nat, code: nat, F: nat)
    requires Fixed(t) && 1 <= k <= t.g && F == Shl(code, t.g - k) && i == Rev(code, k) && CodeIndex(t, p, k, code)
    ensures Reached(t, p, i, k, code, F)
  {
  }

  /** Once no table needs to be opened, the one on top is open and shallower than the code. */
  lemma TableOpen(t: Tab, pool: Pool, info: seq<Info>, u: seq<nat>, x: seq<nat>, h: int, w: int, F: nat, k: nat, code: nat)
    requires Inv(t, pool, info, u, x, h, w, F) && AtCode(t, F, k, code) && k <= w + t.l
    ensures h >= 0 && 0 <= w < k
  {
  }

  lemma ReachedCode(t: Tab, p: nat, i: nat, k: nat, code: nat, F: nat)
    requires Reached(t, p, i, k, code, F) && First(t.c, k) <= code < End(t.c, k)
    ensures AtCode(t, F, k, code)
  {
    EndGrows(t.c, k, t.g);
    CodePosition(t, k, code, F);
    LenIs(t, F, k);
  }

  /** Stores r in the slots first, first + f, first + 2f, ..., where f == 1 << m. */
  method FillSlots(slots0: seq<Slot>, first: nat, m: nat, r: Slot) returns (slots: seq<Slot>)
    requires first < Pow2(m)
    ensures Filled(slots0, slots, r, first, m)
  {
    slots := slots0;
    var j := first;
    LowSmall(first, m);
    forall a | 0 <= a < first
      ensures Low(a, m) != first
    {
      LowSmall(a, m);
    }
    while j < |slots|
      invariant |slots| == |slots0| && Low(j, m) == first
      invariant forall a :: 0 <= a < |slots| ==> slots[a] == if a < j && Low(a, m) == first then r else slots0[a]
    {
      slots := slots[j := r];
      NextHit(j, m);
      j := j + Pow2(m);
    }
  }

  lemma NextHit(j: nat, m: nat)
    ensures Low(j + Pow2(m), m) == Low(j, m)
    ensures forall a :: j < a < j + Pow2(m) ==> Low(a, m) != Low(j, m)
  {
    Split(j, m);
    ShlPlus(Shr(j, m), 1, m);
    SplitUnique(j + Pow2(m), m, Shr(j, m) + 1, Low(j, m));
    forall a | j < a < j + Pow2(m)
      ensures Low(a, m) != Low(j, m)
    {
      Split(a, m);
      if Shr(a, m) > Shr(j, m) {
        ShlMono(Shr(j, m) + 1, Shr(a, m), m);
      } else {
        ShlMono(Shr(a, m), Shr(j, m), m);
      }
    }
  }

  /** The walk over v[] has reached the code; it stops at the end of v[]. */
  ghost predicate CodeIndex(t: Tab, p: nat, k: nat, code: nat) {
    IsCounts(t.c) && 1 <= k <= BMAX && p == if Index(t, k, code) < t.n then Index(t, k, code) else t.n
  }

  lemma LeafIs(t: Tab, r: Slot, k: nat, code: nat, w: nat)
    requires Fixed(t) && w < k <= t.g && Index(t, k, code) >= 0
    ensures r == LeafSlot(t, Index(t, k, code), k - w) ==> LeafAt(t, r, k, code, w)
  {
  }

  lemma IndexFacts(t: Tab, p: nat, F: nat, k: nat, code: nat)
    requires Fixed(t) && AtCode(t, F, k, code) && CodeIndex(t, p, k, code)
    ensures Index(t, k, code) >= 0
    ensures forall b :: LeafSlot(t, p, b) == LeafSlot(t, Index(t, k, code), b)
    ensures CodeIndex(t, if p < t.n then p + 1 else p, k, code + 1)
  {
  }

  lemma RevPartsOf(code: nat, k: nat, w: nat)
    requires w <= k
    ensures Shr(Rev(code, k), w) == Rev(code, k - w) < Pow2(k - w)
  {
    RevParts(code, k - w, w);
    RevBound(code, k - w);
  }

  lemma LeavingFacts(t: Tab, pool: Pool, info: seq<Info>, u: seq<nat>, x: seq<nat>, h: int, w: int, F: nat, F': nat)
    requires Leaving(t, pool, info, u, x, h, w, F, F')
    ensures 0 <= h < |x| && 0 <= w < t.g
  {
  }

  lemma OpenStep(t: Tab, pool: Pool, info: seq<Info>, u: seq<nat>, x: seq<nat>, h: int, w: int, F: nat, k: nat, code: nat, q: nat, j: nat, pool': Pool)
    requires Inv(t, pool, info, u, x, h, w, F) && AtCode(t, F, k, code) && k > w + t.l
    requires 0 <= w + t.l <= t.g && q == Top(t.g, F, w + t.l) && h + 1 < BMAX && IsCounts(t.c) && k <= t.g <= BMAX
    requires k - (w + t.l) <= j && w + t.l + (if j <= t.l then j else t.l) <= t.g
    requires j < t.l ==> Shl(q + 1, j) <= End(t.c, w + t.l + j)
    requires j <= t.g + 1
    requires j > t.l <==> k > w + t.l + t.l || (k == w + t.l + t.l < t.g && End(t.c, k) < Shl(q + 1, t.l))
    requires h >= 0 ==> u[h] < |pool| && Shr(Rev(code, k), w) < |pool[u[h]]|
    requires var grown := pool + [NewSlots(j)];
             pool' == if h == -1 then grown
                      else grown[u[h] := grown[u[h]][Shr(Rev(code, k), w) := Huft(16 + j, t.l, Next(|pool|))]]
    ensures Inv(t, pool', info + [NewInfo(t, w + t.l, q, j)], u[h + 1 := |pool|],
                if h == -1 then x else x[h + 1 := Rev(code, k)], h + 1, w + t.l, F)
  {
    hide *;
    StateFacts(t, pool, info, u, x, h, w, F);
    CodeFacts(t, F, k, code);
    PrefixStart(t, pool, info, u, x, h, w, F, k, code);
    PrefixSize(t, w + t.l, q, k, F, j);
    if h == -1 {
      OpenInvFirst(t, pool, info, u, x, w, F, j, pool');
    } else {
      LinkIndex(t, pool, info, u, x, h, w, F, k, code);
      OpenInvBelow(t, pool, info, u, x, h, w, F, w + t.l, q, j, pool');
    }
  }

  /** Array bounds and other plain facts that the invariant holds. */
  lemma StateFacts(t: Tab, pool: Pool, info: seq<Info>, u: seq<nat>, x: seq<nat>, h: int, w: int, F: nat)
    requires Inv(t, pool, info, u, x, h, w, F)
    ensures Fixed(t) && IsCounts(t.c) && 1 <= t.l <= t.g <= BMAX && End(t.c, t.g) == Pow2(t.g)
    ensures |info| == |pool| && |u| == BMAX && |x| == BMAX + 1 && x[0] == 0 && -1 <= h < BMAX && 0 <= w + t.l
    ensures if h >= 0 then u[h] < |pool| && h <= w == info[u[h]].w < t.g else w + t.l == 0 && pool == []
    ensures h >= 0 ==> |pool[u[h]]| == Pow2(info[u[h]].nb + info[u[h]].over)
  {
  }

  /** The slot that gets the link is the one that the position selects. */
  lemma LinkIndex(t: Tab, pool: Pool, info: seq<Info>, u: seq<nat>, x: seq<nat>, h: int, w: int, F: nat, k: nat, code: nat)
    requires Inv(t, pool, info, u, x, h, w, F) && h >= 0 && AtCode(t, F, k, code) && k > w + t.l
    ensures w >= 0 && info[u[h]].nb == t.l
    ensures IndexOf(t, info[u[h]], F) == Shr(Rev(code, k), w) < |pool[u[h]]|
  {
    hide Inv, LenAt;
    StateFacts(t, pool, info, u, x, h, w, F);
    PrefixStart(t, pool, info, u, x, h, w, F, k, code);
    var q := Top(t.g, F, w + t.l);
    TopIsFull(t, pool, info, u, x, h, w, F);
    RevParts(q, t.l, w);
    RevBound(q, t.l);
    Pow2Mono(t.l, t.l + info[u[h]].over);
  }

  lemma CodeFacts(t: Tab, F: nat, k: nat, code: nat)
    requires Fixed(t) && AtCode(t, F, k, code)
    ensures F < Pow2(t.g) && k == LenAt(t, F)
  {
  }

  lemma TopIsFull(t: Tab, pool: Pool, info: seq<Info>, u: seq<nat>, x: seq<nat>, h: int, w: int, F: nat)
    requires Inv(t, pool, info, u, x, h, w, F) && h >= 0 && F < Pow2(t.g) && LenAt(t, F) > w + t.l
    ensures info[u[h]].nb == t.l
  {
    TopFull(t, pool, info, u[h], F);
  }

  /** Facts about the prefix of the table to be opened for the code at F. */
  lemma PrefixStart(t: Tab, pool: Pool, info: seq<Info>, u: seq<nat>, x: seq<nat>, h: int, w: int, F: nat, k: nat, code: nat)
    requires Inv(t, pool, info, u, x, h, w, F) && AtCode(t, F, k, code) && k > w + t.l
    ensures h + 1 < BMAX && 0 <= w + t.l && k <= t.g && (h >= 0 ==> Holds(t, info[u[h]], F))
    ensures var d := w + t.l; var q := Top(t.g, F, d);
            && F == Shl(q, t.g - d) && code == Shl(q, k - d) && q < Pow2(d)
            && Shl(q + 1, t.g - d) <= End(t.c, t.g)
            && Rev(code, k) == Rev(q, d)
  {
    hide Inv;
    StateFacts(t, pool, info, u, x, h, w, F);
    Aligned(t, pool, info, u, x, h, w, F);
    PrefixFacts(t, w + t.l, F, k, code);
    TopHolds(t, pool, info, u, x, h, w, F);
  }

  lemma TopHolds(t: Tab, pool: Pool, info: seq<Info>, u: seq<nat>, x: seq<nat>, h: int, w: int, F: nat)
    requires Inv(t, pool, info, u, x, h, w, F) && F < Pow2(t.g)
    ensures h >= 0 ==> Holds(t, info[u[h]], F)
  {
  }

  lemma AtCodeParts(t: Tab, F: nat, k: nat, code: nat)
    requires Fixed(t) && AtCode(t, F, k, code)
    ensures 1 <= k <= t.g <= BMAX && IsCounts(t.c) && F < Pow2(t.g) && code == Top(t.g, F, k) && F == Shl(code, t.g - k)
    ensures End(t.c, t.g) == Pow2(t.g)
  {
    hide End, Pow2, Shl, Top;
  }

  lemma PrefixFacts(t: Tab, d: nat, F: nat, k: nat, code: nat)
    requires Fixed(t) && AtCode(t, F, k, code) && d < k && F == Shl(Top(t.g, F, d), t.g - d)
    ensures var q := Top(t.g, F, d);
            && code == Shl(q, k - d) && q < Pow2(d)
            && Shl(q + 1, t.g - d) <= End(t.c, t.g)
            && Rev(code, k) == Rev(q, d)
  {
    hide *;
    AtCodeParts(t, F, k, code);
    var q := Top(t.g, F, d);
    FirstReversed(t, d, k, F);
    ShlAdd(q, k - d, t.g - k);
    assert (k - d) + (t.g - k) == t.g - d;
    CodePosition(t, k, Shl(q, k - d), F);
    TopBound(t.g, F, d);
    LastPrefix(t.g, d, q);
  }

  lemma LastPrefix(g: nat, d: nat, q: nat)
    requires d <= g && q < Pow2(d)
    ensures Shl(q + 1, g - d) <= Pow2(g)
  {
    ShlMono(q + 1, Pow2(d), g - d);
    ShlAdd(1, d, g - d);
  }

  /** The size that TableBits finds is good for the prefix. */
  lemma PrefixSize(t: Tab, d: nat, q: nat, k: nat, F: nat, j: nat)
    requires Fixed(t) && F < Pow2(t.g) && k == LenAt(t, F) && d < k && F == Shl(q, t.g - d)
    requires k - d <= j && d + (if j <= t.l then j else t.l) <= t.g
    requires j < t.l ==> Shl(q + 1, j) <= End(t.c, d + j)
    requires j > t.l <==> k > d + t.l || (k == d + t.l < t.g && End(t.c, k) < Shl(q + 1, t.l))
    requires j <= t.g + 1
    ensures GoodSize(t, d, q, j)
  {
    if d + t.l < t.g {
      WideIff(t, d, q, k, F);
    }
  }

  lemma WideMeans(t: Tab, w: nat, q: nat)
    requires IsCounts(t.c) && t.g <= BMAX && 0 < w + t.l < t.g
    ensures Wide(t, w, q) <==> q < Pow2(w) && First(t.c, w + t.l) <= Shl(q, t.l) && End(t.c, w + t.l) < Shl(q + 1, t.l)
  {
    hide First, End, Shl, Pow2;
  }

  lemma FirstEnd(c: seq<nat>, k: nat)
    requires IsCounts(c) && 1 <= k <= BMAX
    ensures First(c, k) <= End(c, k)
  {
  }

  lemma WideIff(t: Tab, d: nat, q: nat, k: nat, F: nat)
    requires Fixed(t) && F < Pow2(t.g) && k == LenAt(t, F) && d < k && F == Shl(q, t.g - d) && d + t.l < t.g
    ensures Wide(t, d, q) <==> k > d + t.l || (k == d + t.l && End(t.c, k) < Shl(q + 1, t.l))
  {
    hide *;
    FixedIs(t);
    var s := d + t.l;
    CodePosition(t, d, q, F);
    TopBound(t.g, F, d);
    ShlAdd(q, t.l, t.g - s);
    assert t.l + (t.g - s) == t.g - d;
    CodePosition(t, s, Shl(q, t.l), F);
    ShlMono(q, q + 1, t.l);
    WideMeans(t, d, q);
    FirstEnd(t.c, s);
    Pow2Is(t.l);
    if k > s {
      Below(t, F, s, k);
    } else if k < s && First(t.c, s) <= Shl(q, t.l) {
      Below(t, F, k, s);
    }
  }

  // ----- counting sort of the symbols, and the checks on the lengths

  /** Generates counts for each bit length. */
  method CountLengths(b: seq<nat>) returns (c: array<nat>)
    requires |b| > 0 && forall i :: 0 <= i < |b| ==> b[i] <= BMAX
    ensures fresh(c) && c[..] == Counts(b)
  {
    c := new nat[BMAX + 1](_ => 0);
    var p := 0;
    while p < |b|
      invariant p <= |b|
      invariant forall k :: 0 <= k <= BMAX ==> c[k] == Count(b[..p], k)
    {
      assert b[..p + 1][..p] == b[..p];
      c[b[p]] := c[b[p]] + 1;
      p := p + 1;
    }
    assert b[..p] == b;
  }

  lemma BoundFacts(b: seq<nat>)
    requires 0 < MaxLen(b) <= BMAX
    ensures forall k :: 0 <= k <= BMAX ==> Counts(b)[k] == Count(b, k)
    ensures 1 <= MinLen(b) <= MaxLen(b) && Counts(b)[MaxLen(b)] > 0 && Counts(b)[MinLen(b)] > 0
  {
    hide Count;
    CountPositive(b, MaxLen(b));
    var s :| 0 <= s < |b| && b[s] == MaxLen(b);
    assert b[s] > 0;
    CountPositive(b, MinLen(b));
  }

  lemma AtBounds(b: seq<nat>, k: nat)
    requires 0 < k <= BMAX && Count(b, k) > 0
    ensures MinLen(b) <= k <= MaxLen(b)
  {
    hide Count;
    CountPositive(b, k);
    var s :| 0 <= s < |b| && b[s] == k;
  }

  /** The minimum and maximum code length. */
  method FindBounds(c: array<nat>, ghost b: seq<nat>) returns (j: nat, g: nat)
    requires c.Length == BMAX + 1 && c[..] == Counts(b) && 0 < MaxLen(b) <= BMAX
    ensures j == MinLen(b) && g == MaxLen(b) && 1 <= j <= g
    ensures forall i :: 1 <= i < j ==> c[i] == 0
  {
    hide Count, Counts, MaxLen, MinLen;
    BoundFacts(b);
    j := 1;
    while j <= BMAX && c[j] == 0
      invariant 1 <= j <= MaxLen(b)
      invariant forall i :: 1 <= i < j ==> c[i] == 0
    {
      j := j + 1;
    }
    g := BMAX;
    while g != 0 && c[g] == 0
      invariant MaxLen(b) <= g <= BMAX
      invariant forall i :: g < i <= BMAX ==> c[i] == 0
    {
      g := g - 1;
    }
    AtBounds(b, j);
    AtBounds(b, g);
  }

  lemma CountPositive(b: seq<nat>, k: nat)
    ensures Count(b, k) > 0 <==> k in b
  {
    if Count(b, k) > 0 {
      var s := CountIndex(b, k, 0);
      assert b[s] == k;
    }
    if k in b {
      var s :| 0 <= s < |b| && b[s] == k;
      CountAt(b, s, |b|, k);
      assert b[..|b|] == b;
    }
  }

  /** Adjusts the last length count to fill out the codes. A negative y says that there are
      more codes than bits; otherwise y is the number of dummy codes added. */
  method FillOut(c: array<nat>, j0: nat, g: nat) returns (y: int)
    requires c.Length == BMAX + 1 && 1 <= j0 <= g <= BMAX
    requires forall i :: 1 <= i < j0 ==> c[i] == 0
    modifies c
    ensures y < 0 <==> End(old(c[..]), g) > Pow2(g)
    ensures y >= 0 ==> y == Pow2(g) - End(old(c[..]), g) && c[..] == old(c[..])[g := old(c[g]) + y]
  {
    ghost var c0 := c[..];
    EndZero(c0, j0 - 1);
    var j := j0;
    y := Pow2(j);
    while j < g
      invariant j0 <= j <= g && c[..] == c0
      invariant y == Pow2(j) - First(c0, j)
    {
      y := y - c[j];
      if y < 0 {
        EndGrows(c0, j, g);
        return;
      }
      j := j + 1;
      y := 2 * y;
    }
    y := y - c[g];
    if y >= 0 {
      c[g] := c[g] + y;
    }
  }

  lemma OffFirst(c: seq<nat>)
    requires IsCounts(c)
    ensures Off(c, 1) == 0
  {
  }

  lemma OffNext(c: seq<nat>, p: nat)
    requires IsCounts(c) && 1 <= p <= BMAX
    ensures Off(c, p + 1) == Off(c, p) + c[p]
  {
  }

  /** Generates starting offsets into the value table for each length. */
  method Offsets(c: array<nat>, g: nat) returns (x: array<nat>)
    requires c.Length == BMAX + 1 && 1 <= g <= BMAX
    ensures fresh(x) && x.Length == BMAX + 1
    ensures forall k :: 1 <= k <= g ==> x[k] == Off(c[..], k)
  {
    hide Off;
    ghost var c0 := c[..];
    x := new nat[BMAX + 1](_ => 0);
    var j := 0;
    x[1] := 0;
    var p := 1;
    OffFirst(c0);
    while p < g
      invariant 1 <= p <= g && c[..] == c0 && j == Off(c0, p)
      invariant forall k :: 1 <= k <= p ==> x[k] == Off(c0, k)
    {
      OffNext(c0, p);
      j := j + c[p];
      x[p + 1] := j;
      p := p + 1;
    }
  }

  /** The values of the first n symbols are in their places, and nothing is behind the last place. */
  ghost predicate Placed(b: seq<nat>, n: nat, g: nat, v: seq<int>) {
    && n <= |b| && Lengths(b, g)
    && Off(Counts(b), g + 1) <= |v|
    && (forall s :: 0 <= s < n && b[s] != 0 ==> Place(b, s) < |v| && v[Place(b, s)] == s)
    && (forall p :: Off(Counts(b), g + 1) <= p < |v| ==> v[p] == UNSET)
  }

  /** Where the next symbol of length k goes. */
  ghost predicate Cursor(b: seq<nat>, n: nat, g: nat, x: seq<nat>) {
    && n <= |b| && g <= BMAX && |x| == BMAX + 1
    && forall k :: 1 <= k <= g ==> x[k] == Off(Counts(b), k) + Count(b[..n], k)
  }

  lemma PlaceNext(b: seq<nat>, n: nat, g: nat, v: seq<int>, x: seq<nat>)
    requires Placed(b, n, g, v) && Cursor(b, n, g, x) && n < |b| && b[n] != 0
    ensures x[b[n]] < |v| && Placed(b, n + 1, g, v[x[b[n]] := n])
  {
    PlaceBound(b, n, g);
    forall s | 0 <= s < n && b[s] != 0
      ensures Place(b, s) != Place(b, n)
    {
      PlaceInjective(b, s, n, g);
    }
  }

  lemma PlaceNone(b: seq<nat>, n: nat, g: nat, v: seq<int>)
    requires Placed(b, n, g, v) && n < |b| && b[n] == 0
    ensures Placed(b, n + 1, g, v)
  {
  }

  lemma CursorIs(b: seq<nat>, n: nat, g: nat, v: seq<int>, x: seq<nat>)
    requires Placed(b, n, g, v) && Cursor(b, n, g, x) && n < |b|
    ensures |x| == BMAX + 1 && Lengths(b, g) && b[n] <= BMAX
  {
  }

  lemma CursorNext(b: seq<nat>, n: nat, g: nat, x: seq<nat>)
    requires Cursor(b, n, g, x) && n < |b| && Lengths(b, g)
    ensures Cursor(b, n + 1, g, if b[n] == 0 then x else x[b[n] := x[b[n]] + 1])
  {
    assert b[..n + 1][..n] == b[..n];
  }

  /** Makes a table of values in order of bit lengths. */
  method SortValues(b: seq<nat>, x: array<nat>, ghost g: nat) returns (v: array<int>)
    requires 0 < |b| <= N_MAX && Lengths(b, g) && g >= 1
    requires x.Length == BMAX + 1 && forall k :: 1 <= k <= g ==> x[k] == Off(Counts(b), k)
    modifies x
    ensures fresh(v) && v.Length == N_MAX
    ensures |CodeOrder(b, g)| <= |b|
    ensures forall p :: 0 <= p < |CodeOrder(b, g)| ==> v[p] == CodeOrder(b, g)[p]
    ensures forall p :: |CodeOrder(b, g)| <= p < N_MAX ==> v[p] == UNSET
  {
    v := new int[N_MAX](_ => UNSET);
    OffIsTotal(b, g);
    CodeOrderLen(b, g);
    var i := 0;
    while i < |b|
      invariant i <= |b| && v.Length == N_MAX
      invariant Placed(b, i, g, v[..]) && Cursor(b, i, g, x[..])
    {
      Place1(b, i, x, v, g);
      i := i + 1;
    }
    forall p | 0 <= p < |CodeOrder(b, g)|
      ensures v[p] == CodeOrder(b, g)[p]
    {
      PlaceOf(b, g, p);
    }
  }

  method Place1(b: seq<nat>, i: nat, x: array<nat>, v: array<int>, ghost g: nat)
    requires Placed(b, i, g, v[..]) && Cursor(b, i, g, x[..]) && i < |b|
    modifies x, v
    ensures Placed(b, i + 1, g, v[..]) && Cursor(b, i + 1, g, x[..])
  {
    hide Placed, Cursor;
    ghost var v0, x0 := v[..], x[..];
    CursorIs(b, i, g, v0, x0);
    CursorNext(b, i, g, x0);
    var j := b[i];
    if j == 0 {
      PlaceNone(b, i, g, v0);
    } else {
      PlaceNext(b, i, g, v0, x0);
      v[x[j]] := i;
      x[j] := x[j] + 1;
      assert v[..] == v0[x0[j] := i];
      assert x[..] == x0[j := x0[j] + 1];
    }
  }

  // ----- the whole of huft_build

  /** The first table holds all positions, and looks at exactly l bits. */
  lemma RootTable(t: Tab, pool: Pool, info: seq<Info>, u: seq<nat>, x: seq<nat>, h: int, w: int)
    requires Inv(t, pool, info, u, x, h, w, Pow2(t.g)) && t.c[t.g] > 0
    ensures Sized(t, pool, info) && Untouched(t, pool, info) && FilledTo(t, pool, info, Pow2(t.g))
    ensures pool != [] && info[0].w == 0 && info[0].q == 0 && info[0].nb == t.l
    ensures !DeepWide(t) ==> NoWide(info)
  {
    var X := Pow2(t.g) - 1;
    LenIs(t, X, t.g);
    LowSmall(X, t.g);
    assert Top(t.g, X, 0) == 0;
    assert Adequate(t, info[0]);
    assert Holds(t, info[0], X);
  }

  method MakeTables(t: Tab, v: seq<int>, kmin: nat) returns (pool: Pool, ghost info: seq<Info>)
    requires Fixed(t) && |v| >= t.n && t.c[t.g] > 0
    requires forall j :: 0 <= j < |t.syms| ==> v[j] == t.syms[j]
    requires forall j :: |t.syms| <= j < t.n ==> v[j] == UNSET
    requires 1 <= kmin <= t.g && (forall j :: 1 <= j < kmin ==> t.c[j] == 0)
    ensures Sized(t, pool, info) && Untouched(t, pool, info) && FilledTo(t, pool, info, Pow2(t.g))
    ensures pool != [] && info[0].w == 0 && info[0].q == 0 && info[0].nb == t.l
    ensures !DeepWide(t) ==> NoWide(info)
  {
    var builder := new Builder(t, v);
    builder.Run(kmin);
    RootTable(t, builder.pool, builder.info, builder.u, builder.x, builder.h, builder.w);
    return builder.pool, builder.info;
  }

  /** The parts of huft_build's locals that its main loop only reads are those of the code. */
  lemma TabIs(b: seq<nat>, m: nat, s: nat, d: seq<nat>, e: seq<nat>, c: seq<nat>, g: nat, l: nat, syms: seq<nat>, y: nat)
    requires Args(b, s, d, e) && 0 < MaxLen(b) <= BMAX && g == MaxLen(b)
    requires End(Counts(b), g) + y == Pow2(g) && c == Counts(b)[g := Count(b, g) + y]
    requires l == LookupBits(b, m) && syms == CodeOrder(b, g)
    ensures Usable(b) && KraftSum(b, g) + y == Pow2(g)
    ensures Tab(c, g, l, syms, |b|, s, d, e) == CodeTab(b, m, s, d, e)
    ensures Fixed(CodeTab(b, m, s, d, e)) && c[g] > 0
  {
    hide End, KraftSum, Count, MaxLen, LookupBits, MinLen, CodeOrder, Args, Fixed, Pow2, ExtrasOk;
    EndIsKraftSum(b, g);
    CodeTabFixed(b, m, s, d, e);
    CountPositive(b, g);
  }

  lemma AllZero(b: seq<nat>)
    requires forall i :: 0 <= i < |b| ==> b[i] <= BMAX
    ensures MaxLen(b) <= BMAX && Lengths(b, MaxLen(b))
    ensures Count(b, 0) == |b| <==> MaxLen(b) == 0
  {
    OffIsTotal(b, MaxLen(b));
    if MaxLen(b) > 0 {
      CountPositive(b, MaxLen(b));
      OffMono(Counts(b), MaxLen(b), MaxLen(b) + 1);
    }
  }

  lemma OffsetsAgree(b: seq<nat>, c: seq<nat>, g: nat)
    requires 1 <= g <= BMAX && IsCounts(c) && forall j :: 1 <= j < g ==> c[j] == Count(b, j)
    ensures forall k :: 1 <= k <= g ==> Off(c, k) == Off(Counts(b), k)
  {
    forall k | 1 <= k <= g
      ensures Off(c, k) == Off(Counts(b), k)
    {
      OffAgree(c, Counts(b), k);
    }
  }

  /** The value table, and the part of it that has been written. */
  method AssignValues(b: seq<nat>, c: array<nat>, g: nat) returns (v: seq<int>, syms: seq<nat>)
    requires 0 < |b| <= N_MAX && Lengths(b, g) && g >= 1 && c.Length == BMAX + 1
    requires c[0] == Count(b, 0) && forall k :: 1 <= k < g ==> c[k] == Count(b, k)
    ensures |v| == N_MAX && syms == CodeOrder(b, g) && |syms| <= |b|
    ensures forall j :: 0 <= j < |syms| ==> v[j] == syms[j]
    ensures forall j :: |syms| <= j < |b| ==> v[j] == UNSET
  {
    var x := Offsets(c, g);
    OffsetsAgree(b, c[..], g);
    var va := SortValues(b, x, g);
    OffIsTotal(b, g);
    CodeOrderLen(b, g);
    v := va[..];
    syms := v[..|b| - c[0]];
  }

  /** The tables decode every stream, exactly when none below the first is too wide. */
  lemma AllDecode(b: seq<nat>, m: nat, s: nat, d: seq<nat>, e: seq<nat>, pool: Pool, info: seq<Info>)
    requires Args(b, s, d, e) && Usable(b)
    requires var t := CodeTab(b, m, s, d, e);
             && Fixed(t) && Sized(t, pool, info) && Untouched(t, pool, info) && FilledTo(t, pool, info, Pow2(t.g))
             && pool != [] && info[0].w == 0 && info[0].q == 0 && info[0].nb == t.l
             && (!DeepWide(t) ==> NoWide(info))
    ensures Decodes(b, s, d, e, pool, LookupBits(b, m)) <==> !DeepWide(CodeTab(b, m, s, d, e))
  {
    if DeepWide(CodeTab(b, m, s, d, e)) {
      WideFails(b, m, s, d, e, pool, info);
    } else {
      forall bits: seq<bit>, pos: nat | pos <= |bits|
        ensures DecodesAt(b, s, d, e, pool, LookupBits(b, m), bits, pos)
      {
        TablesDecode(b, m, s, d, e, pool, info, bits, pos);
      }
    }
  }

  method HuftBuild(b: seq<nat>, s: nat, d: seq<nat>, e: seq<nat>, m: nat) returns (r: nat, pool: Pool, bl: nat)
    requires Args(b, s, d, e) && |b| <= 288
    ensures MaxLen(b) == 0 ==> r == 0 && pool == [] && bl == 0
    ensures MaxLen(b) > 0 ==>
      && (r == 2 <==> KraftSum(b, MaxLen(b)) > Pow2(MaxLen(b)))
      && (r == 1 <==> KraftSum(b, MaxLen(b)) < Pow2(MaxLen(b)) && MaxLen(b) != 1)
      && (r == 0 || r == 1 || r == 2)
    ensures MaxLen(b) > 0 && r != 2 ==>
      && pool != [] && bl == LookupBits(b, m)
      && Usable(b) && Fixed(CodeTab(b, m, s, d, e))
      && (Decodes(b, s, d, e, pool, bl) <==> !DeepWide(CodeTab(b, m, s, d, e)))
  {
    hide Fixed, Sized, Untouched, FilledTo, DeepWide, Decodes, Usable, CodeTab, CodeOrder, End, LookupBits;
    var c := CountLengths(b);
    AllZero(b);
    if c[0] == |b| {
      return 0, [], 0;
    }
    var j, g := FindBounds(c, b);
    bl := if m < j then j else m;
    bl := if bl > g then g else bl;
    LookupBitsIs(b, m);
    EndIsKraftSum(b, g);
    var y := FillOut(c, j, g);
    if y < 0 {
      return 2, [], bl;
    }
    var v, syms := AssignValues(b, c, g);
    TabIs(b, m, s, d, e, c[..], g, bl, syms, y);
    ghost var info;
    pool, info := MakeTables(Tab(c[..], g, bl, syms, |b|, s, d, e), v, j);
    AllDecode(b, m, s, d, e, pool, info);
    r := if y != 0 && g != 1 then 1 else 0;
  }

  lemma LookupBitsIs(b: seq<nat>, m: nat)
    ensures var l := if m < MinLen(b) then MinLen(b) else m;
            LookupBits(b, m) == if l > MaxLen(b) then MaxLen(b) else l
  {
  }
}
