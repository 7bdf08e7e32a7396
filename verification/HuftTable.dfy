// The linked lookup tables of boot/zBoot/inflate.c.
module HuftTable {
  // What every slot has to hold, and why a lookup through such tables is bit-by-bit canonical
  // decoding. A "position" X stands for the g code bits at the front of a stream, first bit
  // most significant; positions are ordered as the codes are.

  import opened Bits
  import opened Canonical

  /** union { n; t } of struct huft; a pointer is the number of a table in the pool. */
  datatype Val = Num(n: nat) | Next(table: nat)

  /** A table slot. Unset is memory from malloc that was never written; Garbage is a
      slot that was filled from a part of v[] that was never written. */
  datatype Slot = Unset | Garbage | Huft(e: nat, b: nat, v: Val)

  type Pool = seq<seq<Slot>>

  /** What stays fixed while tables are built: code counts c (completed to a full set),
      longest code g, lookup bits l, the coded symbols in code order, and the arguments
      n, s, d, e of huft_build. */
  datatype Tab = Tab(c: seq<nat>, g: nat, l: nat, syms: seq<nat>, n: nat, s: nat, d: seq<nat>, e: seq<nat>)

  /** Where a table sits: it decodes nb bits of every position whose first w bits are q.
      It was allocated with nb + over index bits. */
  datatype Info = Info(w: nat, q: nat, nb: nat, over: nat)

  predicate ExtrasOk(e: seq<nat>) {
    forall i :: 0 <= i < |e| ==> e[i] < 15 || e[i] == 99
  }

  ghost predicate Fixed(t: Tab) {
    && IsCounts(t.c) && 1 <= t.l <= t.g <= BMAX
    && End(t.c, t.g) == Pow2(t.g)
    && |t.d| == |t.e| && ExtrasOk(t.e)
    && |t.syms| <= t.n
    && forall p :: 0 <= p < |t.syms| ==> t.syms[p] < t.s + |t.d|
  }

  // ----- positions and code lengths

  /** The first d bits of position X. */
  function Top(g: nat, X: nat, d: nat): nat
    requires d <= g
  {
    Shr(X, g - d)
  }

  lemma TopTop(g: nat, X: nat, a: nat, b: nat)
    requires a <= b <= g
    ensures Top(g, X, a) == Shr(Top(g, X, b), b - a)
  {
    ShrAdd(X, g - b, b - a);
  }

  lemma TopHalf(g: nat, X: nat, d: nat)
    requires d < g
    ensures Top(g, X, d) == Top(g, X, d + 1) / 2
  {
    ShrLast(X, g - d - 1);
  }

  lemma TopBound(g: nat, X: nat, d: nat)
    requires d <= g && X < Pow2(g)
    ensures Top(g, X, d) < Pow2(d)
  {
    Split(X, g - d);
    ShlAdd(1, d, g - d);
    if Top(g, X, d) >= Pow2(d) {
      ShlMono(Pow2(d), Top(g, X, d), g - d);
    }
  }

  /** The length of the code at X: the first k at which the code bits fall below End(k). */
  function LenFrom(c: seq<nat>, g: nat, X: nat, k: nat): (r: nat)
    requires IsCounts(c) && 1 <= k <= g <= BMAX
    requires End(c, k - 1) <= Top(g, X, k - 1)
    ensures k <= r <= g
    ensures First(c, r) <= Top(g, X, r)
    ensures X < Pow2(g) == End(c, g) ==> Top(g, X, r) < End(c, r)
    decreases g - k
  {
    TopHalf(g, X, k - 1);
    if k == g || Top(g, X, k) < End(c, k) then k else LenFrom(c, g, X, k + 1)
  }

  function LenAt(t: Tab, X: nat): (r: nat)
    requires Fixed(t)
    ensures 1 <= r <= t.g
    ensures First(t.c, r) <= Top(t.g, X, r)
    ensures X < Pow2(t.g) ==> Top(t.g, X, r) < End(t.c, r)
  {
    LenFrom(t.c, t.g, X, 1)
  }

  lemma {:induction false} Below(t: Tab, X: nat, j: nat, k: nat)
    requires Fixed(t) && j < k <= t.g
    requires First(t.c, k) <= Top(t.g, X, k)
    ensures End(t.c, j) <= Top(t.g, X, j)
  {
    TopHalf(t.g, X, k - 1);
    if j >= k - 1 {
    } else {
      Below(t, X, j, k - 1);
    }
  }

  lemma {:induction false} LenFromIs(t: Tab, X: nat, j: nat, k: nat)
    requires Fixed(t) && 1 <= j <= k <= t.g && End(t.c, j - 1) <= Top(t.g, X, j - 1)
    requires First(t.c, k) <= Top(t.g, X, k) < End(t.c, k)
    ensures LenFrom(t.c, t.g, X, j) == k
    decreases k - j
  {
    if j >= k {
    } else {
      Below(t, X, j, k);
      LenFromIs(t, X, j + 1, k);
    }
  }

  lemma LenIs(t: Tab, X: nat, k: nat)
    requires Fixed(t) && 1 <= k <= t.g
    requires First(t.c, k) <= Top(t.g, X, k) < End(t.c, k)
    ensures LenAt(t, X) == k
  {
    LenFromIs(t, X, 1, k);
  }

  lemma LenMono(t: Tab, X: nat, Y: nat)
    requires Fixed(t) && X <= Y < Pow2(t.g)
    ensures LenAt(t, X) <= LenAt(t, Y)
  {
    var k, k' := LenAt(t, X), LenAt(t, Y);
    if k' < k {
      Below(t, X, k', k);
      ShrMono(X, Y, t.g - k');
    }
  }

  // ----- what a slot has to hold

  /** The slot that stands for coded symbol sym when its last b bits are looked up. */
  function SymSlot(s: nat, d: seq<nat>, e: seq<nat>, sym: nat, b: nat): Slot
    requires |d| == |e| && sym < s + |d|
  {
    if sym < s then Huft(if sym < 256 then 16 else 15, b, Num(sym))
    else Huft(e[sym - s], b, Num(d[sym - s]))
  }

  /** Where a k-bit code stands in the list of all codes, dummies included. */
  function Index(t: Tab, k: nat, code: nat): int
    requires IsCounts(t.c) && 1 <= k <= BMAX
  {
    Off(t.c, k) + code - First(t.c, k)
  }

  /** The slot for the p-th code: a symbol, or past the coded symbols an uninitialised part
      of v[], or past the end of v[] an invalid code. */
  function LeafSlot(t: Tab, p: nat, b: nat): Slot
    requires Fixed(t)
  {
    if p < |t.syms| then SymSlot(t.s, t.d, t.e, t.syms[p], b)
    else if p < t.n then Garbage
    else Huft(99, b, Num(0))
  }

  ghost predicate LeafAt(t: Tab, slot: Slot, k: nat, code: nat, w: nat)
    requires Fixed(t) && w < k <= t.g
  {
    Index(t, k, code) >= 0 && slot == LeafSlot(t, Index(t, k, code), k - w)
  }

  ghost predicate LinkAt(t: Tab, pool: Pool, info: seq<Info>, id: nat, slot: Slot, X: nat)
    requires Fixed(t) && |info| == |pool| && id < |pool|
  {
    && info[id].nb == t.l && info[id].w + t.l <= t.g
    && slot.Huft? && slot.b == t.l && slot.v.Next?
    && id < slot.v.table < |pool|
    && info[slot.v.table].w == info[id].w + t.l
    && info[slot.v.table].q == Top(t.g, X, info[id].w + t.l)
    && slot.e == 16 + info[slot.v.table].nb + info[slot.v.table].over
  }

  ghost predicate TableOk(t: Tab, i: Info) {
    i.nb >= 1 && i.nb <= t.l && i.w + i.nb <= t.g
  }

  ghost predicate Holds(t: Tab, i: Info, X: nat)
    requires i.w <= t.g
  {
    X < Pow2(t.g) && Top(t.g, X, i.w) == i.q
  }

  /** The index that position X selects in a table. */
  function IndexOf(t: Tab, i: Info, X: nat): nat
    requires i.w + i.nb <= t.g
  {
    Rev(Top(t.g, X, i.w + i.nb), i.nb)
  }

  ghost predicate EntryFor(t: Tab, pool: Pool, info: seq<Info>, id: nat, X: nat)
    requires Fixed(t) && |info| == |pool| && id < |pool| && TableOk(t, info[id])
  {
    var i := info[id];
    var k := LenAt(t, X);
    var j := IndexOf(t, i, X);
    && i.w < k
    && j < |pool[id]|
    && if k <= i.w + i.nb then LeafAt(t, pool[id][j], k, Top(t.g, X, k), i.w)
       else LinkAt(t, pool, info, id, pool[id][j], X)
  }

  ghost predicate TablesOk(t: Tab, pool: Pool, info: seq<Info>) {
    && |info| == |pool|
    && forall id :: 0 <= id < |info| ==> TableOk(t, info[id])
  }

  /** All slots that positions below F can reach are right. */
  ghost predicate FilledTo(t: Tab, pool: Pool, info: seq<Info>, F: nat)
    requires Fixed(t) && TablesOk(t, pool, info)
  {
    forall id, X :: 0 <= id < |pool| && 0 <= X < F && Holds(t, info[id], X) ==> EntryFor(t, pool, info, id, X)
  }

  // ----- looking a stream up

  /** The slot found after dropping used bits, and the number of bits that had to be there. */
  datatype Found = Found(slot: Slot, used: nat, need: nat)

  /** The decoding loop of inflate_codes: index with nb bits, follow links while the
      operation says so. N is the value of the remaining stream. A slot that asks for more
      bits to be dropped than were looked at counts as unwritten. */
  function Lookup(pool: Pool, id: nat, nb: nat, N: nat, used: nat): (f: Found)
    requires id < |pool|
    ensures f.need >= used + nb && f.used >= used
    ensures f.slot.Huft? ==> f.used + f.slot.b <= f.need
    decreases |pool| - id
  {
    var idx := Low(N, nb);
    if idx >= |pool[id]| then Found(Unset, used, used + nb)
    else
      var slot := pool[id][idx];
      if slot.Huft? && slot.b > nb then Found(Unset, used, used + nb)
      else if slot.Huft? && slot.e > 16 && slot.e != 99 then
        if slot.v.Next? && id < slot.v.table < |pool|
        then
          var f := Lookup(pool, slot.v.table, slot.e - 16, Shr(N, slot.b), used + slot.b);
          f.(need := if f.need < used + nb then used + nb else f.need)
        else Found(Unset, used, used + nb)
      else Found(slot, used, used + nb)
  }

  lemma TopRev(N: nat, g: nat, d: nat)
    requires d <= g
    ensures Top(g, Rev(N, g), d) == Rev(N, d)
  {
    RevSplit(N, d, g - d);
    RevBound(Shr(N, d), g - d);
    SplitUnique(Rev(N, g), g - d, Rev(N, d), Rev(Shr(N, d), g - d));
  }

  /** The stream bits after the first w, as an index, are what the position selects. */
  lemma IndexIsLow(N: nat, w: nat, nb: nat)
    ensures Rev(Rev(N, w + nb), nb) == Low(Shr(N, w), nb)
  {
    RevSplit(N, w, nb);
    RevBound(Shr(N, w), nb);
    SplitUnique(Rev(N, w + nb), nb, Rev(N, w), Rev(Shr(N, w), nb));
    RevLow(Rev(N, w + nb), nb, nb);
    RevRev(Shr(N, w), nb);
  }

  ghost predicate NoWide(info: seq<Info>) {
    forall id :: 0 < id < |info| ==> info[id].over == 0
  }

  /** Indexing the table with the stream selects the slot of the stream's position. */
  lemma SlotFor(t: Tab, pool: Pool, info: seq<Info>, id: nat, N: nat)
    requires Fixed(t) && TablesOk(t, pool, info) && id < |pool| && EntryFor(t, pool, info, id, Rev(N, t.g))
    ensures var i := info[id]; var X := Rev(N, t.g); var k := LenAt(t, X);
            var j := Low(Shr(N, i.w), i.nb);
            && i.w < k && j < |pool[id]|
            && if k <= i.w + i.nb then LeafAt(t, pool[id][j], k, Rev(N, k), i.w)
               else LinkAt(t, pool, info, id, pool[id][j], X)
  {
    TopRev(N, t.g, info[id].w + info[id].nb);
    IndexIsLow(N, info[id].w, info[id].nb);
    TopRev(N, t.g, LenAt(t, Rev(N, t.g)));
  }

  lemma LookupLeaf(t: Tab, pool: Pool, id: nat, nb: nat, N: nat, w: nat, slot: Slot, k: nat, code: nat)
    requires Fixed(t) && id < |pool| && Low(Shr(N, w), nb) < |pool[id]| && pool[id][Low(Shr(N, w), nb)] == slot
    requires w < k <= t.g && k <= w + nb && LeafAt(t, slot, k, code, w)
    ensures Lookup(pool, id, nb, Shr(N, w), w) == Found(slot, w, w + nb)
  {
  }

  lemma LookupLink(pool: Pool, id: nat, nb: nat, N: nat, w: nat, slot: Slot)
    requires id < |pool| && Low(Shr(N, w), nb) < |pool[id]| && pool[id][Low(Shr(N, w), nb)] == slot
    requires slot.Huft? && slot.e > 16 && slot.e != 99 && slot.v.Next? && id < slot.v.table < |pool| && slot.b <= nb
    ensures var f := Lookup(pool, slot.v.table, slot.e - 16, Shr(N, w + slot.b), w + slot.b);
            Lookup(pool, id, nb, Shr(N, w), w) == f.(need := if f.need < w + nb then w + nb else f.need)
  {
    ShrAdd(N, w, slot.b);
  }

  lemma {:induction false} LookupCorrect(t: Tab, pool: Pool, info: seq<Info>, id: nat, N: nat)
    requires Fixed(t) && TablesOk(t, pool, info) && id < |pool|
    requires FilledTo(t, pool, info, Pow2(t.g)) && NoWide(info)
    requires Holds(t, info[id], Rev(N, t.g))
    ensures var X := Rev(N, t.g);
            var k := LenAt(t, X);
            var f := Lookup(pool, id, info[id].nb, Shr(N, info[id].w), info[id].w);
            && f.used < k <= f.need <= t.g && LeafAt(t, f.slot, k, Rev(N, k), f.used)
    decreases |pool| - id
  {
    var X, i := Rev(N, t.g), info[id];
    assert EntryFor(t, pool, info, id, X);
    SlotFor(t, pool, info, id, N);
    hide LeafAt, Lookup, LenAt, EntryFor, IndexOf;
    var slot := pool[id][Low(Shr(N, i.w), i.nb)];
    var k := LenAt(t, X);
    if k <= i.w + i.nb {
      LookupLeaf(t, pool, id, i.nb, N, i.w, slot, k, Rev(N, k));
    } else {
      LookupLink(pool, id, i.nb, N, i.w, slot);
      LookupCorrect(t, pool, info, slot.v.table, N);
    }
  }

  /** With as many lookup bits as the longest code has, the first table answers directly. */
  lemma LookupDirect(t: Tab, pool: Pool, info: seq<Info>, N: nat)
    requires Fixed(t) && TablesOk(t, pool, info) && FilledTo(t, pool, info, Pow2(t.g)) && pool != []
    requires info[0].w == 0 && info[0].nb == t.l == t.g && Holds(t, info[0], Rev(N, t.g))
    ensures var j := Low(N, t.l);
            j < |pool[0]| && Lookup(pool, 0, t.l, N, 0).slot == pool[0][j] && Lookup(pool, 0, t.l, N, 0).used == 0
  {
    var X := Rev(N, t.g);
    assert EntryFor(t, pool, info, 0, X);
    SlotFor(t, pool, info, 0, N);
    LookupLeaf(t, pool, 0, t.l, N, 0, pool[0][Low(N, t.l)], LenAt(t, X), Rev(N, LenAt(t, X)));
  }
}
