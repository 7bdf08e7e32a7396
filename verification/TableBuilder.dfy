// The invariant of the main loop of huft_build (boot/zBoot/inflate.c) and why each of its
// steps keeps it: opening a table, filling in a code, backing up over finished tables.
module TableBuilder {
  import opened Bits
  import opened Canonical
  import opened HuftTable

  // ----- the stack of tables that hold the current position

  /** w is a multiple of l. */
  predicate Multiple(w: nat, l: nat)
    requires l > 0
  {
    w == 0 || (w >= l && Multiple(w - l, l))
  }

  /** Under prefix q of w bits no code is shorter than w + l bits, but some are longer: here
      the search for a table size starts at l bits or more and overshoots, so that the table
      gets more than l index bits. */
  predicate Wide(t: Tab, w: nat, q: nat)
    requires IsCounts(t.c) && t.g <= BMAX
  {
    && 0 < w + t.l < t.g && q < Pow2(w)
    && First(t.c, w + t.l) <= Shl(q, t.l) && End(t.c, w + t.l) < Shl(q + 1, t.l)
  }

  ghost predicate Adequate(t: Tab, i: Info)
    requires Fixed(t) && TableOk(t, i)
  {
    i.nb == t.l || forall X :: Holds(t, i, X) ==> LenAt(t, X) <= i.w + i.nb
  }

  ghost predicate Sized(t: Tab, pool: Pool, info: seq<Info>)
    requires Fixed(t)
  {
    && TablesOk(t, pool, info)
    && forall id :: 0 <= id < |pool| ==>
         var i := info[id];
         && |pool[id]| == Pow2(i.nb + i.over)
         && Adequate(t, i)
         && (i.over > 0 ==> i.nb == t.l)
         && Multiple(i.w, t.l)
         && (id == 0 ==> i.w == 0 && i.q == 0)
         && i.nb + i.over <= BMAX + 1
         && (id > 0 ==> i.w >= t.l && (i.over > 0 <==> Wide(t, i.w, i.q)))
  }

  /** In a table with too many index bits, nothing is ever stored in the upper half for a
      prefix that has to go on to a deeper table. */
  ghost predicate Untouched(t: Tab, pool: Pool, info: seq<Info>)
    requires Fixed(t) && TablesOk(t, pool, info)
  {
    forall id, j, X :: 0 <= id < |pool| && UpperSlot(t, pool, info, id, j, X) ==> pool[id][j] == Unset
  }

  ghost predicate UpperSlot(t: Tab, pool: Pool, info: seq<Info>, id: nat, j: int, X: nat)
    requires Fixed(t) && TablesOk(t, pool, info) && id < |pool|
  {
    && info[id].nb == t.l && Pow2(t.l) <= j < |pool[id]|
    && Holds(t, info[id], X) && LenAt(t, X) > info[id].w + t.l
    && Low(j, t.l) == IndexOf(t, info[id], X)
  }

  ghost predicate Levels(t: Tab, info: seq<Info>, u: seq<nat>, x: seq<nat>, h: int, w: int)
    requires Fixed(t)
  {
    && |u| == BMAX && |x| == BMAX + 1 && -1 <= h < BMAX && x[0] == 0
    && (h == -1 ==> w + t.l == 0 && info == [])
    && (h >= 0 ==> u[0] == 0 && |info| > 0 && info[0].w == 0)
    && (forall j :: 0 <= j <= h ==> u[j] < |info| && j <= info[u[j]].w < t.g)
    && (forall j :: 0 <= j <= h ==> x[j] == Rev(info[u[j]].q, info[u[j]].w))
    && (forall j :: 0 <= j < h ==> u[j] < u[j + 1] && info[u[j + 1]].w == info[u[j]].w + t.l)
    && (h >= 0 ==> w == info[u[h]].w)
  }

  lemma {:induction false} LevelsOrdered(t: Tab, info: seq<Info>, u: seq<nat>, x: seq<nat>, h: int, w: int, i: nat, j: nat)
    requires Fixed(t) && Levels(t, info, u, x, h, w)
    requires i < j <= h
    ensures u[i] < u[j] && info[u[i]].w + t.l <= info[u[j]].w
    decreases j - i
  {
    if i + 1 >= j {
    } else {
      LevelsOrdered(t, info, u, x, h, w, i, j - 1);
    }
  }

  /** All tables on the stack hold position F. */
  ghost predicate OnPath(t: Tab, info: seq<Info>, u: seq<nat>, h: int, F: nat) {
    && -1 <= h < |u|
    && forall j :: 0 <= j <= h ==> u[j] < |info| && info[u[j]].w <= t.g && Top(t.g, F, info[u[j]].w) == info[u[j]].q
  }

  /** All tables that are not on the stack end at or before position F. */
  ghost predicate Behind(t: Tab, info: seq<Info>, u: seq<nat>, h: int, F: nat) {
    && -1 <= h < |u|
    && forall id :: 0 <= id < |info| ==>
         id in u[..h + 1] || (info[id].w <= t.g && info[id].q < Top(t.g, F, info[id].w))
  }

  /** Below the top of the stack, the slot on the path to F is the link to the next level. */
  ghost predicate Linked(t: Tab, pool: Pool, info: seq<Info>, u: seq<nat>, h: int, F: nat)
    requires Fixed(t) && TablesOk(t, pool, info)
  {
    && -1 <= h < |u|
    && forall j :: 0 <= j < h ==> u[j] < |pool| && EntryFor(t, pool, info, u[j], F)
  }

  ghost predicate Inv(t: Tab, pool: Pool, info: seq<Info>, u: seq<nat>, x: seq<nat>, h: int, w: int, F: nat) {
    && Fixed(t)
    && Levels(t, info, u, x, h, w)
    && Sized(t, pool, info)
    && F <= Pow2(t.g) && (h == -1 ==> F == 0)
    && FilledTo(t, pool, info, F)
    && Untouched(t, pool, info)
    && Behind(t, info, u, h, F)
    && (F < Pow2(t.g) ==> OnPath(t, info, u, h, F) && Linked(t, pool, info, u, h, F) && LenAt(t, F) > w)
  }

  // ----- positions and codes

  lemma FixedIs(t: Tab)
    requires Fixed(t)
    ensures IsCounts(t.c) && 1 <= t.l <= t.g <= BMAX
  {
  }

  lemma Pow2Is(n: nat)
    ensures Pow2(n) == Shl(1, n)
  {
  }

  lemma TopSplit(g: nat, X: nat, k: nat)
    requires k <= g
    ensures Shl(Top(g, X, k), g - k) <= X < Shl(Top(g, X, k), g - k) + Pow2(g - k)
  {
    hide Shl, Pow2, Shr, Low;
    Split(X, g - k);
    TopMeans(g, X, k);
  }

  lemma TopMeans(g: nat, X: nat, k: nat)
    requires k <= g
    ensures Top(g, X, k) == Shr(X, g - k)
  {
  }

  /** The position of the k-bit number code, and that all positions between it and the next
      have that code. */
  lemma CodePosition(t: Tab, k: nat, code: nat, X: nat)
    requires Fixed(t) && k <= t.g
    ensures Shl(code, t.g - k) <= X < Shl(code + 1, t.g - k) <==> Top(t.g, X, k) == code
    ensures X == Shl(code, t.g - k) ==> Top(t.g, X, k) == code
    ensures code < Pow2(k) ==> Shl(code + 1, t.g - k) <= Pow2(t.g)
  {
    hide *;
    FixedIs(t);
    var m := t.g - k;
    TopSplit(t.g, X, k);
    ShlPlus(code, 1, m);
    Pow2Is(m);
    Pow2Is(k);
    Pow2Is(t.g);
    var top := Top(t.g, X, k);
    if top < code {
      ShlMono(top, code, m);
    } else if top > code {
      ShlMono(code + 1, top, m);
    }
    if code < Pow2(k) {
      ShlAdd(1, k, m);
      ShlMono(code + 1, Pow2(k), m);
    }
  }

  /** Bit reversal turns "the first m bits of code" into "the low m bits of its reversal". */
  lemma RevParts(code: nat, m: nat, w: nat)
    ensures Shr(Rev(code, m + w), w) == Rev(code, m)
    ensures Low(Rev(code, m + w), w) == Rev(Shr(code, m), w)
  {
    RevSplit(code, m, w);
    RevBound(Shr(code, m), w);
    SplitUnique(Rev(code, m + w), w, Rev(code, m), Rev(Shr(code, m), w));
  }

  lemma RevInjective(a: nat, b: nat, k: nat)
    requires Rev(a, k) == Rev(b, k)
    ensures Low(a, k) == Low(b, k)
  {
    RevRev(a, k);
    RevRev(b, k);
  }

  /** Two positions that agree on all bits a table sees, and both need deeper tables,
      select the same link. */
  lemma Transfer(t: Tab, pool: Pool, info: seq<Info>, id: nat, X: nat, Y: nat)
    requires Fixed(t) && TablesOk(t, pool, info) && id < |pool|
    requires EntryFor(t, pool, info, id, X)
    requires var d := info[id].w + info[id].nb;
             Top(t.g, X, d) == Top(t.g, Y, d) && LenAt(t, X) > d && LenAt(t, Y) > d
    ensures EntryFor(t, pool, info, id, Y)
  {
  }

  // ----- opening a table

  /** A table held by the position is on the stack, so it is not deeper than the top. */
  lemma NotDeeper(t: Tab, pool: Pool, info: seq<Info>, u: seq<nat>, x: seq<nat>, h: int, w: int, F: nat, id: nat)
    requires Inv(t, pool, info, u, x, h, w, F) && h >= 0
    requires id < |info| && info[id].w <= t.g && info[id].q == Top(t.g, F, info[id].w)
    ensures info[id].w <= w
  {
    assert id in u[..h + 1];
    var j :| 0 <= j <= h && u[j] == id;
    if j < h {
      LevelsOrdered(t, info, u, x, h, w, j, h);
    }
  }

  /** When the current code is too long for a table, an earlier position with the same
      prefix would have left a table for that prefix behind. */
  lemma LinkedBefore(t: Tab, pool: Pool, info: seq<Info>, id: nat, X: nat, F: nat) returns (next: nat)
    requires Fixed(t) && TablesOk(t, pool, info) && id < |pool| && info[id].nb == t.l
    requires var d := info[id].w + t.l; LenAt(t, F) > d && Top(t.g, X, d) == Top(t.g, F, d)
    requires X < F < Pow2(t.g) && EntryFor(t, pool, info, id, X)
    ensures var d := info[id].w + t.l; next < |info| && info[next].w == d && info[next].q == Top(t.g, F, d)
  {
    var d := info[id].w + t.l;
    var k' := LenAt(t, X);
    if k' <= d {
      TopTop(t.g, X, k', d);
      TopTop(t.g, F, k', d);
      LenIs(t, F, k');
    }
    next := pool[id][IndexOf(t, info[id], X)].v.table;
  }

  lemma TopFull(t: Tab, pool: Pool, info: seq<Info>, id: nat, F: nat)
    requires Fixed(t) && Sized(t, pool, info) && id < |info|
    requires F < Pow2(t.g) && Holds(t, info[id], F) && LenAt(t, F) > info[id].w + t.l
    ensures info[id].nb == t.l
  {
    assert Adequate(t, info[id]);
  }

  /** ... so the position is the very first of the prefix that the next table is for. */
  lemma Aligned(t: Tab, pool: Pool, info: seq<Info>, u: seq<nat>, x: seq<nat>, h: int, w: int, F: nat)
    requires Inv(t, pool, info, u, x, h, w, F) && F < Pow2(t.g)
    requires LenAt(t, F) > w + t.l >= 0
    ensures F == Shl(Top(t.g, F, w + t.l), t.g - (w + t.l))
  {
    if h == -1 {
      ShlZero(t.g);
      LowSmall(F, t.g);
    } else {
      TopFull(t, pool, info, u[h], F);
      AlignedAt(t, pool, info, u, x, h, w, F, Top(t.g, F, w + t.l));
    }
  }

  lemma AlignParts(t: Tab, pool: Pool, info: seq<Info>, u: seq<nat>, x: seq<nat>, h: int, w: int, F: nat)
    requires Inv(t, pool, info, u, x, h, w, F) && F < Pow2(t.g) && h >= 0
    ensures Fixed(t) && TablesOk(t, pool, info) && |info| == |pool| && w >= 0 && h < |u| && u[h] < |pool| && info[u[h]].w == w && LenAt(t, F) <= t.g && t.l >= 1
  {
    hide FilledTo, Untouched, Behind, EntryFor, Holds;
  }

  lemma EntryBelow(t: Tab, pool: Pool, info: seq<Info>, u: seq<nat>, x: seq<nat>, h: int, w: int, F: nat, X: nat)
    requires Inv(t, pool, info, u, x, h, w, F) && F < Pow2(t.g) && h >= 0 && X < F
    requires 0 <= w <= t.g && Top(t.g, X, w) == Top(t.g, F, w)
    ensures TablesOk(t, pool, info) && u[h] < |pool| && EntryFor(t, pool, info, u[h], X)
  {
    hide EntryFor, Untouched, Behind, LenAt;
  }

  lemma PrefixBelow(t: Tab, F: nat, d: nat, q: nat)
    requires d <= t.g && q == Top(t.g, F, d)
    ensures Shl(q, t.g - d) <= F
  {
    Split(F, t.g - d);
  }

  lemma AlignedAt(t: Tab, pool: Pool, info: seq<Info>, u: seq<nat>, x: seq<nat>, h: int, w: int, F: nat, q: nat)
    requires Inv(t, pool, info, u, x, h, w, F) && F < Pow2(t.g) && h >= 0
    requires LenAt(t, F) > w + t.l && info[u[h]].nb == t.l && q == Top(t.g, F, w + t.l)
    ensures F == Shl(q, t.g - (w + t.l))
  {
    hide *;
    AlignParts(t, pool, info, u, x, h, w, F);
    var d: nat := w + t.l;
    var X := Shl(q, t.g - d);
    PrefixBelow(t, F, d, q);
    CodePosition(t, d, q, X);
    if X < F {
      TopTop(t.g, X, w, d);
      TopTop(t.g, F, w, d);
      EntryBelow(t, pool, info, u, x, h, w, F, X);
      var next := LinkedBefore(t, pool, info, u[h], X, F);
      NotDeeper(t, pool, info, u, x, h, w, F, next);
    }
  }

  /** A slot keeps its meaning when tables are added and other slots are written. */
  lemma EntryFrame(t: Tab, pool: Pool, info: seq<Info>, pool': Pool, info': seq<Info>, id: nat, X: nat)
    requires Fixed(t) && TablesOk(t, pool, info) && TablesOk(t, pool', info')
    requires info <= info' && id < |pool| && |pool'[id]| == |pool[id]|
    requires EntryFor(t, pool, info, id, X)
    requires pool'[id][IndexOf(t, info[id], X)] == pool[id][IndexOf(t, info[id], X)]
    ensures EntryFor(t, pool', info', id, X)
  {
  }

  /** Different prefixes select different slots of a table. */
  lemma SameSlot(t: Tab, i: Info, X: nat, Y: nat)
    requires i.w + i.nb <= t.g && Top(t.g, X, i.w) == Top(t.g, Y, i.w)
    requires IndexOf(t, i, X) == IndexOf(t, i, Y)
    ensures Top(t.g, X, i.w + i.nb) == Top(t.g, Y, i.w + i.nb)
  {
    var a, b := Top(t.g, X, i.w + i.nb), Top(t.g, Y, i.w + i.nb);
    RevInjective(a, b, i.nb);
    TopTop(t.g, X, i.w, i.w + i.nb);
    TopTop(t.g, Y, i.w, i.w + i.nb);
    Split(a, i.nb);
    Split(b, i.nb);
  }

  function NewInfo(t: Tab, w: nat, q: nat, j: nat): Info {
    if j <= t.l then Info(w, q, j, 0) else Info(w, q, t.l, j - t.l)
  }

  function NewSlots(j: nat): seq<Slot> {
    seq(Pow2(j), _ => Unset)
  }

  /** What the search for a table size has to deliver for the table of prefix q at depth w. */
  ghost predicate GoodSize(t: Tab, w: nat, q: nat, j: nat)
    requires Fixed(t)
  {
    && 1 <= j <= BMAX + 1 && w + (if j <= t.l then j else t.l) <= t.g
    && (j < t.l ==> Shl(q + 1, j) <= End(t.c, w + j))
    && (w > 0 ==> (j > t.l <==> Wide(t, w, q)))
  }

  lemma NotLonger(t: Tab, w: nat, q: nat, j: nat, X: nat)
    requires Fixed(t) && w + j <= t.g && X < Pow2(t.g) && Top(t.g, X, w) == q && Shl(q + 1, j) <= End(t.c, w + j)
    ensures LenAt(t, X) <= w + j
  {
    hide *;
    FixedIs(t);
    var top := Top(t.g, X, w + j);
    TopTop(t.g, X, w, w + j);
    Split(top, j);
    ShlPlus(q, 1, j);
    Pow2Is(j);
    if LenAt(t, X) > w + j {
      Below(t, X, w + j, LenAt(t, X));
    }
  }

  lemma AdequateIs(t: Tab, i: Info)
    requires Fixed(t) && TableOk(t, i) && (i.nb == t.l || forall X :: Holds(t, i, X) ==> LenAt(t, X) <= i.w + i.nb)
    ensures Adequate(t, i)
  {
    hide Holds, LenAt;
  }

  lemma SizeAdequate(t: Tab, w: nat, q: nat, j: nat)
    requires Fixed(t) && GoodSize(t, w, q, j)
    ensures TableOk(t, NewInfo(t, w, q, j)) && Adequate(t, NewInfo(t, w, q, j))
  {
    hide Adequate, LenAt, Top;
    if j < t.l {
      forall X | Holds(t, NewInfo(t, w, q, j), X)
        ensures LenAt(t, X) <= w + j
      {
        NotLonger(t, w, q, j, X);
      }
    }
    AdequateIs(t, NewInfo(t, w, q, j));
  }

  lemma {:induction false} MultipleNext(w: nat, l: nat)
    requires l > 0 && Multiple(w, l)
    ensures Multiple(w + l, l)
  {
  }

  lemma SizedGrows(t: Tab, pool: Pool, info: seq<Info>, w: nat, q: nat, j: nat)
    requires Fixed(t) && Sized(t, pool, info) && GoodSize(t, w, q, j) && Multiple(w, t.l)
    requires if pool == [] then w == 0 && q == 0 else w >= t.l
    ensures Sized(t, pool + [NewSlots(j)], info + [NewInfo(t, w, q, j)])
  {
    hide Adequate, Holds, Multiple, LenAt;
    SizeAdequate(t, w, q, j);
  }

  /** A fresh table that starts at F, not linked yet, disturbs nothing. */
  lemma FilledGrows(t: Tab, pool: Pool, info: seq<Info>, w: nat, q: nat, j: nat, F: nat)
    requires Fixed(t) && Sized(t, pool, info) && FilledTo(t, pool, info, F)
    requires Sized(t, pool + [NewSlots(j)], info + [NewInfo(t, w, q, j)])
    requires w <= t.g && F == Shl(q, t.g - w)
    ensures FilledTo(t, pool + [NewSlots(j)], info + [NewInfo(t, w, q, j)], F)
  {
    var pool', info' := pool + [NewSlots(j)], info + [NewInfo(t, w, q, j)];
    forall id, X | 0 <= id < |pool'| && 0 <= X < F && Holds(t, info'[id], X)
      ensures EntryFor(t, pool', info', id, X)
    {
      if id < |pool| {
        EntryFrame(t, pool, info, pool', info', id, X);
      } else {
        CodePosition(t, w, q, X);
      }
    }
  }

  function LinkSlot(t: Tab, next: nat, i: Info): Slot {
    Huft(16 + i.nb + i.over, t.l, Next(next))
  }

  /** Writing the link to the table that starts at F disturbs no slot used before F. */
  lemma WriteLink(t: Tab, pool: Pool, info: seq<Info>, id: nat, next: nat, F: nat, pool': Pool)
    requires Fixed(t) && Sized(t, pool, info) && FilledTo(t, pool, info, F)
    requires id < next < |pool| && info[id].nb == t.l && info[id].w + t.l == info[next].w
    requires F == Shl(info[next].q, t.g - info[next].w) && info[next].q == Top(t.g, F, info[next].w)
    requires Holds(t, info[id], F) && LenAt(t, F) > info[next].w
    requires var j := IndexOf(t, info[id], F);
             j < |pool[id]| && pool' == pool[id := pool[id][j := LinkSlot(t, next, info[next])]]
    ensures Sized(t, pool', info)
    ensures FilledTo(t, pool', info, F)
    ensures EntryFor(t, pool', info, id, F)
  {
    forall id', X | 0 <= id' < |pool'| && 0 <= X < F && Holds(t, info[id'], X)
      ensures EntryFor(t, pool', info, id', X)
    {
      if id' == id && IndexOf(t, info[id], X) == IndexOf(t, info[id], F) {
        SameSlot(t, info[id], X, F);
        CodePosition(t, info[next].w, info[next].q, X);
      }
      EntryFrame(t, pool, info, pool', info, id', X);
    }
  }

  lemma UntouchedGrows(t: Tab, pool: Pool, info: seq<Info>, i: Info, j: nat)
    requires Fixed(t) && TablesOk(t, pool, info) && Untouched(t, pool, info) && TableOk(t, i)
    ensures Untouched(t, pool + [NewSlots(j)], info + [i])
  {
    var pool', info' := pool + [NewSlots(j)], info + [i];
    forall id, a, X | 0 <= id < |pool'| && UpperSlot(t, pool', info', id, a, X)
      ensures pool'[id][a] == Unset
    {
      if id < |pool| {
        assert UpperSlot(t, pool, info, id, a, X);
      }
    }
  }

  lemma UntouchedLink(t: Tab, pool: Pool, info: seq<Info>, id: nat, k: nat, slot: Slot, pool': Pool)
    requires Fixed(t) && TablesOk(t, pool, info) && Untouched(t, pool, info)
    requires id < |pool| && k < |pool[id]| && k < Pow2(t.l) && pool' == pool[id := pool[id][k := slot]]
    ensures TablesOk(t, pool', info) && Untouched(t, pool', info)
  {
    forall id', a, X | 0 <= id' < |pool'| && UpperSlot(t, pool', info, id', a, X)
      ensures pool'[id'][a] == Unset
    {
      assert UpperSlot(t, pool, info, id', a, X);
    }
  }

  /** Opening the first table. */
  lemma OpenFirst(t: Tab, F: nat, j: nat)
    requires Fixed(t) && F == 0 && GoodSize(t, 0, Top(t.g, F, 0), j)
    ensures Top(t.g, F, 0) == 0
    ensures var pool', info' := [NewSlots(j)], [NewInfo(t, 0, 0, j)];
            Sized(t, pool', info') && FilledTo(t, pool', info', F) && Untouched(t, pool', info')
  {
    LowSmall(F, t.g);
    SizedGrows(t, [], [], 0, 0, j);
    UntouchedGrows(t, [], [], NewInfo(t, 0, 0, j), j);
    assert [] + [NewSlots(j)] == [NewSlots(j)] && [] + [NewInfo(t, 0, 0, j)] == [NewInfo(t, 0, 0, j)];
  }

  /** Opening a table below table id. */
  lemma OpenBelow(t: Tab, pool: Pool, info: seq<Info>, id: nat, F: nat, d: nat, q: nat, j: nat, pool': Pool)
    requires Fixed(t) && Sized(t, pool, info) && FilledTo(t, pool, info, F) && Untouched(t, pool, info)
    requires id < |info| && Holds(t, info[id], F) && info[id].nb == t.l
    requires d == info[id].w + t.l <= t.g && q == Top(t.g, F, d)
    requires LenAt(t, F) > d && F == Shl(q, t.g - d) && GoodSize(t, d, q, j)
    requires var grown := pool + [NewSlots(j)];
             var k := IndexOf(t, info[id], F);
             && k < |pool[id]|
             && pool' == grown[id := grown[id][k := LinkSlot(t, |pool|, NewInfo(t, d, q, j))]]
    ensures var info' := info + [NewInfo(t, d, q, j)];
            && Sized(t, pool', info') && FilledTo(t, pool', info', F) && Untouched(t, pool', info')
            && EntryFor(t, pool', info', id, F)
  {
    hide Adequate, Wide, LenAt, Multiple;
    SizeAdequate(t, d, q, j);
    UntouchedGrows(t, pool, info, NewInfo(t, d, q, j), j);
    RevBound(Top(t.g, F, d), t.l);
    UntouchedLink(t, pool + [NewSlots(j)], info + [NewInfo(t, d, q, j)], id, IndexOf(t, info[id], F),
      LinkSlot(t, |pool|, NewInfo(t, d, q, j)), pool');
    MultipleNext(info[id].w, t.l);
    SizedGrows(t, pool, info, d, q, j);
    FilledGrows(t, pool, info, d, q, j, F);
    WriteLink(t, pool + [NewSlots(j)], info + [NewInfo(t, d, q, j)], id, |pool|, F, pool');
  }

  lemma OpenLinked(t: Tab, pool: Pool, info: seq<Info>, u: seq<nat>, x: seq<nat>, h: int, w: int, F: nat, pool': Pool, info': seq<Info>)
    requires Fixed(t) && TablesOk(t, pool, info) && TablesOk(t, pool', info')
    requires Levels(t, info, u, x, h, w) && 0 <= h < BMAX - 1 && Linked(t, pool, info, u, h, F)
    requires info <= info' && EntryFor(t, pool', info', u[h], F)
    requires forall id :: 0 <= id < |pool| && id != u[h] ==> pool'[id] == pool[id]
    ensures Linked(t, pool', info', u[h + 1 := |pool|], h + 1, F)
  {
    forall a | 0 <= a < h
      ensures EntryFor(t, pool', info', u[a], F)
    {
      LevelsOrdered(t, info, u, x, h, w, a, h);
      EntryFrame(t, pool, info, pool', info', u[a], F);
    }
  }

  lemma OpenLevels(t: Tab, info: seq<Info>, u: seq<nat>, x: seq<nat>, h: int, w: int, F: nat, new_: Info)
    requires Fixed(t) && Levels(t, info, u, x, h, w) && h + 1 < BMAX
    requires 0 <= new_.w == w + t.l < t.g && (h == -1 ==> new_.q == 0)
    ensures Levels(t, info + [new_], u[h + 1 := |info|], x[h + 1 := Rev(new_.q, new_.w)], h + 1, w + t.l)
  {
  }

  lemma OpenPath(t: Tab, info: seq<Info>, u: seq<nat>, h: int, F: nat, new_: Info)
    requires -1 <= h && h + 1 < |u|
    requires OnPath(t, info, u, h, F) && Behind(t, info, u, h, F)
    requires new_.w <= t.g && new_.q == Top(t.g, F, new_.w)
    ensures OnPath(t, info + [new_], u[h + 1 := |info|], h + 1, F)
    ensures Behind(t, info + [new_], u[h + 1 := |info|], h + 1, F)
  {
    assert u[h + 1 := |info|][..h + 2] == u[..h + 1] + [|info|];
  }

  lemma OpenInvFirst(t: Tab, pool: Pool, info: seq<Info>, u: seq<nat>, x: seq<nat>, w: int, F: nat, j: nat, pool': Pool)
    requires Inv(t, pool, info, u, x, -1, w, F) && F < Pow2(t.g)
    requires GoodSize(t, 0, Top(t.g, F, 0), j) && pool' == pool + [NewSlots(j)]
    ensures Inv(t, pool', info + [NewInfo(t, 0, Top(t.g, F, 0), j)], u[0 := |pool|], x, 0, 0, F)
  {
    OpenFirst(t, F, j);
    OpenLevels(t, info, u, x, -1, w, F, NewInfo(t, 0, 0, j));
    OpenPath(t, info, u, -1, F, NewInfo(t, 0, 0, j));
    assert pool == [] && pool' == [NewSlots(j)];
    assert info + [NewInfo(t, 0, 0, j)] == [NewInfo(t, 0, 0, j)];
    assert x[0 := 0] == x;
  }

  lemma TopEntry(t: Tab, pool: Pool, info: seq<Info>, u: seq<nat>, h: int, F: nat)
    requires Fixed(t) && Sized(t, pool, info) && OnPath(t, info, u, h, F) && 0 <= h && F < Pow2(t.g)
    ensures TableOk(t, info[u[h]]) && Holds(t, info[u[h]], F)
  {
  }

  lemma InvParts(t: Tab, pool: Pool, info: seq<Info>, u: seq<nat>, x: seq<nat>, h: int, w: int, F: nat)
    requires Inv(t, pool, info, u, x, h, w, F) && F < Pow2(t.g)
    ensures Fixed(t) && Levels(t, info, u, x, h, w) && Sized(t, pool, info) && TablesOk(t, pool, info)
    ensures FilledTo(t, pool, info, F) && Untouched(t, pool, info)
    ensures Behind(t, info, u, h, F) && OnPath(t, info, u, h, F) && Linked(t, pool, info, u, h, F)
    ensures |pool| == |info| && |u| == BMAX && |x| == BMAX + 1 && 1 <= t.g <= BMAX && t.l >= 1
  {
    hide FilledTo, Untouched, Behind, OnPath, Linked;
  }

  lemma InvOf(t: Tab, pool: Pool, info: seq<Info>, u: seq<nat>, x: seq<nat>, h: int, w: int, F: nat)
    requires Fixed(t) && TablesOk(t, pool, info) && Levels(t, info, u, x, h, w) && Sized(t, pool, info)
    requires FilledTo(t, pool, info, F) && Untouched(t, pool, info) && F < Pow2(t.g) && h >= 0 && LenAt(t, F) > w
    requires Behind(t, info, u, h, F) && OnPath(t, info, u, h, F) && Linked(t, pool, info, u, h, F)
    ensures Inv(t, pool, info, u, x, h, w, F)
  {
    hide FilledTo, Untouched, Behind, OnPath, Linked, Levels, Sized, TablesOk, Fixed;
  }

  lemma SizedTables(t: Tab, pool: Pool, info: seq<Info>)
    requires Fixed(t) && Sized(t, pool, info)
    ensures TablesOk(t, pool, info) && |pool| == |info|
  {
  }

  lemma NewLink(t: Tab, d: nat, q: nat, j: nat, next: nat)
    ensures NewInfo(t, d, q, j).w == d && NewInfo(t, d, q, j).q == q
    ensures LinkSlot(t, next, NewInfo(t, d, q, j)) == Huft(16 + j, t.l, Next(next))
  {
  }

  lemma LevelTop(t: Tab, info: seq<Info>, u: seq<nat>, x: seq<nat>, h: int, w: int)
    requires Fixed(t) && Levels(t, info, u, x, h, w) && 0 <= h < BMAX
    ensures u[h] < |info| && info[u[h]].w == w
  {
  }

  lemma OpenInvBelow(t: Tab, pool: Pool, info: seq<Info>, u: seq<nat>, x: seq<nat>, h: int, w: int, F: nat, d: nat, q: nat, j: nat, pool': Pool)
    requires Inv(t, pool, info, u, x, h, w, F) && F < Pow2(t.g) && 0 <= h < BMAX - 1
    requires d == w + t.l < LenAt(t, F) && q == Top(t.g, F, d) && F == Shl(q, t.g - d)
    requires GoodSize(t, d, q, j) && info[u[h]].nb == t.l
    requires var grown := pool + [NewSlots(j)];
             var k := IndexOf(t, info[u[h]], F);
             && k < |pool[u[h]]|
             && pool' == grown[u[h] := grown[u[h]][k := Huft(16 + j, t.l, Next(|pool|))]]
    ensures Inv(t, pool', info + [NewInfo(t, d, q, j)], u[h + 1 := |pool|], x[h + 1 := Rev(q, d)], h + 1, d, F)
  {
    hide *;
    InvParts(t, pool, info, u, x, h, w, F);
    TopEntry(t, pool, info, u, h, F);
    var new_ := NewInfo(t, d, q, j);
    NewLink(t, d, q, j, |pool|);
    LevelTop(t, info, u, x, h, w);
    OpenBelow(t, pool, info, u[h], F, d, q, j, pool');
    SizedTables(t, pool, info);
    SizedTables(t, pool', info + [new_]);
    OpenLinked(t, pool, info, u, x, h, w, F, pool', info + [new_]);
    OpenLevels(t, info, u, x, h, w, F, new_);
    OpenPath(t, info, u, h, F, new_);
    InvOf(t, pool', info + [new_], u[h + 1 := |pool|], x[h + 1 := Rev(q, d)], h + 1, d, F);
  }

  /** At the first position of a prefix, the reversed code is the reversed prefix. */
  lemma FirstReversed(t: Tab, d: nat, k: nat, F: nat)
    requires Fixed(t) && d < k <= t.g && F == Shl(Top(t.g, F, d), t.g - d)
    ensures Rev(Top(t.g, F, k), k) == Rev(Top(t.g, F, d), d)
  {
    var q := Top(t.g, F, d);
    ShlAdd(q, k - d, t.g - k);
    assert (k - d) + (t.g - k) == t.g - d;
    CodePosition(t, k, Shl(q, k - d), F);
    RevShl(q, d, k - d);
  }

  // ----- filling in a code

  /** The low bits of an index are the reversed code bits the table looks at. */
  lemma LowIndex(t: Tab, i: Info, X: nat, k: nat)
    requires i.w < k <= i.w + i.nb <= t.g
    ensures Low(IndexOf(t, i, X), k - i.w) == Rev(Top(t.g, X, k), k - i.w)
  {
    var m, d := k - i.w, i.w + i.nb;
    RevParts(Top(t.g, X, d), i.nb - m, m);
    TopTop(t.g, X, k, d);
  }

  /** A position before the code at F that the table holds does not select a slot of it. */
  lemma OtherCode(t: Tab, i: Info, X: nat, F: nat, k: nat)
    requires Fixed(t) && i.w < k <= i.w + i.nb <= t.g
    requires Top(t.g, X, i.w) == Top(t.g, F, i.w) && Top(t.g, X, k) != Top(t.g, F, k)
    ensures Low(IndexOf(t, i, X), k - i.w) != Rev(Top(t.g, F, k), k - i.w)
  {
    LowIndex(t, i, X, k);
    var a, b, m := Top(t.g, X, k), Top(t.g, F, k), k - i.w;
    if Rev(a, m) == Rev(b, m) {
      RevInjective(a, b, m);
      TopTop(t.g, X, i.w, k);
      TopTop(t.g, F, i.w, k);
      Split(a, m);
      Split(b, m);
    }
  }

  /** The slots after the loop that stores r in every f-th slot, f == 1 << m. */
  ghost predicate Filled(slots: seq<Slot>, slots': seq<Slot>, r: Slot, first: nat, m: nat) {
    && |slots'| == |slots|
    && forall j :: 0 <= j < |slots| ==> slots'[j] == if Low(j, m) == first then r else slots[j]
  }

  ghost predicate AtCode(t: Tab, F: nat, k: nat, code: nat)
    requires Fixed(t)
  {
    && F < Pow2(t.g) && k == LenAt(t, F) && code == Top(t.g, F, k) && F == Shl(code, t.g - k)
  }

  lemma Covers(t: Tab, i: Info, F: nat)
    requires Fixed(t) && TableOk(t, i) && Adequate(t, i) && Holds(t, i, F) && LenAt(t, F) <= i.w + t.l
    ensures LenAt(t, F) <= i.w + i.nb
  {
  }

  /** The table that holds the code, for positions up to the end of the code. */
  lemma FillTop(t: Tab, pool: Pool, info: seq<Info>, id: nat, F: nat, k: nat, code: nat, r: Slot, pool': Pool, X: nat)
    requires Fixed(t) && Sized(t, pool, info) && AtCode(t, F, k, code)
    requires id < |info| && Holds(t, info[id], F) && info[id].w < k <= info[id].w + t.l
    requires TablesOk(t, pool', info) && |pool'[id]| == |pool[id]| && LeafAt(t, r, k, code, info[id].w)
    requires Filled(pool[id], pool'[id], r, Rev(code, k - info[id].w), k - info[id].w)
    requires Holds(t, info[id], X) && X < Shl(code + 1, t.g - k)
    requires X < F ==> EntryFor(t, pool, info, id, X)
    ensures EntryFor(t, pool', info, id, X)
  {
    Covers(t, info[id], F);
    CodePosition(t, k, code, X);
    if X < F {
      OtherCode(t, info[id], X, F, k);
      EntryFrame(t, pool, info, pool', info, id, X);
    } else {
      FillSlot(t, pool, info, id, k, code, r, pool', X);
    }
  }

  lemma FillSlot(t: Tab, pool: Pool, info: seq<Info>, id: nat, k: nat, code: nat, r: Slot, pool': Pool, X: nat)
    requires Fixed(t) && TablesOk(t, pool, info) && TablesOk(t, pool', info) && id < |info|
    requires |pool'[id]| == |pool[id]| == Pow2(info[id].nb + info[id].over)
    requires info[id].w < k <= info[id].w + info[id].nb && LeafAt(t, r, k, code, info[id].w)
    requires Filled(pool[id], pool'[id], r, Rev(code, k - info[id].w), k - info[id].w)
    requires X < Pow2(t.g) && Top(t.g, X, k) == code && First(t.c, k) <= code < End(t.c, k)
    ensures EntryFor(t, pool', info, id, X)
  {
    LenIs(t, X, k);
    LowIndex(t, info[id], X, k);
    RevBound(Top(t.g, X, info[id].w + info[id].nb), info[id].nb);
    Pow2Mono(info[id].nb, info[id].nb + info[id].over);
  }

  /** Tables above it on the stack: all positions of the code take the same link. */
  lemma FillStack(t: Tab, pool: Pool, info: seq<Info>, id: nat, F: nat, k: nat, code: nat, X: nat)
    requires Fixed(t) && TablesOk(t, pool, info) && AtCode(t, F, k, code)
    requires id < |info| && info[id].w + t.l < k && EntryFor(t, pool, info, id, F)
    requires F <= X < Shl(code + 1, t.g - k)
    ensures EntryFor(t, pool, info, id, X)
  {
    var d := info[id].w + info[id].nb;
    CodePosition(t, k, code, X);
    LenIs(t, X, k);
    TopTop(t.g, X, d, k);
    TopTop(t.g, F, d, k);
    Transfer(t, pool, info, id, F, X);
  }

  lemma FillSized(t: Tab, pool: Pool, info: seq<Info>, pool': Pool)
    requires Fixed(t) && Sized(t, pool, info) && |pool'| == |pool|
    requires forall id :: 0 <= id < |pool| ==> |pool'[id]| == |pool[id]|
    ensures Sized(t, pool', info)
  {
  }

  /** A leaf is stored in slots of its own code only. */
  lemma FillUntouched(t: Tab, pool: Pool, info: seq<Info>, id: nat, F: nat, k: nat, code: nat, r: Slot, pool': Pool)
    requires Fixed(t) && TablesOk(t, pool, info) && Untouched(t, pool, info) && AtCode(t, F, k, code)
    requires id < |info| && info[id].w < k <= info[id].w + t.l && Holds(t, info[id], F)
    requires |pool'| == |pool| && pool' == pool[id := pool'[id]]
    requires Filled(pool[id], pool'[id], r, Rev(code, k - info[id].w), k - info[id].w)
    ensures TablesOk(t, pool', info) && Untouched(t, pool', info)
  {
    forall id', a, X | 0 <= id' < |pool'| && UpperSlot(t, pool', info, id', a, X)
      ensures pool'[id'][a] == Unset
    {
      assert UpperSlot(t, pool, info, id', a, X);
      if id' == id {
        if Top(t.g, X, k) == code {
          LenIs(t, X, k);
        }
        OtherCode(t, info[id], X, F, k);
        LowLow(a, t.l, k - info[id].w);
      }
    }
  }

  lemma FillFilled(t: Tab, pool: Pool, info: seq<Info>, u: seq<nat>, x: seq<nat>, h: int, w: int, F: nat, k: nat, code: nat, r: Slot, pool': Pool)
    requires Inv(t, pool, info, u, x, h, w, F) && AtCode(t, F, k, code) && h >= 0 && w < k <= w + t.l
    requires |pool'| == |pool| && pool' == pool[u[h] := pool'[u[h]]] && LeafAt(t, r, k, code, w)
    requires Filled(pool[u[h]], pool'[u[h]], r, Rev(code, k - w), k - w)
    ensures Sized(t, pool', info) && FilledTo(t, pool', info, Shl(code + 1, t.g - k))
  {
    hide EntryFor, LeafAt, LenAt;
    FillSized(t, pool, info, pool');
    forall id, X | 0 <= id < |pool'| && 0 <= X < Shl(code + 1, t.g - k) && Holds(t, info[id], X)
      ensures EntryFor(t, pool', info, id, X)
    {
      if id == u[h] {
        FillTop(t, pool, info, id, F, k, code, r, pool', X);
      } else {
        FillOther(t, pool, info, u, x, h, w, F, k, code, id, X);
        EntryFrame(t, pool, info, pool', info, id, X);
      }
    }
  }

  lemma FillOther(t: Tab, pool: Pool, info: seq<Info>, u: seq<nat>, x: seq<nat>, h: int, w: int, F: nat, k: nat, code: nat, id: nat, X: nat)
    requires Inv(t, pool, info, u, x, h, w, F) && AtCode(t, F, k, code) && h >= 0 && w < k <= w + t.l
    requires id < |pool| && id != u[h] && X < Shl(code + 1, t.g - k) && Holds(t, info[id], X)
    ensures EntryFor(t, pool, info, id, X)
  {
    if X >= F {
      var a := OnStack(t, info, u, x, h, w, F, id, X);
      FillStack(t, pool, info, id, F, k, code, X);
    }
  }

  lemma OnStack(t: Tab, info: seq<Info>, u: seq<nat>, x: seq<nat>, h: int, w: int, F: nat, id: nat, X: nat) returns (a: nat)
    requires Fixed(t) && Levels(t, info, u, x, h, w) && Behind(t, info, u, h, F)
    requires 0 <= h && id < |info| && id != u[h] && info[id].w <= t.g && Holds(t, info[id], X) && F <= X
    ensures a < h && u[a] == id && info[id].w + t.l <= w
  {
    ShrMono(F, X, t.g - info[id].w);
    assert id in u[..h + 1];
    a :| 0 <= a <= h && u[a] == id;
    LevelsOrdered(t, info, u, x, h, w, a, h);
  }

  // ----- backing up over finished tables

  /** The low w bits of the reversed code, compared with x[h], tell whether the position is
      still inside the table. */
  lemma InsideTable(t: Tab, i: Info, k: nat, code: nat, F: nat)
    requires Fixed(t) && i.w <= k <= t.g && F == Shl(code, t.g - k) && i.q < Pow2(i.w)
    ensures Low(Rev(code, k), i.w) == Rev(i.q, i.w) <==> Low(Top(t.g, F, i.w), i.w) == i.q
    ensures F < Pow2(t.g) ==> Low(Top(t.g, F, i.w), i.w) == Top(t.g, F, i.w)
  {
    RevParts(code, k - i.w, i.w);
    CodePosition(t, k, code, F);
    TopTop(t.g, F, i.w, k);
    LowSmall(i.q, i.w);
    if Rev(Top(t.g, F, i.w), i.w) == Rev(i.q, i.w) {
      RevInjective(Top(t.g, F, i.w), i.q, i.w);
    }
    RevLow(Top(t.g, F, i.w), i.w, i.w);
    if F < Pow2(t.g) {
      TopBound(t.g, F, i.w);
      LowSmall(Top(t.g, F, i.w), i.w);
    }
  }

  /** Leaving a table that the new position F' has left behind. */
  lemma PopBehind(t: Tab, info: seq<Info>, u: seq<nat>, h: int, F: nat, F': nat)
    requires Fixed(t) && 0 <= h && OnPath(t, info, u, h, F) && Behind(t, info, u, h, F')
    requires F <= F' && Top(t.g, F', info[u[h]].w) != info[u[h]].q
    ensures Behind(t, info, u, h - 1, F')
  {
    ShrMono(F, F', t.g - info[u[h]].w);
    assert u[..h + 1] == u[..h] + [u[h]];
  }

  lemma BehindMono(t: Tab, info: seq<Info>, u: seq<nat>, h: int, F: nat, F': nat)
    requires Behind(t, info, u, h, F) && F <= F'
    ensures Behind(t, info, u, h, F')
  {
    forall id | 0 <= id < |info| && id !in u[..h + 1]
      ensures info[id].w <= t.g && info[id].q < Top(t.g, F', info[id].w)
    {
      ShrMono(F, F', t.g - info[id].w);
    }
  }

  /** If the table on top holds both positions, so do all tables above it on the stack. */
  lemma StillOnPath(t: Tab, info: seq<Info>, u: seq<nat>, x: seq<nat>, h: int, w: int, F: nat, F': nat)
    requires Fixed(t) && Levels(t, info, u, x, h, w) && OnPath(t, info, u, h, F) && h >= 0
    requires Top(t.g, F', w) == Top(t.g, F, w)
    ensures OnPath(t, info, u, h, F')
  {
    forall a | 0 <= a <= h
      ensures Top(t.g, F', info[u[a]].w) == info[u[a]].q
    {
      if a < h {
        LevelsOrdered(t, info, u, x, h, w, a, h);
      }
      TopTop(t.g, F, info[u[a]].w, w);
      TopTop(t.g, F', info[u[a]].w, w);
    }
  }

  lemma StillLinked(t: Tab, pool: Pool, info: seq<Info>, u: seq<nat>, x: seq<nat>, h: int, w: int, F: nat, F': nat)
    requires Fixed(t) && TablesOk(t, pool, info) && Levels(t, info, u, x, h, w) && OnPath(t, info, u, h, F) && h >= 0
    requires F < F' < Pow2(t.g) && FilledTo(t, pool, info, F') && LenAt(t, F) > w && Top(t.g, F', w) == Top(t.g, F, w)
    ensures Linked(t, pool, info, u, h, F')
  {
    LenMono(t, F, F');
    forall a | 0 <= a < h
      ensures EntryFor(t, pool, info, u[a], F')
    {
      LevelsOrdered(t, info, u, x, h, w, a, h);
      assert Holds(t, info[u[a]], F) && EntryFor(t, pool, info, u[a], F);
      var d := info[u[a]].w + info[u[a]].nb;
      TopTop(t.g, F, d, w);
      TopTop(t.g, F', d, w);
      Transfer(t, pool, info, u[a], F, F');
    }
  }

  /** The code at F has been filled in; the next position is F', and tables that end there
      are still to be taken off the stack. */
  ghost predicate Leaving(t: Tab, pool: Pool, info: seq<Info>, u: seq<nat>, x: seq<nat>, h: int, w: int, F: nat, F': nat) {
    && Fixed(t) && h >= 0
    && Levels(t, info, u, x, h, w)
    && Sized(t, pool, info)
    && F < F' <= Pow2(t.g) && LenAt(t, F) > w
    && FilledTo(t, pool, info, F')
    && Untouched(t, pool, info)
    && OnPath(t, info, u, h, F)
    && Behind(t, info, u, h, F')
  }

  lemma StartLeaving(t: Tab, pool: Pool, info: seq<Info>, u: seq<nat>, x: seq<nat>, h: int, w: int, F: nat, k: nat, code: nat, r: Slot, pool': Pool)
    requires Inv(t, pool, info, u, x, h, w, F) && AtCode(t, F, k, code) && h >= 0 && w < k <= w + t.l
    requires |pool'| == |pool| && pool' == pool[u[h] := pool'[u[h]]] && LeafAt(t, r, k, code, w)
    requires Filled(pool[u[h]], pool'[u[h]], r, Rev(code, k - w), k - w)
    ensures Leaving(t, pool', info, u, x, h, w, F, Shl(code + 1, t.g - k))
  {
    hide EntryFor, LeafAt, LenAt, FilledTo, Untouched, Linked, Adequate;
    CodeOnTop(t, pool, info, u, x, h, w, F, k, code);
    FillFilled(t, pool, info, u, x, h, w, F, k, code, r, pool');
    FillUntouched(t, pool, info, u[h], F, k, code, r, pool');
    NextPosition(t, F, k, code);
    BehindMono(t, info, u, h, F, Shl(code + 1, t.g - k));
  }

  lemma CodeOnTop(t: Tab, pool: Pool, info: seq<Info>, u: seq<nat>, x: seq<nat>, h: int, w: int, F: nat, k: nat, code: nat)
    requires Inv(t, pool, info, u, x, h, w, F) && AtCode(t, F, k, code) && h >= 0 && w < k
    ensures Holds(t, info[u[h]], F) && LenAt(t, F) > w
  {
  }

  lemma NextPosition(t: Tab, F: nat, k: nat, code: nat)
    requires Fixed(t) && AtCode(t, F, k, code)
    ensures F < Shl(code + 1, t.g - k) <= Pow2(t.g)
  {
    TopBound(t.g, F, k);
    CodePosition(t, k, code, F);
  }

  lemma Pop(t: Tab, pool: Pool, info: seq<Info>, u: seq<nat>, x: seq<nat>, h: int, w: int, F: nat, F': nat, k: nat, code: nat)
    requires Leaving(t, pool, info, u, x, h, w, F, F')
    requires w < k <= t.g && F' == Shl(code, t.g - k) && w >= 0 && Low(Rev(code, k), w) != x[h]
    ensures h > 0 && w >= t.l && Leaving(t, pool, info, u, x, h - 1, w - t.l, F, F')
  {
    TopBound(t.g, F, w);
    InsideTable(t, info[u[h]], k, code, F');
    if Top(t.g, F', w) == info[u[h]].q {
      LowSmall(info[u[h]].q, w);
    }
    PopBehind(t, info, u, h, F, F');
  }

  lemma Arrive(t: Tab, pool: Pool, info: seq<Info>, u: seq<nat>, x: seq<nat>, h: int, w: int, F: nat, F': nat, k: nat, code: nat)
    requires Leaving(t, pool, info, u, x, h, w, F, F')
    requires w < k <= t.g && F' == Shl(code, t.g - k) && w >= 0 && Low(Rev(code, k), w) == x[h]
    ensures Inv(t, pool, info, u, x, h, w, F')
  {
    if F' < Pow2(t.g) {
      TopBound(t.g, F, w);
      InsideTable(t, info[u[h]], k, code, F');
      LenMono(t, F, F');
      StillOnPath(t, info, u, x, h, w, F, F');
      StillLinked(t, pool, info, u, x, h, w, F, F');
    }
  }
}
