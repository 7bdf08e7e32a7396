// The kernel heap as the row of blocks that fills memory on both sides of the hole.
module HeapSpec {
  /** A block: the address of its 16-byte header, the bytes behind the header, and whether it is free. */
  datatype Block = Block(addr: int, size: int, free: bool)

  /** Memory is [lo, hi) without the hole [hs, he). */
  datatype Layout = Layout(lo: int, hs: int, he: int, hi: int)

  const HEADER: int := 16
  const PAGE_SIZE: int := 16

  predicate Sound(l: Layout) {
    && 0 <= l.lo && l.lo + HEADER <= l.hs < l.he && l.he + HEADER <= l.hi
    && l.lo % PAGE_SIZE == 0 && l.hs % PAGE_SIZE == 0 && l.he % PAGE_SIZE == 0 && l.hi % PAGE_SIZE == 0
  }

  /** roundUpMemoryAddress */
  function RoundUp(x: nat): (r: int)
    ensures x <= r < x + PAGE_SIZE && r % PAGE_SIZE == 0
  {
    if x % PAGE_SIZE != 0 then x + (PAGE_SIZE - x % PAGE_SIZE) else x
  }

  function End(b: Block): int {
    b.addr + HEADER + b.size
  }

  // ----- tiling

  /** Where memory goes on. */
  function Skip(l: Layout, x: int): int {
    if x == l.hs then l.he else x
  }

  function Reach(l: Layout, t: seq<Block>, from: int): int
    decreases |t|
  {
    if t == [] then from else Reach(l, t[1..], Skip(l, End(t[0])))
  }

  /** The blocks follow each other without a gap, each on one side of the hole. */
  ghost predicate Chain(l: Layout, t: seq<Block>, from: int)
    decreases |t|
  {
    t == [] ||
    (&& t[0].addr == from && t[0].size >= 0 && t[0].size % PAGE_SIZE == 0 && from % PAGE_SIZE == 0
     && (End(t[0]) <= l.hs || l.he <= from)
     && Chain(l, t[1..], Skip(l, End(t[0]))))
  }

  ghost predicate Tiled(l: Layout, t: seq<Block>) {
    Chain(l, t, l.lo) && Reach(l, t, l.lo) == l.hi
  }

  /** No two free blocks touch. */
  ghost predicate Coalesced(t: seq<Block>) {
    forall i, j :: 0 <= i && j == i + 1 && j < |t| && t[i].free && t[j].free ==> End(t[i]) != t[j].addr
  }

  lemma {:induction false} ChainAppend(l: Layout, a: seq<Block>, b: seq<Block>, from: int)
    ensures Chain(l, a + b, from) <==> Chain(l, a, from) && Chain(l, b, Reach(l, a, from))
    ensures Reach(l, a + b, from) == Reach(l, b, Reach(l, a, from))
    decreases |a|
  {
    if a == [] {
      assert a + b == b;
    } else {
      assert (a + b)[0] == a[0] && (a + b)[1..] == a[1..] + b;
      ChainAppend(l, a[1..], b, Skip(l, End(a[0])));
    }
  }

  lemma {:induction false} ChainBound(l: Layout, t: seq<Block>, from: int)
    requires Sound(l) && Chain(l, t, from)
    ensures Reach(l, t, from) >= from && forall i :: 0 <= i < |t| ==> from <= t[i].addr && End(t[i]) <= Reach(l, t, from)
    decreases |t|
  {
    if t == [] {
    } else {
      ChainBound(l, t[1..], Skip(l, End(t[0])));
      forall i | 0 <= i < |t|
        ensures from <= t[i].addr && End(t[i]) <= Reach(l, t, from)
      {
        if i > 0 {
          assert t[i] == t[1..][i - 1];
        }
      }
    }
  }

  /** Blocks lie in the order of their addresses and do not overlap. */
  lemma {:induction false} ChainOrder(l: Layout, t: seq<Block>, from: int, i: int, j: int)
    requires Sound(l) && Chain(l, t, from) && 0 <= i < j < |t|
    ensures End(t[i]) <= t[j].addr && t[i].addr + HEADER <= End(t[i])
    decreases |t|
  {
    if i == 0 {
      ChainBound(l, t[1..], Skip(l, End(t[0])));
      assert t[j] == t[1..][j - 1];
    } else {
      ChainOrder(l, t[1..], Skip(l, End(t[0])), i - 1, j - 1);
    }
  }

  /** What the chain says of one block. */
  lemma {:induction false} ChainAt(l: Layout, t: seq<Block>, from: int, i: int)
    requires Sound(l) && Chain(l, t, from) && 0 <= i < |t|
    ensures t[i].size >= 0 && t[i].size % PAGE_SIZE == 0 && t[i].addr % PAGE_SIZE == 0 && t[i].addr >= from
    ensures End(t[i]) <= l.hs || l.he <= t[i].addr
    decreases |t|
  {
    if i <= 0 {
    } else {
      ChainAt(l, t[1..], Skip(l, End(t[0])), i - 1);
    }
  }

  ghost predicate Holds(b: Block, x: int) {
    b.addr <= x < End(b)
  }

  /** Every address of memory is in exactly one block, and none of the hole is in any. */
  lemma {:induction false} CoveredOnce(l: Layout, t: seq<Block>, from: int, x: int)
    requires Sound(l) && Chain(l, t, from) && from <= x < Reach(l, t, from)
    ensures (l.hs <= x < l.he) || exists i :: 0 <= i < |t| && Holds(t[i], x)
    ensures forall i :: 0 <= i < |t| && Holds(t[i], x) ==> !(l.hs <= x < l.he)
    ensures forall i, j :: 0 <= i < j < |t| && Holds(t[i], x) ==> !Holds(t[j], x)
    decreases |t|
  {
    var next := Skip(l, End(t[0]));
    forall i, j | 0 <= i < j < |t| && Holds(t[i], x)
      ensures !Holds(t[j], x)
    {
      ChainOrder(l, t, from, i, j);
    }
    forall i | 0 <= i < |t| && Holds(t[i], x)
      ensures !(l.hs <= x < l.he)
    {
      ChainAt(l, t, from, i);
    }
    if x < End(t[0]) {
      assert Holds(t[0], x);
    } else if x >= next {
      CoveredOnce(l, t[1..], next, x);
      if !(l.hs <= x < l.he) {
        var i :| 0 <= i < |t[1..]| && Holds(t[1..][i], x);
        assert Holds(t[i + 1], x);
      }
    }
  }

  // ----- the operations

  /** The lowest free block of at least n bytes, or |t|. */
  function FirstFit(t: seq<Block>, n: nat): (i: nat)
    ensures i <= |t| && (i < |t| ==> t[i].free && t[i].size >= n)
  {
    if t == [] || (t[0].free && t[0].size >= n) then 0 else 1 + FirstFit(t[1..], n)
  }

  lemma {:induction false} FirstFitLowest(t: seq<Block>, n: nat, j: nat)
    requires j < FirstFit(t, n)
    ensures j < |t| && !(t[j].free && t[j].size >= n)
  {
    if j == 0 {
    } else {
      FirstFitLowest(t[1..], n, j - 1);
    }
  }

  /** Block i gives up its front for n bytes and keeps the rest, with a header of its own. */
  function Split(t: seq<Block>, i: nat, n: nat): seq<Block>
    requires i < |t|
  {
    t[..i] + [Block(t[i].addr, RoundUp(n), false),
              Block(t[i].addr + HEADER + RoundUp(n), t[i].size - (HEADER + RoundUp(n)), true)] + t[i + 1..]
  }

  function SetFree(t: seq<Block>, i: nat): seq<Block>
    requires i < |t|
  {
    t[i := t[i].(free := true)]
  }

  predicate Mergeable(t: seq<Block>, i: nat) {
    i + 1 < |t| && t[i].free && t[i + 1].free && End(t[i]) == t[i + 1].addr
  }

  /** checkAndMergeMemHeaders on blocks i and i + 1 */
  function Merge(t: seq<Block>, i: nat): seq<Block> {
    if Mergeable(t, i) then t[..i] + [Block(t[i].addr, t[i].size + HEADER + t[i + 1].size, true)] + t[i + 2..] else t
  }

  /** kfree of block i */
  function Free(t: seq<Block>, i: nat): seq<Block>
    requires i < |t|
  {
    var s := SetFree(t, i);
    if i > 0 && Mergeable(s, i - 1) then Merge(Merge(s, i - 1), i - 1) else Merge(s, i)
  }

  // ----- what they keep

  /** One block may be replaced by others that fill the same memory. */
  lemma Replace(l: Layout, a: seq<Block>, m: seq<Block>, m': seq<Block>, b: seq<Block>)
    requires Tiled(l, a + m + b)
    requires Chain(l, m, Reach(l, a, l.lo)) ==>
      Chain(l, m', Reach(l, a, l.lo)) && Reach(l, m', Reach(l, a, l.lo)) == Reach(l, m, Reach(l, a, l.lo))
    ensures Tiled(l, a + m' + b) && Chain(l, m, Reach(l, a, l.lo))
  {
    ChainAppend(l, a + m, b, l.lo);
    ChainAppend(l, a, m, l.lo);
    ChainAppend(l, a + m', b, l.lo);
    ChainAppend(l, a, m', l.lo);
  }

  lemma Chain1(l: Layout, b: Block, from: int)
    ensures Reach(l, [b], from) == Skip(l, End(b))
    ensures Chain(l, [b], from) <==>
      (b.addr == from && b.size >= 0 && b.size % PAGE_SIZE == 0 && from % PAGE_SIZE == 0 && (End(b) <= l.hs || l.he <= from))
  {
    assert [b][1..] == [];
  }

  lemma Chain2(l: Layout, b: Block, c: Block, from: int)
    ensures Reach(l, [b, c], from) == Skip(l, End(c))
    ensures Chain(l, [b, c], from) <==> Chain(l, [b], from) && Chain(l, [c], Skip(l, End(b)))
  {
    assert [b, c] == [b] + [c];
    ChainAppend(l, [b], [c], from);
    Chain1(l, b, from);
    Chain1(l, c, Skip(l, End(b)));
  }

  lemma OneAsTwo(l: Layout, b: Block, c: Block, d: Block, from: int)
    requires Sound(l) && Chain(l, [b], from) && c.addr == b.addr && c.size >= 0 && c.size % PAGE_SIZE == 0
    requires d.addr == End(c) && d.size >= 0 && End(d) == End(b)
    ensures Chain(l, [c, d], from) && Reach(l, [c, d], from) == Reach(l, [b], from)
  {
    hide Chain, Reach;
    Chain1(l, b, from);
    Chain1(l, c, from);
    Chain1(l, d, End(c));
    Chain2(l, c, d, from);
    Aligned(b.size, c.size);
    Aligned(b.size - c.size, -HEADER);
    Aligned(from, c.size);
  }

  lemma SplitTiles(l: Layout, t: seq<Block>, i: nat, n: nat)
    requires Sound(l) && Tiled(l, t) && i < |t| && t[i].size >= HEADER + RoundUp(n)
    ensures Tiled(l, Split(t, i, n))
  {
    var b := t[i];
    var c := Block(b.addr, RoundUp(n), false);
    var d := Block(b.addr + HEADER + RoundUp(n), b.size - (HEADER + RoundUp(n)), true);
    assert t == t[..i] + [b] + t[i + 1..];
    var from := Reach(l, t[..i], l.lo);
    hide Chain, Reach, Tiled, RoundUp;
    if Chain(l, [b], from) {
      OneAsTwo(l, b, c, d, from);
    }
    Replace(l, t[..i], [b], [c, d], t[i + 1..]);
  }

  /** A block too small for the rest's header cannot be split like this. */
  lemma SplitNeedsRoom(l: Layout, t: seq<Block>, i: nat, n: nat)
    requires Sound(l) && Tiled(l, t) && i < |t|
    ensures Tiled(l, Split(t, i, n)) <==> t[i].size >= HEADER + RoundUp(n)
  {
    if t[i].size >= HEADER + RoundUp(n) {
      SplitTiles(l, t, i, n);
    } else if Tiled(l, Split(t, i, n)) {
      ChainAt(l, Split(t, i, n), l.lo, i + 1);
      assert false;
    }
  }

  lemma SetFreeTiles(l: Layout, t: seq<Block>, i: nat)
    requires Tiled(l, t) && i < |t|
    ensures Tiled(l, SetFree(t, i))
  {
    var b := t[i];
    var c := b.(free := true);
    assert t == t[..i] + [b] + t[i + 1..];
    assert SetFree(t, i) == t[..i] + [c] + t[i + 1..];
    var from := Reach(l, t[..i], l.lo);
    Chain1(l, b, from);
    Chain1(l, c, from);
    Replace(l, t[..i], [b], [c], t[i + 1..]);
  }

  lemma Aligned(x: int, y: int)
    requires x % PAGE_SIZE == 0 && y % PAGE_SIZE == 0
    ensures (x + y) % PAGE_SIZE == 0 && (x - y) % PAGE_SIZE == 0 && (x + HEADER + y) % PAGE_SIZE == 0
  {
    var i, j := x / 16, y / 16;
    assert x == 16 * i && y == 16 * j;
    assert x + y == 16 * (i + j) && x - y == 16 * (i - j) && x + HEADER + y == 16 * (i + j + 1);
  }

  lemma TwoAsOne(l: Layout, b: Block, c: Block, from: int)
    requires Sound(l) && Chain(l, [b, c], from) && End(b) == c.addr
    ensures var d := Block(b.addr, b.size + HEADER + c.size, true);
      Chain(l, [d], from) && Reach(l, [d], from) == Reach(l, [b, c], from)
  {
    var d := Block(b.addr, b.size + HEADER + c.size, true);
    Chain2(l, b, c, from);
    Chain1(l, b, from);
    Chain1(l, c, Skip(l, End(b)));
    Chain1(l, d, from);
    hide Chain, Reach;
    Aligned(b.size, c.size);
    assert End(d) == End(c);
    assert End(b) != l.hs;
  }

  lemma MergeTiles(l: Layout, t: seq<Block>, i: nat)
    requires Sound(l) && Tiled(l, t)
    ensures Tiled(l, Merge(t, i))
  {
    if Mergeable(t, i) {
      var b, c := t[i], t[i + 1];
      assert t == t[..i] + [b, c] + t[i + 2..];
      var from := Reach(l, t[..i], l.lo);
      hide Chain, Reach, Tiled;
      if Chain(l, [b, c], from) {
        TwoAsOne(l, b, c, from);
      }
      Replace(l, t[..i], [b, c], [Block(b.addr, b.size + HEADER + c.size, true)], t[i + 2..]);
    }
  }

  /** Only at i can free blocks touch. */
  ghost predicate CoalescedBut(t: seq<Block>, i: int) {
    forall j, k :: 0 <= j && k == j + 1 && k < |t| && j != i && t[j].free && t[k].free ==> End(t[j]) != t[k].addr
  }

  lemma FreeKeeps(l: Layout, t: seq<Block>, i: nat)
    requires Sound(l) && Tiled(l, t) && Coalesced(t) && i < |t|
    ensures Tiled(l, Free(t, i)) && Coalesced(Free(t, i))
  {
    var s := SetFree(t, i);
    SetFreeTiles(l, t, i);
    if i > 0 && Mergeable(s, i - 1) {
      MergeTiles(l, s, i - 1);
      MergeTiles(l, Merge(s, i - 1), i - 1);
      LeftMerged(t, i);
      MergeCoalesces(Merge(s, i - 1), i - 1);
    } else {
      MergeTiles(l, s, i);
      assert CoalescedBut(s, i) by {
        forall j, k | 0 <= j && k == j + 1 && k < |s| && j != i && s[j].free && s[k].free
          ensures End(s[j]) != s[k].addr
        {
          if k != i {
            assert End(t[j]) != t[k].addr;
          }
        }
      }
      MergeCoalesces(s, i);
    }
  }

  lemma MergeCoalesces(t: seq<Block>, i: nat)
    requires CoalescedBut(t, i)
    ensures Coalesced(Merge(t, i))
  {
    var u := Merge(t, i);
    if Mergeable(t, i) {
      forall j, k | 0 <= j && k == j + 1 && k < |u| && u[j].free && u[k].free
        ensures End(u[j]) != u[k].addr
      {
        if k < i {
          assert u[j] == t[j] && u[k] == t[k];
        } else if k == i {
          assert u[j] == t[j] && u[k].addr == t[i].addr;
          assert End(t[j]) != t[i].addr;
        } else if j == i {
          assert u[k] == t[k + 1] && End(u[j]) == End(t[i + 1]);
          assert End(t[i + 1]) != t[i + 2].addr;
        } else {
          assert u[j] == t[j + 1] && u[k] == t[k + 1];
        }
      }
    }
  }

  lemma LeftMerged(t: seq<Block>, i: nat)
    requires Coalesced(t) && 0 < i < |t| && Mergeable(SetFree(t, i), i - 1)
    ensures CoalescedBut(Merge(SetFree(t, i), i - 1), i - 1)
  {
    var s := SetFree(t, i);
    var u := Merge(s, i - 1);
    forall j, k | 0 <= j && k == j + 1 && k < |u| && j != i - 1 && u[j].free && u[k].free
      ensures End(u[j]) != u[k].addr
    {
      if k < i - 1 {
        assert u[j] == t[j] && u[k] == t[k];
      } else if k == i - 1 {
        assert u[j] == t[j] && u[k].addr == t[i - 1].addr;
        assert t[i - 1].free && End(t[j]) != t[i - 1].addr;
      } else {
        assert u[j] == t[j + 1] && u[k] == t[k + 1];
      }
    }
  }

  lemma SplitKeeps(l: Layout, t: seq<Block>, i: nat, n: nat)
    requires Sound(l) && Tiled(l, t) && Coalesced(t) && i < |t| && t[i].free && t[i].size >= HEADER + RoundUp(n)
    ensures Tiled(l, Split(t, i, n)) && Coalesced(Split(t, i, n))
  {
    SplitTiles(l, t, i, n);
    var u := Split(t, i, n);
    forall j, k | 0 <= j && k == j + 1 && k < |u| && u[j].free && u[k].free
      ensures End(u[j]) != u[k].addr
    {
      if k < i {
        assert u[j] == t[j] && u[k] == t[k];
      } else if j == i + 1 {
        assert End(u[j]) == End(t[i]) && u[k] == t[k - 1];
        assert End(t[i]) != t[i + 1].addr;
      } else if j > i + 1 {
        assert u[j] == t[j - 1] && u[k] == t[k - 1];
      }
    }
  }

  /** Freeing what was just allocated gives back the same row of blocks. */
  lemma RoundTrip(l: Layout, t: seq<Block>, i: nat, n: nat)
    requires Sound(l) && Tiled(l, t) && Coalesced(t) && i < |t| && t[i].free && t[i].size >= HEADER + RoundUp(n)
    ensures Free(Split(t, i, n), i) == t
  {
    var u := Split(t, i, n);
    var s := SetFree(u, i);
    assert u[i + 1].addr == End(s[i]) && s[i + 1] == u[i + 1];
    if i > 0 {
      assert s[i - 1] == t[i - 1] && s[i].addr == t[i].addr;
      assert !Mergeable(s, i - 1);
    }
    assert Mergeable(s, i);
    assert s[..i] == t[..i] && s[i + 2..] == t[i + 1..];
    assert Block(s[i].addr, s[i].size + HEADER + s[i + 1].size, true) == t[i];
    assert t == t[..i] + [t[i]] + t[i + 1..];
  }

  // ----- whole runs

  /** A request for n bytes, or the block at an address given back. */
  datatype Op = Malloc(n: nat) | Kfree(addr: int)

  /** Where the block with this header is, or |t|. */
  function At(t: seq<Block>, addr: int): (i: nat)
    ensures i <= |t| && (i < |t| ==> t[i].addr == addr)
  {
    if t == [] || t[0].addr == addr then 0 else 1 + At(t[1..], addr)
  }

  lemma {:induction false} AtFirst(t: seq<Block>, i: nat)
    requires i < |t|
    ensures At(t, t[i].addr) <= i
  {
    if i == 0 {
    } else {
      AtFirst(t[1..], i - 1);
    }
  }

  /** No two blocks have one address. */
  lemma AtIs(l: Layout, t: seq<Block>, i: nat)
    requires Sound(l) && Tiled(l, t) && i < |t|
    ensures At(t, t[i].addr) == i
  {
    AtFirst(t, i);
    var j := At(t, t[i].addr);
    if j < i {
      ChainOrder(l, t, l.lo, j, i);
    }
  }

  /** kfree of the address that kmalloc returned, which is that of the block it took, restores the row. */
  lemma AddressRoundTrip(l: Layout, t: seq<Block>, n: nat)
    requires Sound(l) && Tiled(l, t) && Coalesced(t) && CanDo(l, t, Malloc(n))
    ensures var i := FirstFit(t, n); var u := Do(l, t, Malloc(n));
      && CanDo(l, u, Kfree(t[i].addr)) && Do(l, u, Kfree(t[i].addr)) == t
  {
    var i := FirstFit(t, n);
    SplitKeeps(l, t, i, n);
    AtIs(l, Split(t, i, n), i);
    RoundTrip(l, t, i, n);
  }

  // ----- a block given back twice

  /** kfree merges block i into the free block in front of it. */
  predicate LeftMerges(t: seq<Block>, i: nat)
    requires i < |t|
  {
    i > 0 && Mergeable(SetFree(t, i), i - 1)
  }

  /** Then its address is no block any more, and otherwise it is a free one. */
  lemma AfterFree(l: Layout, t: seq<Block>, i: nat)
    requires Sound(l) && Tiled(l, t) && Coalesced(t) && i < |t|
    ensures var u := Free(t, i); var j := At(u, t[i].addr);
      if LeftMerges(t, i) then j == |u| else j == i < |u| && u[i].free
  {
    var u := Free(t, i);
    FreeKeeps(l, t, i);
    if LeftMerges(t, i) {
      forall j | 0 <= j < |t|
        ensures t[j].size >= 0
      {
        ChainAt(l, t, l.lo, j);
      }
      FreedInto(t, i);
      ChainOrder(l, t, l.lo, i - 1, i);
      hide *;
      NoBlockInside(l, u, i - 1, t[i].addr);
    } else {
      AtIs(l, u, i);
    }
  }

  lemma NoBlockInside(l: Layout, t: seq<Block>, i: nat, x: int)
    requires Sound(l) && Tiled(l, t) && i < |t| && t[i].addr < x < End(t[i])
    ensures At(t, x) == |t|
  {
    var j := At(t, x);
    if j < i {
      ChainOrder(l, t, l.lo, j, i);
    } else if i < j < |t| {
      ChainOrder(l, t, l.lo, i, j);
    }
  }

  lemma FreedInto(t: seq<Block>, i: nat)
    requires i < |t| && LeftMerges(t, i) && forall j :: 0 <= j < |t| ==> t[j].size >= 0
    ensures var u := Free(t, i); i - 1 < |u| && u[i - 1].addr == t[i - 1].addr && End(u[i - 1]) >= End(t[i])
  {
    var u := Merge(SetFree(t, i), i - 1);
    assert u[i - 1] == Block(t[i - 1].addr, t[i - 1].size + HEADER + t[i].size, true);
    assert i < |u| ==> u[i] == t[i + 1];
  }

  /** The layout and the requests of a short run that gives block 32 back into block 0. */
  function SmallLayout(): Layout {
    Layout(0, 96, 112, 128)
  }

  function SmallRow(): seq<Block> {
    [Block(0, 80, true), Block(112, 0, true)]
  }

  function SmallRun(): seq<Op> {
    [Malloc(16), Malloc(16), Kfree(0)]
  }

  /** It starts with the row of a new heap, and the next kfree merges to the left. */
  lemma LeftMergePossible()
    ensures var l := SmallLayout(); Sound(l) && CanDoAll(l, SmallRow(), SmallRun())
    ensures var t := DoAll(SmallLayout(), SmallRow(), SmallRun());
      && t == [Block(0, 16, true), Block(32, 16, false), Block(64, 16, true), Block(112, 0, true)]
      && At(t, 32) == 1 && LeftMerges(t, 1) && At(Free(t, 1), 32) == |Free(t, 1)|
  {
    var l := SmallLayout();
    var t1 := [Block(0, 16, false), Block(32, 48, true), Block(112, 0, true)];
    var t2 := [Block(0, 16, false), Block(32, 16, false), Block(64, 16, true), Block(112, 0, true)];
    var t3 := [Block(0, 16, true), Block(32, 16, false), Block(64, 16, true), Block(112, 0, true)];
    assert FirstFit(SmallRow(), 16) == 0 && Do(l, SmallRow(), Malloc(16)) == t1;
    assert t1[1..][0] == Block(32, 48, true) && FirstFit(t1, 16) == 1 && Do(l, t1, Malloc(16)) == t2;
    assert At(t2, 0) == 0 && SetFree(t2, 0) == t3 && Do(l, t2, Kfree(0)) == t3;
    assert SmallRun()[1..] == [Malloc(16), Kfree(0)] && [Malloc(16), Kfree(0)][1..] == [Kfree(0)] && [Kfree(0)][1..] == [];
    assert DoAll(l, t3, []) == t3 && DoAll(l, t2, [Kfree(0)]) == t3 && DoAll(l, t1, [Malloc(16), Kfree(0)]) == t3;
    assert t3[1..][0].addr == 32;
    var s := SetFree(t3, 1);
    assert Mergeable(s, 0);
    assert Merge(s, 0) == [Block(0, 48, true), Block(64, 16, true), Block(112, 0, true)];
    assert Free(t3, 1) == [Block(0, 80, true), Block(112, 0, true)];
  }

  /** The arm of getMemHeader that splits a block: the header of the rest is clear of the hole and
      of the end of memory, and there is room for it. */
  predicate SplitArm(l: Layout, b: Block, n: nat) {
    var start := b.addr + HEADER + RoundUp(n);
    && b.size >= HEADER + RoundUp(n)
    && !(l.hs - HEADER <= start < l.he - HEADER) && start < l.hi - 1
  }

  /** 32 bytes more than asked for are always enough. */
  lemma RoomyBlock(l: Layout, t: seq<Block>, i: nat, n: nat)
    requires Sound(l) && Tiled(l, t) && i < |t| && t[i].size >= RoundUp(n) + 32
    ensures SplitArm(l, t[i], n)
  {
    ChainAt(l, t, l.lo, i);
    ChainBound(l, t, l.lo);
  }

  /** Which blocks can be split for n bytes, r being the least multiple of 16 that is not less. */
  lemma SplitArmIs(l: Layout, t: seq<Block>, i: nat, n: nat, r: int)
    requires Sound(l) && Tiled(l, t) && i < |t| && r % 16 == 0 && n <= r < n + 16
    ensures SplitArm(l, t[i], n) <==>
      (t[i].size >= r + 16 && !(t[i].size == r + 16 && t[i].addr + 16 + t[i].size == l.hs))
  {
    ChainAt(l, t, l.lo, i);
    ChainBound(l, t, l.lo);
    hide Chain, Reach;
    OneRounding(n, r);
  }

  lemma OneRounding(n: nat, r: int)
    requires r % 16 == 0 && n <= r < n + 16
    ensures RoundUp(n) == r
  {
  }

  /** kmalloc takes from the first block that is large enough the least multiple of 16 bytes, and
      what is left of it is a free block behind, with 16 bytes less for its header. */
  lemma MallocNumbers(l: Layout, t: seq<Block>, n: nat)
    requires CanDo(l, t, Malloc(n))
    ensures var i := FirstFit(t, n); var u := Do(l, t, Malloc(n));
      && |u| == |t| + 1 && u[..i] == t[..i] && u[i + 2..] == t[i + 1..]
      && u[i].addr == t[i].addr && !u[i].free && u[i].size % 16 == 0 && n <= u[i].size < n + 16
      && u[i + 1] == Block(t[i].addr + 16 + u[i].size, t[i].size - u[i].size - 16, true)
  {
  }

  /** The first fit is split, and a block given back was allocated. */
  predicate CanDo(l: Layout, t: seq<Block>, op: Op) {
    match op
    case Malloc(n) => FirstFit(t, n) < |t| && SplitArm(l, t[FirstFit(t, n)], n)
    case Kfree(addr) => At(t, addr) < |t| && !t[At(t, addr)].free
  }

  function Do(l: Layout, t: seq<Block>, op: Op): seq<Block>
    requires CanDo(l, t, op)
  {
    match op
    case Malloc(n) => Split(t, FirstFit(t, n), n)
    case Kfree(addr) => Free(t, At(t, addr))
  }

  predicate CanDoAll(l: Layout, t: seq<Block>, ops: seq<Op>)
    decreases |ops|
  {
    ops == [] || (CanDo(l, t, ops[0]) && CanDoAll(l, Do(l, t, ops[0]), ops[1..]))
  }

  function DoAll(l: Layout, t: seq<Block>, ops: seq<Op>): seq<Block>
    requires CanDoAll(l, t, ops)
    decreases |ops|
  {
    if ops == [] then t else DoAll(l, Do(l, t, ops[0]), ops[1..])
  }

  /** However kmalloc and kfree alternate, the blocks fill memory exactly and free ones do not touch. */
  lemma {:induction false} AlwaysTiled(l: Layout, t: seq<Block>, ops: seq<Op>)
    requires Sound(l) && Tiled(l, t) && Coalesced(t) && CanDoAll(l, t, ops)
    ensures Tiled(l, DoAll(l, t, ops)) && Coalesced(DoAll(l, t, ops))
    decreases |ops|
  {
    if ops == [] {
    } else {
      match ops[0] {
        case Malloc(n) => SplitKeeps(l, t, FirstFit(t, n), n);
        case Kfree(addr) => FreeKeeps(l, t, At(t, addr));
      }
      hide Tiled, Coalesced, Split, Free, CanDo;
      AlwaysTiled(l, Do(l, t, ops[0]), ops[1..]);
    }
  }
}
