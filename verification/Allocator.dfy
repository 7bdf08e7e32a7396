// kmalloc and kfree of c/mem.c over the list of free headers of c/memHeader.c, header by header.
module Allocator {
  // Headers are maps from the address of the header to its fields; NULL is no address.

  import opened Links
  import opened HeapSpec
  import opened HeapRep

  const EMPTY: int := -1

  class Allocator {
    const l: Layout           // lo is freemem rounded up, hi is maxaddr + 1
    var rootHeader: int
    var h: Headers
    ghost var blocks: seq<Block>

    ghost predicate Heap()
      reads this
    {
      Sound(l) && Tiled(l, blocks) && RepHeap(h, rootHeader, blocks) && Kept(l, h, blocks)
    }

    ghost predicate Valid()
      reads this
    {
      Heap() && Coalesced(blocks)
    }

    /** initializeMemHeaderList */
    constructor (l: Layout)
      requires Sound(l)
      ensures Valid() && this.l == l
      ensures blocks == [Block(l.lo, l.hs - l.lo - HEADER, true), Block(l.he, l.hi - l.he - HEADER, true)]
    {
      this.l := l;
      rootHeader := l.lo;
      h := Headers(map[l.lo := l.hs - (l.lo + HEADER), l.he := l.hi - (l.he + HEADER)],
                   map[l.lo := NULL, l.he := l.lo], map[l.lo := l.he, l.he := NULL],
                   map[l.lo := l.lo + HEADER, l.he := l.he + HEADER]);
      blocks := [Block(l.lo, l.hs - l.lo - HEADER, true), Block(l.he, l.hi - l.he - HEADER, true)];
      new;
      Initial(l);
      InitialKept(l, h, blocks);
    }

    /** isValidMemoryAddress */
    predicate IsValidMemoryAddress(a: int) {
      l.lo <= a <= l.hi - 1 && a % PAGE_SIZE == 0
    }

    /** insertMemHeaderLink; false is SYSERR */
    method InsertMemHeaderLink(p: int, ghost s: seq<int>) returns (ok: bool)
      requires FreeList(h, rootHeader, s) && Ascending(s) && p in h.next && p in h.prev && p != NULL
      requires s == [] ==> h.next[p] == NULL && h.prev[p] == NULL
      modifies `h, `rootHeader
      ensures ok == (IsValidMemoryAddress(p) && p !in s)
      ensures ok ==> FreeList(h, rootHeader, Inserted(s, PlaceOf(s, p), p)) && Relinked(old(h), h, s, p)
      ensures !ok ==> h == old(h) && rootHeader == old(rootHeader)
    {
      hide *;
      ListFacts(h, rootHeader, s);
      if !IsValidMemoryAddress(p) {
        return false;
      }
      if rootHeader == NULL {
        PutFirst(h, p);
        rootHeader := p;
        return true;
      }
      if p < rootHeader {
        PutInFront(h, rootHeader, s, 0, p);
        h := LinkInFront(h, p, rootHeader);
        rootHeader := p;
        return true;
      }
      var node := rootHeader;
      var prevNode := NULL;
      ghost var k: nat := 0;
      while node != NULL && node <= p
        invariant k <= |s| && node == (if k < |s| then s[k] else NULL) && (k < |s| ==> node != NULL && node in h.next && node in h.prev)
        invariant k > 0 ==> prevNode == s[k - 1]
        invariant forall j :: 0 <= j < k ==> s[j] < p
        decreases |s| - k
        modifies {}
      {
        if node == p {
          return false;
        }
        ListAt(h, rootHeader, s, k);
        prevNode := node;
        node := h.next[node];
        k := k + 1;
      }
      if node != NULL {
        PutInFront(h, rootHeader, s, k, p);
        h := LinkInFront(h, p, node);
      } else {
        PutLast(h, rootHeader, s, p);
        h := LinkBehind(h, prevNode, p);
      }
      return true;
    }

    /** checkAndMergeMemHeaders; no end of a block is NULL */
    method CheckAndMergeMemHeaders(former: int, latter: int) returns (ok: bool)
      requires former in h.size && former >= 0 && h.size[former] >= 0
      requires latter != NULL ==> latter in h.size && latter in h.next
      modifies `h
      ensures Checked(old(h), former, latter, ok, h)
    {
      hide *;
      CheckedIs(h, former, latter);
      var endOfFormer := former + HEADER + h.size[former];
      if RoundUp(endOfFormer) == latter {
        h := MergeHeaders(h, former, latter);
        return true;
      }
      return false;
    }

    /** kfree. What insertMemHeaderLink answers is never 0, so kfree goes on in either case. A header
        that was merged into the one before it still passes the sanity check: then the free list gets
        a header inside a block. */
    method KFree(ptr: int) returns (ok: bool)
      requires Valid()
      modifies `h, `rootHeader, `blocks
      ensures ok == (ptr - 16 in old(h).sanityCheck) && h.sanityCheck == old(h).sanityCheck
      ensures !ok ==> Valid() && h == old(h) && rootHeader == old(rootHeader) && blocks == old(blocks)
      ensures var t := old(blocks); var i := At(t, ptr - 16);
        i < |t| ==> ok && Valid() && blocks == HeapSpec.Free(t, i) && (t[i].free ==> h == old(h) && rootHeader == old(rootHeader))
      ensures ok && At(old(blocks), ptr - 16) == |old(blocks)| ==> forall t :: !(Tiled(l, t) && RepHeap(h, rootHeader, t))
    {
      hide *;
      EmptyIs();
      HeapParts();
      ghost var t, i, s, k := blocks, At(blocks, ptr - 16), FreeOf(blocks), PlaceOf(FreeOf(blocks), ptr - 16);
      ghost var h0, r0 := h, rootHeader;
      var memPtr := ptr - HEADER;
      ghost var p := memPtr;
      HeaderFacts(l, h, rootHeader, t, p);
      if memPtr !in h.sanityCheck || h.sanityCheck[memPtr] != ptr {
        return false;
      }
      ValidAddress(p);
      var inserted := InsertMemHeaderLink(memPtr, s);
      ghost var h1, r1, s1 := h, rootHeader, ListWith(t, p, inserted);
      ListWithIs(t, h0, r0, p, h1, r1, inserted);
      InsertedList(l, h0, r0, t, p, h1, r1, inserted);
      ListAt(h1, r1, s1, k);
      var precedingMemPtr := h.prev[memPtr];
      var isSuccess := false;
      if precedingMemPtr != NULL {
        SizedAt(h1, s1, k - 1);
        SizedAt(h1, s1, k);
        isSuccess := CheckAndMergeMemHeaders(precedingMemPtr, memPtr);
      }
      ghost var h2 := h;
      ghost var s2, k2 := if isSuccess then Without(s1, k) else s1, if isSuccess then k - 1 else k;
      if isSuccess {
        memPtr := precedingMemPtr;
        SizedMerge(h1, r1, s1, k, h2);
      }
      CheckedSame(h1, precedingMemPtr, p, isSuccess, h2);
      ListAt(h2, r1, s2, k2);
      SizedAt(h2, s2, k2);
      if k2 + 1 < |s2| {
        SizedAt(h2, s2, k2 + 1);
      }
      ghost var g := h2.next[memPtr];
      var merged := CheckAndMergeMemHeaders(memPtr, h.next[memPtr]);
      TwiceIs(h1, p, isSuccess, h2, memPtr, merged, h);
      AtAddress(t, p);
      if i < |t| {
        FreedBlock(l, h0, r0, t, i, h1, r1, inserted, isSuccess, h2, memPtr, merged, h);
        blocks := HeapSpec.Free(t, i);
        HeapParts();
      } else {
        FreedStale(l, h0, r0, t, p, h1, r1, inserted, isSuccess, h2, memPtr, merged, h);
      }
      CheckedSame(h2, memPtr, g, merged, h);
      return true;
    }

    /** Two calls of kfree for one allocated block */
    method FreeTwice(ptr: int) returns (first: bool, second: bool)
      requires Valid() && At(blocks, ptr - 16) < |blocks| && !blocks[At(blocks, ptr - 16)].free
      modifies `h, `rootHeader, `blocks
      ensures first && second
      ensures var t := old(blocks); var i := At(t, ptr - 16);
        && (!LeftMerges(t, i) ==> Valid() && blocks == HeapSpec.Free(t, i))
        && (!LeftMerges(t, i) <==> exists u :: Tiled(l, u) && RepHeap(h, rootHeader, u))
    {
      hide *;
      EmptyIs();
      HeapParts();
      ghost var t, i := blocks, At(blocks, ptr - 16);
      AtAddress(t, ptr - 16);
      HeaderFacts(l, h, rootHeader, t, ptr - 16);
      AfterFree(l, t, i);
      first := KFree(ptr);
      ghost var u := blocks;
      HeapParts();
      second := KFree(ptr);
      if !LeftMerges(t, i) {
        FreeAgain(l, u, i);
        HeapParts();
        RowOf(l, h, rootHeader, u);
      }
    }

    /** kmalloc and kfree of what it returned */
    method MallocFree(size: nat) returns (ptr: int, ok: bool)
      requires Valid() && CanDo(l, blocks, Malloc(size))
      modifies `h, `rootHeader, `blocks
      ensures ok && ptr == old(blocks)[FirstFit(old(blocks), size)].addr + 16
      ensures Valid() && blocks == old(blocks) && rootHeader == old(rootHeader)
      ensures forall i :: 0 <= i < |blocks| ==>
        var p := blocks[i].addr;
        && p in h.next && p in old(h).next && h.next[p] == old(h).next[p]
        && p in h.prev && p in old(h).prev && h.prev[p] == old(h).prev[p]
        && p in h.size && p in old(h).size && h.size[p] == old(h).size[p]
    {
      hide *;
      ghost var t, i, h0, r0 := blocks, FirstFit(blocks, size), h, rootHeader;
      EmptyIs();
      HeapParts();
      MallocIs(l, t, size);
      AddressRoundTrip(l, t, size);
      ptr := KMalloc(size);
      KfreeIs(l, blocks, t[i].addr);
      ok := KFree(ptr);
      HeapParts();
      SameLinks(l, h0, r0, h, rootHeader, t);
    }

    /** getMemHeader. Only the arm that splits the block found keeps the heap whole. */
    method GetMemHeader(sizeReq: nat) returns (node: int)
      requires Valid()
      modifies `h, `rootHeader, `blocks
      ensures FirstFit(old(blocks), sizeReq) == |old(blocks)| ==>
        node == -1 && Valid() && blocks == old(blocks) && h == old(h) && rootHeader == old(rootHeader)
      ensures var t := old(blocks); var i := FirstFit(t, sizeReq);
        i < |t| && SplitArm(l, t[i], sizeReq) ==> node == t[i].addr && node != EMPTY && Valid() && blocks == Split(t, i, sizeReq)
    {
      hide *;
      ghost var t := blocks;
      ghost var s := FreeOf(t);
      HeapParts();
      ListFacts(h, rootHeader, s);
      NoneBefore(t, sizeReq);
      EmptyIs();
      if s != [] {
        FreeAt(l, h, t, 0);
      }
      node := rootHeader;
      ghost var k: nat := 0;
      while node != NULL
        invariant k <= |s| && node == (if k < |s| then s[k] else NULL) && (k < |s| ==> node != NULL && node in h.next && node in h.prev)
        invariant SmallUpTo(t, k, sizeReq)
        invariant node != NULL ==> node in h.size && h.size[node] == t[Pos(t, k)].size
        decreases |s| - k
        modifies {}
      {
        FreeAt(l, h, t, k);
        ListAt(h, rootHeader, s, k);
        if h.size[node] >= sizeReq {
          break;
        }
        OneMore(t, k, sizeReq);
        node := h.next[node];
        k := k + 1;
        if k < |s| {
          FreeAt(l, h, t, k);
        }
      }
      if node == NULL {
        NoFit(t, sizeReq);
        return EMPTY;
      }
      FitIs(t, k, sizeReq);
      ghost var i := Pos(t, k);
      SplitSteps(l, h, rootHeader, t, i, sizeReq);
      FreeAt(l, h, t, k);
      var r := RoundUp(sizeReq);
      assert node >= 0;
      var start := RoundUp(node + HEADER + sizeReq);
      var b := h;
      if l.hs - HEADER <= start < l.he - HEADER {
        // the new header would be in the hole
        if b.prev[node] == NULL {
          rootHeader := b.next[node];
          b := b.(prev := SetAt(b.prev, b.next[node], NULL));
        } else {
          b := b.(prev := SetAt(b.prev, b.next[node], b.prev[node]), next := SetAt(b.next, b.prev[node], b.next[node]));
        }
      } else if start >= l.hi - 1 {
        // it would be behind the end of memory
        if b.prev[node] == NULL {
          rootHeader := b.next[node];
          b := b.(prev := SetAt(b.prev, b.next[node], NULL));
        }
      } else {
        b := Headers(b.size[start := Wrap(b.size[node] - (HEADER + r))], b.prev[start := b.prev[node]],
                     b.next[start := b.next[node]], b.sanityCheck[start := start + HEADER]);
        if h.prev[node] == NULL {
          rootHeader := start;
        } else {
          b := b.(next := SetAt(b.next, h.prev[node], start));
        }
        b := b.(prev := SetAt(b.prev, h.next[node], start));
      }
      b := Headers(b.size[node := r], b.prev[node := NULL], b.next[node := NULL], b.sanityCheck);
      SplitCode(l, h, t[i], start, sizeReq, b);
      h := b;
      blocks := Split(t, i, sizeReq);
      HeapParts();
    }

    /** kmalloc */
    method KMalloc(size: nat) returns (ptr: int)
      requires Valid()
      modifies `h, `rootHeader, `blocks
      ensures FirstFit(old(blocks), size) == |old(blocks)| ==>
        ptr == -1 && Valid() && blocks == old(blocks) && h == old(h) && rootHeader == old(rootHeader)
      ensures var t := old(blocks); var i := FirstFit(t, size);
        i < |t| && SplitArm(l, t[i], size) ==> ptr == t[i].addr + 16 && Valid() && blocks == Split(t, i, size)
    {
      var allocatedMemHeader := GetMemHeader(size);
      if allocatedMemHeader == EMPTY {
        return EMPTY;
      }
      return allocatedMemHeader + HEADER;
    }

    lemma HeapParts()
      ensures Heap() <==> (Sound(l) && HeapAt(l, h, rootHeader, blocks))
      ensures HeapAt(l, h, rootHeader, blocks) <==>
        (Tiled(l, blocks) && FreeList(h, rootHeader, FreeOf(blocks)) && Written(h, blocks) && Kept(l, h, blocks))
      ensures Valid() <==> (Heap() && Coalesced(blocks))
    {
    }

    lemma ValidAddress(p: int)
      ensures Sound(l) && HeaderAt(l, h, p) ==> IsValidMemoryAddress(p)
    {
    }
  }

  /** The row of blocks, held by the headers. */
  ghost predicate HeapAt(l: Layout, h: Headers, root: int, t: seq<Block>) {
    Tiled(l, t) && FreeList(h, root, FreeOf(t)) && Written(h, t) && Kept(l, h, t)
  }

  lemma HeapIs(l: Layout, h: Headers, root: int, t: seq<Block>)
    ensures HeapAt(l, h, root, t) <==> (Tiled(l, t) && FreeList(h, root, FreeOf(t)) && Written(h, t) && Kept(l, h, t))
  {
  }

  lemma Initial(l: Layout)
    requires Sound(l)
    ensures var t := [Block(l.lo, l.hs - l.lo - HEADER, true), Block(l.he, l.hi - l.he - HEADER, true)];
      && Tiled(l, t) && Coalesced(t) && FreeOf(t) == [l.lo, l.he]
  {
    var b := Block(l.lo, l.hs - l.lo - HEADER, true);
    var c := Block(l.he, l.hi - l.he - HEADER, true);
    Aligned(l.hs, l.lo);
    Aligned(l.hs - l.lo, HEADER);
    Aligned(l.hi, l.he);
    Aligned(l.hi - l.he, HEADER);
    Chain2(l, b, c, l.lo);
    Chain1(l, b, l.lo);
    Chain1(l, c, l.he);
    assert [b, c][1..] == [c] && [c][1..] == [];
    assert FreeOf([c]) == [l.he] && FreeOf([b, c]) == [l.lo] + FreeOf([c]);
  }

  lemma InitialKept(l: Layout, h: Headers, t: seq<Block>)
    requires Sound(l) && Tiled(l, t) && Written(h, t) && |t| == 2 && h.sanityCheck.Keys == {t[0].addr, t[1].addr}
    ensures Kept(l, h, t)
  {
    forall x | x in h.sanityCheck
      ensures At(t, x) < |t|
    {
      AtIn(t, x, if x == t[0].addr then 0 else 1);
    }
    KeptBy(l, h.(sanityCheck := map[]), t, h, t);
  }

  lemma BlockFacts(l: Layout, h: Headers, t: seq<Block>, i: nat)
    requires Sound(l) && Tiled(l, t) && Written(h, t) && i < |t|
    ensures var p := t[i].addr;
      p in h.size && p in h.prev && p in h.next && p in h.sanityCheck && p != NULL && h.size[p] == t[i].size && h.sanityCheck[p] == p + HEADER
    ensures t[i].addr in FreeOf(t) <==> t[i].free
  {
    NotFree(l, t, i);
  }

  lemma ListFacts(h: Headers, root: int, s: seq<int>)
    requires FreeList(h, root, s)
    ensures root == NULL <==> s == []
    ensures s != [] ==> root == s[0] && root in h.next && root in h.prev && h.prev[root] == NULL
  {
    HeadOf(h.next, root, s);
  }

  lemma ListAt(h: Headers, root: int, s: seq<int>, k: nat)
    requires FreeList(h, root, s) && k < |s|
    ensures s[k] in h.next && s[k] in h.prev && s[k] != NULL
    ensures h.next[s[k]] == if k + 1 < |s| then s[k + 1] else NULL
    ensures k + 1 < |s| ==> s[k + 1] != NULL && s[k + 1] in h.next && s[k + 1] in h.prev
    ensures h.prev[s[k]] == if k > 0 then s[k - 1] else NULL
    ensures k > 0 ==> s[k - 1] != NULL
  {
    Follow(h.next, root, s, k);
    if k + 1 < |s| {
      Follow(h.next, root, s, k + 1);
    }
    if k > 0 {
      assert h.prev[s[k]] == s[k - 1];
      Follow(h.next, root, s, k - 1);
    }
  }

  // ----- insertion

  lemma PutFirst(h: Headers, p: int)
    requires p in h.next && p in h.prev && h.next[p] == NULL && h.prev[p] == NULL && p != NULL
    ensures FreeList(h, p, Inserted([], PlaceOf([], p), p)) && Relinked(h, h, [], p)
  {
    ListFirst(h, p);
    assert Inserted([], 0, p) == [p];
  }

  lemma PutInFront(h: Headers, root: int, s: seq<int>, k: nat, p: int)
    requires FreeList(h, root, s) && Ascending(s) && p in h.next && p in h.prev && p != NULL
    requires k < |s| && s[k] > p && forall j :: 0 <= j < k ==> s[j] < p
    ensures p !in s && s[k] in h.prev
    ensures var h' := LinkInFront(h, p, s[k]);
      FreeList(h', if k == 0 then p else root, Inserted(s, PlaceOf(s, p), p)) && Relinked(h, h', s, p)
  {
    PlaceHere(s, p, k);
    ListAt(h, root, s, k);
    ListInFront(h, root, s, k, p);
    hide FreeList;
  }

  lemma PutLast(h: Headers, root: int, s: seq<int>, p: int)
    requires FreeList(h, root, s) && p in h.next && p in h.prev && p != NULL
    requires s != [] && forall j :: 0 <= j < |s| ==> s[j] < p
    ensures p !in s && Last(s) == s[|s| - 1] && Last(s) in h.next && Last(s) in h.prev
    ensures var h' := LinkBehind(h, Last(s), p);
      FreeList(h', root, Inserted(s, PlaceOf(s, p), p)) && Relinked(h, h', s, p)
  {
    PlaceHere(s, p, |s|);
    ListAt(h, root, s, |s| - 1);
    ListBehind(h, root, s, p);
    hide FreeList;
  }

  /** What is known of a header whose sanity check holds. */
  lemma HeaderFacts(l: Layout, h: Headers, root: int, t: seq<Block>, p: int)
    requires Sound(l) && HeapAt(l, h, root, t)
    ensures FreeList(h, root, FreeOf(t)) && Ascending(FreeOf(t))
    ensures At(t, p) < |t| ==> p in h.sanityCheck
    ensures p in h.sanityCheck ==>
      && HeaderAt(l, h, p) && p in h.size && p in h.next && p in h.prev && h.sanityCheck[p] == p + HEADER && p >= 0 && p != NULL
      && (FreeOf(t) == [] ==> h.next[p] == NULL && h.prev[p] == NULL)
  {
    FreeSorted(l, t, l.lo);
    var i := At(t, p);
    if i < |t| {
      NotFree(l, t, i);
      assert t[i].addr in h.sanityCheck;
    }
    if p in h.sanityCheck {
      assert HeaderAt(l, h, p);
    }
  }

  /** Members of a list of headers have all their fields. */
  ghost predicate Sized(h: Headers, s: seq<int>) {
    forall x :: x in s ==> x in h.size && x in h.next && x in h.prev && x >= 0 && h.size[x] >= 0
  }

  lemma SizedAt(h: Headers, s: seq<int>, k: nat)
    requires Sized(h, s) && k < |s|
    ensures var x := s[k]; x in h.size && x in h.next && x in h.prev && x >= 0 && h.size[x] >= 0
  {
  }

  /** What insertMemHeaderLink leaves for a header p of this heap. */
  ghost predicate WasInserted(t: seq<Block>, h: Headers, root: int, p: int, h': Headers, root': int, ok: bool) {
    && ok == (p !in FreeOf(t))
    && (ok ==> FreeList(h', root', Inserted(FreeOf(t), PlaceOf(FreeOf(t), p), p)) && Relinked(h, h', FreeOf(t), p))
    && (!ok ==> h' == h && root' == root)
  }

  function ListWith(t: seq<Block>, p: int, ok: bool): seq<int> {
    if ok then Inserted(FreeOf(t), PlaceOf(FreeOf(t), p), p) else FreeOf(t)
  }

  lemma ListWithIs(t: seq<Block>, h: Headers, root: int, p: int, h': Headers, root': int, ok: bool)
    ensures ListWith(t, p, ok) == if ok then Inserted(FreeOf(t), PlaceOf(FreeOf(t), p), p) else FreeOf(t)
    ensures WasInserted(t, h, root, p, h', root', ok) <==>
      (&& ok == (p !in FreeOf(t))
       && (ok ==> FreeList(h', root', Inserted(FreeOf(t), PlaceOf(FreeOf(t), p), p)) && Relinked(h, h', FreeOf(t), p))
       && (!ok ==> h' == h && root' == root))
  {
  }

  lemma InsertedList(l: Layout, h: Headers, root: int, t: seq<Block>, p: int, h': Headers, root': int, ok: bool)
    requires Sound(l) && HeapAt(l, h, root, t) && p in h.sanityCheck && WasInserted(t, h, root, p, h', root', ok)
    ensures var s := ListWith(t, p, ok); var k := PlaceOf(FreeOf(t), p);
      k < |s| && s[k] == p && FreeList(h', root', s) && Sized(h', s)
    ensures h'.sanityCheck == h.sanityCheck && h'.size == h.size && p in h'.prev && p in h'.next
  {
    HeaderFacts(l, h, root, t, p);
    MembersSized(l, h, root, t);
    var s := FreeOf(t);
    if ok {
      var k := PlaceOf(s, p);
      assert Inserted(s, k, p)[k] == p;
      forall x | x in Inserted(s, k, p)
        ensures x == p || x in s
      {
      }
    } else {
      var k :| 0 <= k < |s| && s[k] == p;
      PlaceHere(s, p, k);
    }
    hide HeapAt, FreeList, PlaceOf, Inserted;
  }

  lemma MembersSized(l: Layout, h: Headers, root: int, t: seq<Block>)
    requires Sound(l) && HeapAt(l, h, root, t)
    ensures Sized(h, FreeOf(t))
  {
    forall x | x in FreeOf(t)
      ensures x in h.size && x in h.next && x in h.prev && x >= 0 && h.size[x] >= 0
    {
      BlockAt(t, x);
      HeaderFacts(l, h, root, t, x);
      assert HeaderAt(l, h, x);
    }
  }

  /** For the header of a block the new list is that of the row with the block free. */
  lemma InsertedBlock(l: Layout, h: Headers, root: int, t: seq<Block>, i: nat, h': Headers, root': int, ok: bool)
    requires Sound(l) && HeapAt(l, h, root, t) && i < |t| && WasInserted(t, h, root, t[i].addr, h', root', ok)
    ensures ok == !t[i].free && HeapAt(l, h', root', SetFree(t, i))
  {
    NotFree(l, t, i);
    SetFreeTiles(l, t, i);
    if ok {
      HeaderFacts(l, h, root, t, t[i].addr);
      PlaceIs(l, t, i);
      SetFreeList(t, i);
      WrittenLinks(l, h, h', t, i);
      KeptFree(l, h, t, i, h');
    } else {
      AlreadyFree(t, i);
    }
    hide *;
  }

  lemma PlaceIs(l: Layout, t: seq<Block>, i: nat)
    requires Sound(l) && Tiled(l, t) && i < |t| && !t[i].free
    ensures PlaceOf(FreeOf(t), t[i].addr) == |FreeOf(t[..i])|
  {
    var a, b := FreeOf(t[..i]), FreeOf(t[i + 1..]);
    FreeSplit(t, i);
    FreeAround(l, t, i);
    assert FreeOf(t) == a + b;
    forall j | 0 <= j < |a|
      ensures FreeOf(t)[j] < t[i].addr
    {
      assert a[j] in a;
    }
    if b != [] {
      assert b[0] in b && FreeOf(t)[|a|] == b[0];
    }
    PlaceHere(FreeOf(t), t[i].addr, |a|);
  }

  lemma AtSetFree(t: seq<Block>, i: nat, x: int)
    requires i < |t|
    ensures At(SetFree(t, i), x) == At(t, x)
    decreases i
  {
    if i == 0 {
      assert SetFree(t, 0)[1..] == t[1..];
    } else {
      AtSetFree(t[1..], i - 1, x);
      assert SetFree(t, i)[1..] == SetFree(t[1..], i - 1);
    }
  }

  lemma KeptFree(l: Layout, h: Headers, t: seq<Block>, i: nat, h': Headers)
    requires Sound(l) && i < |t| && Tiled(l, SetFree(t, i)) && Kept(l, h, t)
    requires Written(h', SetFree(t, i)) && Relinked(h, h', FreeOf(t), t[i].addr)
    ensures Kept(l, h', SetFree(t, i))
  {
    var u := SetFree(t, i);
    forall x | x in h'.sanityCheck && At(u, x) == |u|
      ensures x in h'.size && x in h'.next && x in h'.prev && h'.next[x] == NULL && h'.prev[x] == NULL
    {
      AtSetFree(t, i, x);
      AtFirst(t, i);
      BlockAt(t, x);
      assert HeaderAt(l, h, x);
    }
    KeptBy(l, h, t, h', u);
  }

  lemma AlreadyFree(t: seq<Block>, i: nat)
    requires i < |t| && t[i].free
    ensures SetFree(t, i) == t
  {
  }

  // ----- merging

  lemma EndOf(l: Layout, t: seq<Block>, j: nat)
    requires Sound(l) && Tiled(l, t) && j < |t|
    ensures End(t[j]) >= 0 && End(t[j]) == t[j].addr + HEADER + t[j].size && RoundUp(End(t[j])) == End(t[j])
  {
    ChainAt(l, t, l.lo, j);
    Aligned(t[j].addr, t[j].size);
  }

  lemma MergeSteps(l: Layout, h: Headers, root: int, t: seq<Block>, j: nat)
    requires Sound(l) && Tiled(l, t) && FreeList(h, root, FreeOf(t)) && Written(h, t) && j < |t| && t[j].free
    ensures t[j].addr in h.next
    ensures Mergeable(t, j) <==> h.next[t[j].addr] == End(t[j])
    ensures Mergeable(t, j) ==> h.next[t[j].addr] in h.size && h.next[t[j].addr] in h.next && t[j].addr in h.size
    ensures Mergeable(t, j) ==> var h' := MergeHeaders(h, t[j].addr, h.next[t[j].addr]);
      Tiled(l, Merge(t, j)) && FreeList(h', root, FreeOf(Merge(t, j))) && Written(h', Merge(t, j))
    ensures !Mergeable(t, j) ==> Merge(t, j) == t
  {
    BlockFacts(l, h, t, j);
    TouchesNext(l, t, j);
    EndOf(l, t, j);
    var k := |FreeOf(t[..j])|;
    ListAt(h, root, FreeOf(t), k);
    if Mergeable(t, j) {
      MergeFree(t, j);
      BlockFacts(l, h, t, j + 1);
      MergeTiles(l, t, j);
      NextIsFree(l, h, root, t);
      MergeWritten(l, h, t, j);
      MergeList(h, root, FreeOf(t), k);
    }
    hide *;
  }

  /** What checkAndMergeMemHeaders does. */
  ghost predicate Checked(h: Headers, f: int, g: int, ok: bool, h': Headers) {
    && f in h.size && f >= 0 && h.size[f] >= 0
    && ok == (RoundUp(f + HEADER + h.size[f]) == g)
    && (ok ==> g in h.size && g in h.next && h' == MergeHeaders(h, f, g))
    && (!ok ==> h' == h)
  }

  lemma CheckedIs(h: Headers, f: int, g: int)
    requires f in h.size && f >= 0 && h.size[f] >= 0 && (g != NULL ==> g in h.size && g in h.next)
    ensures f + HEADER + h.size[f] >= 0
    ensures RoundUp(f + HEADER + h.size[f]) != g ==> Checked(h, f, g, false, h)
    ensures RoundUp(f + HEADER + h.size[f]) == g ==> g in h.size && g in h.next && Checked(h, f, g, true, MergeHeaders(h, f, g))
  {
  }

  lemma CheckedSame(h: Headers, f: int, g: int, ok: bool, h': Headers)
    ensures Checked(h, f, g, ok, h') ==> h'.sanityCheck == h.sanityCheck && (!ok ==> h' == h)
  {
  }

  lemma SizedMerge(h: Headers, root: int, s: seq<int>, k: nat, h': Headers)
    requires FreeList(h, root, s) && Sized(h, s) && 0 < k < |s| && Checked(h, s[k - 1], s[k], true, h')
    ensures var u := Without(s, k); |u| == |s| - 1 && u[k - 1] == s[k - 1] && FreeList(h', root, u) && Sized(h', u)
  {
    MergeList(h, root, s, k - 1);
    var u := Without(s, k);
    forall x | x in u
      ensures x in s
    {
    }
    hide FreeList;
  }

  /** Merging block j with the next free one. */
  lemma BlockMerged(l: Layout, h: Headers, root: int, t: seq<Block>, j: nat, ok: bool, h': Headers)
    requires Sound(l) && HeapAt(l, h, root, t) && j < |t| && t[j].free && t[j].addr in h.next
    requires Checked(h, t[j].addr, h.next[t[j].addr], ok, h')
    ensures ok == Mergeable(t, j) && HeapAt(l, h', root, Merge(t, j))
  {
    BlockFacts(l, h, t, j);
    MergeSteps(l, h, root, t, j);
    EndOf(l, t, j);
    if ok {
      KeptMerge(l, h, root, t, j, h');
    }
    hide *;
    HeapIs(l, h', root, Merge(t, j));
  }

  lemma {:induction false} AtIn(t: seq<Block>, x: int, i: nat)
    requires i < |t| && t[i].addr == x
    ensures At(t, x) < |t|
  {
    AtFirst(t, i);
  }

  lemma KeptMerge(l: Layout, h: Headers, root: int, t: seq<Block>, j: nat, h': Headers)
    requires Sound(l) && HeapAt(l, h, root, t) && Mergeable(t, j) && t[j].addr in h.size && t[j + 1].addr in h.size && t[j + 1].addr in h.next
    requires h' == MergeHeaders(h, t[j].addr, t[j + 1].addr)
    requires Tiled(l, Merge(t, j)) && Written(h', Merge(t, j))
    ensures Kept(l, h', Merge(t, j))
  {
    var u := Merge(t, j);
    var f, g := t[j].addr, t[j + 1].addr;
    NextIsFree(l, h, root, t);
    forall x | x in h'.sanityCheck && At(u, x) == |u|
      ensures x in h'.size && x in h'.next && x in h'.prev && h'.size[x] == h.size[x] && h'.next[x] == NULL && h'.prev[x] == NULL
    {
      assert HeaderAt(l, h, x);
      if x != g {
        NotMergedAt(t, j, x);
        if h.next[g] != NULL {
          BlockAt(t, h.next[g]);
        }
      } else {
        AtIn(t, f, j);
        if x == f {
          AtIn(u, f, j);
        }
      }
    }
    hide Kept, FreeList;
    KeptBy(l, h, t, h', u);
  }

  /** All blocks but the merged one stay. */
  lemma NotMergedAt(t: seq<Block>, j: nat, x: int)
    requires Mergeable(t, j) && x != t[j + 1].addr && At(Merge(t, j), x) == |Merge(t, j)|
    ensures At(t, x) == |t| && x != t[j].addr
  {
    var u := Merge(t, j);
    if x == t[j].addr {
      AtIn(u, x, j);
    }
    var i := At(t, x);
    if i < |t| {
      if i <= j {
        AtIn(u, x, i);
      } else {
        assert u[i - 1] == t[i];
        AtIn(u, x, i - 1);
      }
    }
  }

  lemma IsFree(t: seq<Block>, i: nat)
    requires i < |t|
    ensures var s := SetFree(t, i); |s| == |t| && s[i].free && s[i].addr == t[i].addr
  {
  }

  lemma FreeIs(t: seq<Block>, i: nat)
    requires i < |t|
    ensures var s := SetFree(t, i);
      HeapSpec.Free(t, i) == if i > 0 && Mergeable(s, i - 1) then Merge(Merge(s, i - 1), i - 1) else Merge(s, i)
  {
  }

  /** The free header in front of a free block i. */
  lemma FreeBefore(l: Layout, h: Headers, root: int, t: seq<Block>, i: nat)
    requires Sound(l) && Tiled(l, t) && FreeList(h, root, FreeOf(t)) && Written(h, t) && i < |t| && t[i].free
    ensures var k := |FreeOf(t[..i])|; var p := t[i].addr;
      && k < |FreeOf(t)| && FreeOf(t)[k] == p && p in h.prev
      && h.prev[p] == (if k > 0 then FreeOf(t)[k - 1] else NULL)
      && (k > 0 ==> (h.prev[p] != NULL && h.prev[p] in h.next && h.next[h.prev[p]] == p))
  {
    FreeSplit(t, i);
    hide *;
    var k := |FreeOf(t[..i])|;
    ListAt(h, root, FreeOf(t), k);
    if k > 0 {
      ListAt(h, root, FreeOf(t), k - 1);
    }
  }

  lemma FreePlace(t: seq<Block>, i: nat)
    requires i < |t| && t[i].free
    ensures |FreeOf(t[..i])| < |FreeOf(t)| && FreeOf(t)[|FreeOf(t[..i])|] == t[i].addr
  {
    FreeSplit(t, i);
    hide *;
  }

  lemma OneFreeMore(t: seq<Block>, i: nat)
    requires 0 < i < |t| && Mergeable(t, i - 1)
    ensures |FreeOf(t[..i])| == |FreeOf(t[..i - 1])| + 1
  {
    assert t[..i] == t[..i - 1] + [t[i - 1]];
    FreeAppend(t[..i - 1], [t[i - 1]]);
    assert FreeOf([t[i - 1]]) == [t[i - 1].addr];
  }

  /** The block of the free header in front of block i can only be merged with i if it is block i - 1. */
  lemma MergeBefore(l: Layout, t: seq<Block>, i: nat)
    requires Sound(l) && Tiled(l, t) && i < |t| && t[i].free
    ensures var k := |FreeOf(t[..i])|;
      && k <= |FreeOf(t)| && (i > 0 && Mergeable(t, i - 1) ==> k > 0)
      && (k > 0 ==> (Mergeable(t, Pos(t, k - 1)) <==> i > 0 && Mergeable(t, i - 1)))
      && (k > 0 && Mergeable(t, Pos(t, k - 1)) ==> Pos(t, k - 1) == i - 1)
  {
    hide *;
    var k := |FreeOf(t[..i])|;
    FreePlace(t, i);
    if i > 0 && Mergeable(t, i - 1) {
      MergeFree(t, i - 1);
      OneFreeMore(t, i);
      PosOf(l, t, k - 1, i - 1);
    }
    if k > 0 && Mergeable(t, Pos(t, k - 1)) {
      var j := Pos(t, k - 1);
      MergeFree(t, j);
      PosSplit(t, k - 1);
      MergeableNext(t, j);
      AddressAt(l, t, j + 1, i);
    }
  }

  lemma PosOf(l: Layout, t: seq<Block>, k: nat, j: nat)
    requires Sound(l) && Tiled(l, t) && k < |FreeOf(t)| && j < |t| && t[j].addr == FreeOf(t)[k]
    ensures Pos(t, k) == j
  {
    hide *;
    AddressAt(l, t, Pos(t, k), j);
  }

  lemma MergeableNext(t: seq<Block>, j: nat)
    requires Mergeable(t, j)
    ensures j + 1 < |t|
  {
  }

  /** The free header in front of block i, and when the two touch. */
  lemma Before(l: Layout, h: Headers, root: int, t: seq<Block>, i: nat)
    requires Sound(l) && Tiled(l, t) && FreeList(h, root, FreeOf(t)) && Written(h, t) && i < |t| && t[i].free
    ensures var k := |FreeOf(t[..i])|; var p := t[i].addr;
      && p in h.prev && (h.prev[p] == NULL ==> k == 0 && !(i > 0 && Mergeable(t, i - 1)))
      && k <= |FreeOf(t)|
      && (h.prev[p] != NULL ==> k > 0 && (var j := Pos(t, k - 1);
            && j < |t| && t[j].free && t[j].addr == h.prev[p] && h.prev[p] in h.next && h.next[h.prev[p]] == p
            && (Mergeable(t, j) <==> i > 0 && Mergeable(t, i - 1)) && (Mergeable(t, j) ==> j == i - 1)
            && (!Mergeable(t, j) ==> Merge(t, j) == t)))
  {
    hide *;
    FreeBefore(l, h, root, t, i);
    MergeBefore(l, t, i);
    var k := |FreeOf(t[..i])|;
    if k > 0 {
      NotMerged(t, Pos(t, k - 1));
    }
  }

  lemma NotMerged(t: seq<Block>, j: nat)
    ensures !Mergeable(t, j) ==> Merge(t, j) == t
  {
  }

  lemma MergedAt(t: seq<Block>, i: nat)
    requires i < |t| && t[i].free
    ensures i > 0 && Mergeable(t, i - 1) ==> var u := Merge(t, i - 1);
      i - 1 < |u| && u[i - 1].free && u[i - 1].addr == t[i - 1].addr
  {
  }

  /** A free block given back again changes nothing. */
  lemma FreeAgain(l: Layout, t: seq<Block>, i: nat)
    requires Coalesced(t) && i < |t| && t[i].free
    ensures HeapSpec.Free(t, i) == t && !(i > 0 && Mergeable(t, i - 1)) && !Mergeable(t, i)
  {
    AlreadyFree(t, i);
    if i > 0 && t[i - 1].free {
      assert End(t[i - 1]) != t[i].addr;
    }
    if i + 1 < |t| && t[i + 1].free {
      assert End(t[i]) != t[i + 1].addr;
    }
  }

  // ----- kfree

  /** The two calls of checkAndMergeMemHeaders for header p: first the one before p, then what p is in now. */
  ghost predicate TwiceChecked(h: Headers, p: int, first: bool, h2: Headers, m: int, second: bool, h3: Headers) {
    && p in h.prev
    && (if h.prev[p] == NULL then !first && h2 == h else Checked(h, h.prev[p], p, first, h2))
    && m == (if first then h.prev[p] else p)
    && m in h2.next && Checked(h2, m, h2.next[m], second, h3)
  }

  lemma TwiceIs(h: Headers, p: int, first: bool, h2: Headers, m: int, second: bool, h3: Headers)
    ensures TwiceChecked(h, p, first, h2, m, second, h3) <==>
      (&& p in h.prev
       && (if h.prev[p] == NULL then !first && h2 == h else Checked(h, h.prev[p], p, first, h2))
       && m == (if first then h.prev[p] else p)
       && m in h2.next && Checked(h2, m, h2.next[m], second, h3))
  {
  }

  lemma FreedBlock(l: Layout, h: Headers, root: int, t: seq<Block>, i: nat, h1: Headers, root1: int, ok: bool,
                   first: bool, h2: Headers, m: int, second: bool, h3: Headers)
    requires Sound(l) && HeapAt(l, h, root, t) && Coalesced(t) && i < |t|
    requires WasInserted(t, h, root, t[i].addr, h1, root1, ok) && TwiceChecked(h1, t[i].addr, first, h2, m, second, h3)
    ensures HeapAt(l, h3, root1, HeapSpec.Free(t, i)) && Coalesced(HeapSpec.Free(t, i))
    ensures t[i].free ==> h3 == h && root1 == root
  {
    hide *;
    InsertedBlock(l, h, root, t, i, h1, root1, ok);
    var u := SetFree(t, i);
    IsFree(t, i);
    FreeIs(t, i);
    FirstMerge(l, h1, root1, u, i, first, h2, m, second, h3);
    MergedAt(u, i);
    var j := if first then i - 1 else i;
    var v := if first then Merge(u, i - 1) else u;
    BlockMerged(l, h2, root1, v, j, second, h3);
    HeapIs(l, h, root, t);
    FreeKeeps(l, t, i);
    if t[i].free {
      AlreadyFree(t, i);
      FreeAgain(l, t, i);
      ListWithIs(t, h, root, t[i].addr, h1, root1, ok);
      TwiceIs(h1, t[i].addr, first, h2, m, second, h3);
      CheckedSame(h1, h1.prev[t[i].addr], t[i].addr, first, h2);
      CheckedSame(h2, m, h2.next[m], second, h3);
    }
  }

  lemma FirstMerge(l: Layout, h: Headers, root: int, t: seq<Block>, i: nat, first: bool, h2: Headers, m: int, second: bool, h3: Headers)
    requires Sound(l) && HeapAt(l, h, root, t) && i < |t| && t[i].free && TwiceChecked(h, t[i].addr, first, h2, m, second, h3)
    ensures first == (i > 0 && Mergeable(t, i - 1)) && HeapAt(l, h2, root, if first then Merge(t, i - 1) else t)
    ensures m == (if first then t[i - 1].addr else t[i].addr) && m in h2.next && Checked(h2, m, h2.next[m], second, h3)
  {
    hide *;
    var p := t[i].addr;
    HeapIs(l, h, root, t);
    TwiceIs(h, p, first, h2, m, second, h3);
    Before(l, h, root, t, i);
    if h.prev[p] != NULL {
      var j := Pos(t, |FreeOf(t[..i])| - 1);
      BlockMerged(l, h, root, t, j, first, h2);
    }
  }

  lemma FreedStale(l: Layout, h: Headers, root: int, t: seq<Block>, p: int, h1: Headers, root1: int, ok: bool,
                   first: bool, h2: Headers, m: int, second: bool, h3: Headers)
    requires Sound(l) && HeapAt(l, h, root, t) && p in h.sanityCheck && At(t, p) == |t|
    requires WasInserted(t, h, root, p, h1, root1, ok) && TwiceChecked(h1, p, first, h2, m, second, h3)
    ensures forall u :: !(Tiled(l, u) && RepHeap(h3, root1, u))
  {
    hide *;
    InsertedList(l, h, root, t, p, h1, root1, ok);
    ListWithIs(t, h, root, p, h1, root1, ok);
    TwiceIs(h1, p, first, h2, m, second, h3);
    HeapIs(l, h, root, t);
    BlockAt(t, p);
    var s, k := ListWith(t, p, ok), PlaceOf(FreeOf(t), p);
    ListAt(h1, root1, s, k);
    if k > 0 {
      InsertedBefore(FreeOf(t), k, p);
      BeforeStale(l, h, root, t, p, h1, first, h2);
    }
    OnlySize(h1, p, h1.next[p], second, h3);
    if second {
      AfterStale(h1, root1, s, k, h3);
      NoRow(l, h, t, h3, root1, Without(s, k + 1), p);
    } else {
      CheckedSame(h2, m, h2.next[m], second, h3);
      assert s[k] in s;
      NoRow(l, h, t, h3, root1, s, p);
    }
  }

  lemma InsertedBefore(s: seq<int>, k: nat, p: int)
    requires 0 < k <= |s|
    ensures Inserted(s, k, p)[k - 1] == s[k - 1]
  {
  }

  /** The free block in front of a header that is no block does not end there. */
  lemma BeforeStale(l: Layout, h: Headers, root: int, t: seq<Block>, p: int, h1: Headers, first: bool, h2: Headers)
    requires Sound(l) && HeapAt(l, h, root, t) && p in h.sanityCheck && At(t, p) == |t| && h1.size == h.size
    requires var k := PlaceOf(FreeOf(t), p); 0 < k <= |FreeOf(t)| && Checked(h1, FreeOf(t)[k - 1], p, first, h2)
    ensures !first && h2 == h1
  {
    HeaderFacts(l, h, root, t, p);
    var x := FreeOf(t)[PlaceOf(FreeOf(t), p) - 1];
    assert x in FreeOf(t);
    BlockAt(t, x);
    var i := At(t, x);
    BlockFacts(l, h, t, i);
    EndOf(l, t, i);
    NoBlockBehind(l, t, i, p);
    hide HeapAt, FreeOf, PlaceOf, MergeHeaders;
  }

  lemma AfterStale(h: Headers, root: int, s: seq<int>, k: nat, h': Headers)
    requires FreeList(h, root, s) && Sized(h, s) && k < |s| && s[k] in h.next && Checked(h, s[k], h.next[s[k]], true, h')
    ensures k + 1 < |s| && FreeList(h', root, Without(s, k + 1)) && s[k] in Without(s, k + 1)
  {
    ListAt(h, root, s, k);
    SizedMerge(h, root, s, k + 1, h');
    hide FreeList;
    assert Without(s, k + 1)[k] == s[k];
  }

  lemma OnlySize(h: Headers, f: int, g: int, ok: bool, h': Headers)
    requires Checked(h, f, g, ok, h')
    ensures forall x :: x in h.size && x in h'.size && x != f ==> h'.size[x] == h.size[x]
  {
  }

  lemma AtAddress(t: seq<Block>, x: int)
    ensures At(t, x) < |t| ==> t[At(t, x)].addr == x
  {
  }

  lemma RowOf(l: Layout, h: Headers, root: int, t: seq<Block>)
    requires HeapAt(l, h, root, t)
    ensures exists u :: Tiled(l, u) && RepHeap(h, root, u)
  {
    assert Tiled(l, t) && RepHeap(h, root, t);
  }

  lemma MallocIs(l: Layout, t: seq<Block>, n: nat)
    requires CanDo(l, t, Malloc(n))
    ensures var i := FirstFit(t, n); i < |t| && SplitArm(l, t[i], n) && Do(l, t, Malloc(n)) == Split(t, i, n)
  {
  }

  lemma KfreeIs(l: Layout, t: seq<Block>, x: int)
    requires CanDo(l, t, Kfree(x))
    ensures At(t, x) < |t| && Do(l, t, Kfree(x)) == HeapSpec.Free(t, At(t, x))
  {
  }

  lemma SameLinks(l: Layout, h: Headers, root: int, h': Headers, root': int, t: seq<Block>)
    requires Sound(l) && HeapAt(l, h, root, t) && HeapAt(l, h', root', t)
    ensures root' == root
    ensures forall i :: 0 <= i < |t| ==>
      var p := t[i].addr;
      && p in h'.next && p in h.next && h'.next[p] == h.next[p]
      && p in h'.prev && p in h.prev && h'.prev[p] == h.prev[p]
      && p in h'.size && p in h.size && h'.size[p] == h.size[p]
  {
    forall i | 0 <= i < |t|
      ensures var p := t[i].addr;
        && p in h'.next && p in h.next && h'.next[p] == h.next[p]
        && p in h'.prev && p in h.prev && h'.prev[p] == h.prev[p]
        && p in h'.size && p in h.size && h'.size[p] == h.size[p]
    {
      RowDecidesLinks(l, h, root, h', root', t, i);
    }
    HeadOf(h.next, root, FreeOf(t));
    HeadOf(h'.next, root', FreeOf(t));
  }

  // ----- splitting

  lemma EmptyIs()
    ensures EMPTY == -1 && HEADER == 16
  {
  }

  /** The subtraction of sizes is of unsigned longs. */
  function Wrap(x: int): int {
    if x < 0 then x + 0x1_0000_0000 else x
  }

  /** A write through a pointer; one through NULL hits no header. */
  function SetAt(f: Field, p: int, v: int): Field {
    if p == NULL then f else f[p := v]
  }

  lemma NoneBefore(t: seq<Block>, n: nat)
    ensures SmallUpTo(t, 0, n)
    ensures forall k: nat :: k < |FreeOf(t)| ==> Pos(t, k) < |t|
  {
  }

  lemma OneMore(t: seq<Block>, k: nat, n: nat)
    requires SmallUpTo(t, k, n) && k < |FreeOf(t)| && t[Pos(t, k)].size < n
    ensures SmallUpTo(t, k + 1, n)
  {
  }

  lemma FreeAt(l: Layout, h: Headers, t: seq<Block>, k: nat)
    requires Sound(l) && Tiled(l, t) && Written(h, t) && k < |FreeOf(t)|
    ensures var p := FreeOf(t)[k]; var i := Pos(t, k);
      i < |t| && t[i].free && t[i].addr == p && p in h.size && h.size[p] == t[i].size && p >= 0
  {
    BlockFacts(l, h, t, Pos(t, k));
    AddressAt(l, t, Pos(t, k), Pos(t, k));
  }

  lemma SplitSteps(l: Layout, h: Headers, root: int, t: seq<Block>, i: nat, n: nat)
    requires Sound(l) && Coalesced(t) && HeapAt(l, h, root, t) && i < |t| && t[i].free
    ensures t[i].addr in h.size && t[i].addr in h.prev && t[i].addr in h.next && t[i].addr % PAGE_SIZE == 0 && t[i].addr >= 0
    ensures SplitArm(l, t[i], n) ==> var p := t[i].addr; var h' := SplitHeaders(h, p, RoundUp(n)); var u := Split(t, i, n);
      && Tiled(l, u) && Coalesced(u) && Written(h', u)
      && FreeList(h', if h.prev[p] == NULL then p + HEADER + RoundUp(n) else root, FreeOf(u)) && Kept(l, h', u)
  {
    BlockFacts(l, h, t, i);
    ChainAt(l, t, l.lo, i);
    if SplitArm(l, t[i], n) {
      var q := t[i].addr + HEADER + RoundUp(n);
      RestIsNew(l, t, i, q);
      SplitKeeps(l, t, i, n);
      SplitFree(t, i, n);
      NextIsFree(l, h, root, t);
      PrevIsFree(l, h, root, t);
      SplitWritten(l, h, t, i, n);
      SplitList(h, root, FreeOf(t), |FreeOf(t[..i])|, RoundUp(n));
      KeptSplit(l, h, t, i, n);
    }
    hide *;
  }

  lemma KeptSplit(l: Layout, h: Headers, t: seq<Block>, i: nat, n: nat)
    requires Sound(l) && Kept(l, h, t) && i < |t| && t[i].free && FreeNext(h, t) && FreePrev(h, t)
    requires t[i].addr in h.size && t[i].addr in h.prev && t[i].addr in h.next
    requires Tiled(l, Split(t, i, n)) && Written(SplitHeaders(h, t[i].addr, RoundUp(n)), Split(t, i, n))
    ensures Kept(l, SplitHeaders(h, t[i].addr, RoundUp(n)), Split(t, i, n))
  {
    var p := t[i].addr;
    var h' := SplitHeaders(h, p, RoundUp(n));
    var u := Split(t, i, n);
    var q := p + HEADER + RoundUp(n);
    AtIn(u, p, i);
    AtIn(u, q, i + 1);
    AtIn(t, p, i);
    forall x | x in h'.sanityCheck && At(u, x) == |u|
      ensures x in h.sanityCheck && x in h'.size && x in h'.next && x in h'.prev && h'.sanityCheck[x] == h.sanityCheck[x]
      ensures h'.size[x] == h.size[x] && h'.next[x] == NULL && h'.prev[x] == NULL
    {
      assert x != p && x != q;
      assert HeaderAt(l, h, x);
      NotSplitAt(t, i, n, x);
      if h.next[p] != NULL {
        BlockAt(t, h.next[p]);
      }
      if h.prev[p] != NULL {
        BlockAt(t, h.prev[p]);
      }
    }
    KeptBy(l, h, t, h', u);
  }

  /** All blocks stay. */
  lemma NotSplitAt(t: seq<Block>, i: nat, n: nat, x: int)
    requires i < |t| && At(Split(t, i, n), x) == |Split(t, i, n)|
    ensures At(t, x) == |t|
  {
    var u := Split(t, i, n);
    var j := At(t, x);
    if j < |t| {
      if j <= i {
        assert u[j].addr == t[j].addr;
        AtIn(u, x, j);
      } else {
        assert u[j + 1] == t[j];
        AtIn(u, x, j + 1);
      }
    }
  }

  /** What the assignments of the splitting arm come to. */
  lemma SplitCode(l: Layout, h: Headers, b: Block, start: int, n: nat, h': Headers)
    requires b.addr in h.size && b.addr in h.prev && b.addr in h.next && b.size == h.size[b.addr]
    requires b.addr >= 0 && b.addr % PAGE_SIZE == 0 && start == RoundUp(b.addr + HEADER + n)
    requires var r := RoundUp(n); var next := h.next[start := h.next[b.addr]]; var prev := h.prev[start := h.prev[b.addr]];
      !(l.hs - HEADER <= start < l.he - HEADER) && start < l.hi - 1 ==>
        h' == Headers(h.size[start := Wrap(h.size[b.addr] - (HEADER + r))][b.addr := r],
                    SetAt(prev, h.next[b.addr], start)[b.addr := NULL],
                    (if h.prev[b.addr] == NULL then next else SetAt(next, h.prev[b.addr], start))[b.addr := NULL],
                    h.sanityCheck[start := start + HEADER])
    ensures start == b.addr + HEADER + RoundUp(n)
    ensures SplitArm(l, b, n) ==> !(l.hs - HEADER <= start < l.he - HEADER) && start < l.hi - 1
    ensures SplitArm(l, b, n) ==> h' == SplitHeaders(h, b.addr, RoundUp(n))
  {
  }
}
