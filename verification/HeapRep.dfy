// How the headers in memory hold the row of blocks: the free ones are a list in address order.
module HeapRep {
  import opened Links
  import opened HeapSpec

  /** The fields of the headers, from the address of the header to the value. */
  datatype Headers = Headers(size: Field, prev: Field, next: Field, sanityCheck: Field)

  function FreeOf(t: seq<Block>): seq<int> {
    if t == [] then [] else if t[0].free then [t[0].addr] + FreeOf(t[1..]) else FreeOf(t[1..])
  }

  ghost predicate FreeList(h: Headers, root: int, s: seq<int>) {
    && Linked(h.next, root, s)
    && BackLinked(h.prev, s)
    && (s != [] ==> h.prev[s[0]] == NULL)
  }

  ghost predicate Written(h: Headers, t: seq<Block>) {
    forall i :: 0 <= i < |t| ==>
      && t[i].addr in h.size && t[i].addr in h.prev && t[i].addr in h.next && t[i].addr in h.sanityCheck
      && h.size[t[i].addr] == t[i].size && h.sanityCheck[t[i].addr] == t[i].addr + HEADER
      && (!t[i].free ==> h.prev[t[i].addr] == NULL && h.next[t[i].addr] == NULL)
  }

  ghost predicate RepHeap(h: Headers, root: int, t: seq<Block>) {
    FreeList(h, root, FreeOf(t)) && Written(h, t)
  }

  // ----- the free blocks of a row

  lemma {:induction false} FreeAppend(a: seq<Block>, b: seq<Block>)
    ensures FreeOf(a + b) == FreeOf(a) + FreeOf(b)
    decreases |a|
  {
    if a == [] {
      assert a + b == b;
    } else {
      assert (a + b)[0] == a[0] && (a + b)[1..] == a[1..] + b;
      FreeAppend(a[1..], b);
    }
  }

  lemma FreeSplit(t: seq<Block>, i: nat)
    requires i < |t|
    ensures FreeOf(t) == FreeOf(t[..i]) + (if t[i].free then [t[i].addr] else []) + FreeOf(t[i + 1..])
  {
    assert t == t[..i] + t[i..];
    FreeAppend(t[..i], t[i..]);
    assert t[i..][0] == t[i] && t[i..][1..] == t[i + 1..];
  }

  lemma {:induction false} FreeIn(t: seq<Block>, x: int)
    requires x in FreeOf(t)
    ensures exists i :: 0 <= i < |t| && t[i].free && t[i].addr == x
    decreases |t|
  {
    if t[0].free && t[0].addr == x {
    } else {
      FreeIn(t[1..], x);
      var i :| 0 <= i < |t[1..]| && t[1..][i].free && t[1..][i].addr == x;
      assert t[i + 1].addr == x;
    }
  }

  ghost predicate Below(s: seq<int>, x: int) {
    forall y :: y in s ==> y < x
  }

  ghost predicate Above(s: seq<int>, x: int) {
    forall y :: y in s ==> y > x
  }

  /** The free blocks before block i have lower addresses, those behind it higher ones. */
  lemma FreeAround(l: Layout, t: seq<Block>, i: nat)
    requires Sound(l) && Tiled(l, t) && i < |t|
    ensures Below(FreeOf(t[..i]), t[i].addr) && Above(FreeOf(t[i + 1..]), t[i].addr)
  {
    var a, b := FreeOf(t[..i]), FreeOf(t[i + 1..]);
    forall x | x in a
      ensures x < t[i].addr
    {
      FreeIn(t[..i], x);
      var j :| 0 <= j < |t[..i]| && t[..i][j].addr == x;
      ChainOrder(l, t, l.lo, j, i);
    }
    forall x | x in b
      ensures x > t[i].addr
    {
      FreeIn(t[i + 1..], x);
      var j :| 0 <= j < |t[i + 1..]| && t[i + 1..][j].addr == x;
      assert t[i + 1..][j] == t[i + 1 + j];
      ChainOrder(l, t, l.lo, i, i + 1 + j);
    }
  }

  /** The free list is in address order. */
  lemma {:induction false} FreeSorted(l: Layout, t: seq<Block>, from: int)
    requires Sound(l) && Chain(l, t, from)
    ensures forall j :: 0 <= j < |FreeOf(t)| ==> FreeOf(t)[j] >= from
    ensures forall j, k :: 0 <= j < k < |FreeOf(t)| ==> FreeOf(t)[j] < FreeOf(t)[k]
    decreases |t|
  {
    if t == [] {
    } else {
      var rest := FreeOf(t[1..]);
      FreeSorted(l, t[1..], Skip(l, End(t[0])));
      if t[0].free {
        assert FreeOf(t) == [t[0].addr] + rest;
      }
    }
  }

  /** The block of the k-th free one. */
  function Pos(t: seq<Block>, k: nat): (i: nat)
    requires k < |FreeOf(t)|
    ensures i < |t| && t[i].free && t[i].addr == FreeOf(t)[k]
    decreases |t|
  {
    if t[0].free then (if k == 0 then 0 else 1 + Pos(t[1..], k - 1)) else 1 + Pos(t[1..], k)
  }

  lemma {:induction false} PosSplit(t: seq<Block>, k: nat)
    requires k < |FreeOf(t)|
    ensures FreeOf(t[..Pos(t, k)]) == FreeOf(t)[..k]
    decreases |t|
  {
    if t[0].free && k == 0 {
      assert t[..0] == [];
    } else {
      var i := Pos(t, k);
      PosSplit(t[1..], if t[0].free then k - 1 else k);
      assert t[..i][0] == t[0] && t[..i][1..] == t[1..][..i - 1];
    }
  }

  lemma AddressAt(l: Layout, t: seq<Block>, i: nat, j: nat)
    requires Sound(l) && Tiled(l, t) && i < |t| && j < |t|
    ensures t[i].addr == t[j].addr <==> i == j
    ensures t[i].addr != NULL && t[i].addr >= 0
  {
    ChainAt(l, t, l.lo, i);
    if i < j {
      ChainOrder(l, t, l.lo, i, j);
    } else if j < i {
      ChainOrder(l, t, l.lo, j, i);
    }
  }

  // ----- headers that are no blocks any more

  /** A header that was written once: all its fields are there, at an address of memory. */
  ghost predicate HeaderAt(l: Layout, h: Headers, x: int) {
    && x in h.size && x in h.next && x in h.prev && x in h.sanityCheck
    && h.size[x] >= 0 && h.sanityCheck[x] == x + HEADER
    && l.lo <= x < l.hi && !(l.hs <= x < l.he) && x % PAGE_SIZE == 0
  }

  /** A merged header keeps its sanity check but is in no list. */
  ghost predicate Kept(l: Layout, h: Headers, t: seq<Block>) {
    forall x :: x in h.sanityCheck ==>
      HeaderAt(l, h, x) && (At(t, x) == |t| ==> h.next[x] == NULL && h.prev[x] == NULL)
  }

  lemma BlockAt(t: seq<Block>, x: int)
    ensures x in FreeOf(t) ==> At(t, x) < |t|
  {
    if x in FreeOf(t) {
      FreeIn(t, x);
      var i :| 0 <= i < |t| && t[i].free && t[i].addr == x;
      AtFirst(t, i);
    }
  }

  /** Headers that are no blocks of the new row u have not changed. */
  lemma KeptBy(l: Layout, h: Headers, t: seq<Block>, h': Headers, u: seq<Block>)
    requires Sound(l) && Tiled(l, u) && Written(h', u) && Kept(l, h, t)
    requires forall x :: x in h'.sanityCheck && At(u, x) == |u| ==>
      && x in h.sanityCheck && x in h'.size && x in h'.next && x in h'.prev && h'.sanityCheck[x] == h.sanityCheck[x]
      && h'.size[x] == h.size[x] && h'.next[x] == NULL && h'.prev[x] == NULL
    ensures Kept(l, h', u)
  {
    forall x | x in h'.sanityCheck
      ensures HeaderAt(l, h', x) && (At(u, x) == |u| ==> h'.next[x] == NULL && h'.prev[x] == NULL)
    {
      var i := At(u, x);
      if i < |u| {
        ChainAt(l, u, l.lo, i);
        ChainBound(l, u, l.lo);
        assert u[i].addr == x;
      } else {
        assert HeaderAt(l, h, x);
      }
    }
  }

  /** Where p belongs in a list in address order. */
  function PlaceOf(s: seq<int>, p: int): (k: nat)
    ensures k <= |s|
  {
    if s == [] || s[0] >= p then 0 else 1 + PlaceOf(s[1..], p)
  }

  lemma {:induction false} PlaceHere(s: seq<int>, p: int, k: nat)
    requires k <= |s| && (forall j :: 0 <= j < k ==> s[j] < p) && (k < |s| ==> s[k] >= p)
    ensures PlaceOf(s, p) == k
  {
    if k == 0 {
    } else {
      assert s[0] < p;
      PlaceHere(s[1..], p, k - 1);
    }
  }

  ghost predicate Ascending(s: seq<int>) {
    forall j, k :: 0 <= j < k < |s| ==> s[j] < s[k]
  }

  /** Only the links of p and of members of s differ. */
  ghost predicate Relinked(h: Headers, h': Headers, s: seq<int>, p: int) {
    && h'.size == h.size && h'.sanityCheck == h.sanityCheck
    && (forall x :: x in h.next ==> x in h'.next && (x == p || x in s || h'.next[x] == h.next[x]))
    && (forall x :: x in h.prev ==> x in h'.prev && (x == p || x in s || h'.prev[x] == h.prev[x]))
  }

  lemma {:induction false} OneList(next: Field, root: int, a: seq<int>, b: seq<int>, k: nat)
    requires Linked(next, root, a) && Linked(next, root, b) && k <= |a|
    ensures k <= |b| && a[..k] == b[..k] && (k == |a| ==> k == |b|)
  {
    HeadOf(next, root, a);
    HeadOf(next, root, b);
    if k == 0 {
    } else {
      OneList(next, root, a, b, k - 1);
      Follow(next, root, a, k - 1);
      if k - 1 < |b| {
        if k > 1 {
          Follow(next, root, a, k - 2);
          Follow(next, root, b, k - 2);
          assert a[k - 2] == a[..k - 1][k - 2] == b[k - 2];
        }
        Follow(next, root, b, k - 1);
        assert a[..k] == a[..k - 1] + [a[k - 1]] && b[..k] == b[..k - 1] + [b[k - 1]];
      } else if k > 1 {
        Follow(next, root, b, k - 2);
      }
    }
  }

  /** Rows whose sizes agree, but for a header that is in neither way, have the same blocks. */
  lemma {:induction false} SameBlocks(l: Layout, h: Headers, t: seq<Block>, h': Headers, u: seq<Block>, from: int, p: int)
    requires Sound(l) && Chain(l, t, from) && Chain(l, u, from) && Reach(l, t, from) == Reach(l, u, from)
    requires forall i :: 0 <= i < |t| ==> t[i].addr in h.size && h.size[t[i].addr] == t[i].size && t[i].addr != p
    requires forall i :: 0 <= i < |u| ==> u[i].addr in h'.size && h'.size[u[i].addr] == u[i].size
    requires forall x :: x in h.size && x in h'.size && x != p ==> h'.size[x] == h.size[x]
    ensures forall i :: 0 <= i < |u| ==> u[i].addr != p
    decreases |t|
  {
    if t == [] {
      if u != [] {
        ChainBound(l, u, from);
        ChainAt(l, u, from, 0);
        assert false;
      }
    } else if u == [] {
    } else {
      assert t[0].addr in h.size && u[0].addr in h'.size;
      var next := Skip(l, End(t[0]));
      assert forall i :: 0 <= i < |t[1..]| ==> t[1..][i] == t[i + 1];
      assert forall i :: 0 <= i < |u[1..]| ==> u[1..][i] == u[i + 1];
      SameBlocks(l, h, t[1..], h', u[1..], next, p);
      forall i | 0 <= i < |u|
        ensures u[i].addr != p
      {
        assert i > 0 ==> u[i] == u[1..][i - 1];
      }
    }
  }

  /** A list with a header that is no block belongs to no row at all. */
  lemma NoRow(l: Layout, h: Headers, t: seq<Block>, h': Headers, root': int, s': seq<int>, p: int)
    requires Sound(l) && Tiled(l, t) && Written(h, t) && At(t, p) == |t|
    requires FreeList(h', root', s') && p in s' && forall x :: x in h.size && x in h'.size && x != p ==> h'.size[x] == h.size[x]
    ensures forall u :: !(Tiled(l, u) && RepHeap(h', root', u))
  {
    forall u | Tiled(l, u) && RepHeap(h', root', u)
      ensures false
    {
      OneList(h'.next, root', s', FreeOf(u), |s'|);
      assert s'[..|s'|] == s' && FreeOf(u)[..|s'|] == FreeOf(u);
      BlockAt(u, p);
      forall i | 0 <= i < |t|
        ensures t[i].addr != p
      {
        AtFirst(t, i);
      }
      SameBlocks(l, h, t, h', u, l.lo, p);
    }
  }

  /** The block behind block i begins where block i ends, unless that is in the hole or out of memory. */
  lemma NoBlockBehind(l: Layout, t: seq<Block>, i: nat, x: int)
    requires Sound(l) && Tiled(l, t) && i < |t| && At(t, x) == |t| && l.lo <= x < l.hi && !(l.hs <= x < l.he)
    ensures End(t[i]) != x
  {
    if End(t[i]) == x {
      var a, b := t[..i + 1], t[i + 1..];
      assert t == a + b && a == t[..i] + [t[i]];
      ChainAppend(l, a, b, l.lo);
      ChainAppend(l, t[..i], [t[i]], l.lo);
      Chain1(l, t[i], Reach(l, t[..i], l.lo));
      assert Reach(l, a, l.lo) == x;
      if b != [] {
        assert t[i + 1] == b[0];
        AtFirst(t, i + 1);
      }
    }
  }

  // ----- insertion of a free header

  lemma SetFreeList(t: seq<Block>, i: nat)
    requires i < |t| && !t[i].free
    ensures |FreeOf(t[..i])| <= |FreeOf(t)|
    ensures FreeOf(SetFree(t, i)) == Inserted(FreeOf(t), |FreeOf(t[..i])|, t[i].addr)
  {
    var s := SetFree(t, i);
    FreeSplit(t, i);
    assert FreeOf(t) == FreeOf(t[..i]) + FreeOf(t[i + 1..]);
    FreeSplit(s, i);
    assert s[..i] == t[..i] && s[i + 1..] == t[i + 1..];
  }

  /** Only the links of free blocks differ. */
  lemma WrittenLinks(l: Layout, h: Headers, h': Headers, t: seq<Block>, i: nat)
    requires Written(h, t) && i < |t| && Sound(l) && Tiled(l, t)
    requires h'.size == h.size && h'.sanityCheck == h.sanityCheck
    requires forall x :: x in h.next ==> x in h'.next && (x == t[i].addr || x in FreeOf(t) || h'.next[x] == h.next[x])
    requires forall x :: x in h.prev ==> x in h'.prev && (x == t[i].addr || x in FreeOf(t) || h'.prev[x] == h.prev[x])
    ensures Written(h', SetFree(t, i))
  {
    var s := SetFree(t, i);
    forall j | 0 <= j < |s|
      ensures s[j].addr == t[j].addr && s[j].size == t[j].size
      ensures j != i && !s[j].free ==> s[j].addr != t[i].addr && s[j].addr !in FreeOf(t)
    {
      AddressAt(l, t, i, j);
      if s[j].addr in FreeOf(t) {
        FreeIn(t, s[j].addr);
        var m :| 0 <= m < |t| && t[m].free && t[m].addr == s[j].addr;
        AddressAt(l, t, m, j);
      }
    }
  }

  lemma NotFree(l: Layout, t: seq<Block>, i: nat)
    requires Sound(l) && Tiled(l, t) && i < |t|
    ensures t[i].addr in FreeOf(t) <==> t[i].free
    ensures t[i].addr != NULL
  {
    AddressAt(l, t, i, i);
    if t[i].addr in FreeOf(t) {
      FreeIn(t, t[i].addr);
      var m :| 0 <= m < |t| && t[m].free && t[m].addr == t[i].addr;
      AddressAt(l, t, m, i);
    }
    if t[i].free {
      FreeSplit(t, i);
    }
  }

  /** linkMemHeaderInFront */
  function LinkInFront(h: Headers, p: int, q: int): Headers
    requires q in h.prev
  {
    var n := h.next[p := q];
    h.(next := if h.prev[q] != NULL then n[h.prev[q] := p] else n, prev := h.prev[p := h.prev[q]][q := p])
  }

  /** linkMemHeaderBehind, at the end of the list */
  function LinkBehind(h: Headers, q: int, p: int): Headers
    requires q in h.next && q in h.prev
  {
    h.(prev := if h.next[q] != NULL then h.prev[p := q][h.next[q] := p] else h.prev[p := q], next := h.next[p := h.next[q]][q := p])
  }

  lemma ListInFront(h: Headers, root: int, s: seq<int>, k: nat, p: int)
    requires FreeList(h, root, s) && k < |s| && p !in s && p != NULL && p in h.next && p in h.prev
    ensures s[k] in h.prev
    ensures FreeList(LinkInFront(h, p, s[k]), if k == 0 then p else root, Inserted(s, k, p))
  {
    Distinct(h.next, root, s);
    HeadOf(h.next, root, s);
    if k == 0 {
      Push(h.next, root, s, p);
      BackPush(h.prev, s, p);
      assert Inserted(s, 0, p) == [p] + s;
      BackTail(h.prev[s[0] := p], h.prev[p := NULL][s[0] := p], [p] + s);
    } else {
      Follow(h.next, root, s, k - 1);
      Links.Insert(h.next, root, s, k, p);
      BackInsert(h.prev, s, k, p);
      assert h.prev[s[k]] == s[k - 1];
      hide Linked, BackLinked;
      assert s[0] in s && s[0] != s[k];
    }
  }

  lemma BackTail(prev: Field, prev': Field, s: seq<int>)
    requires BackLinked(prev, s) && s != [] && s[0] in prev'
    requires forall x :: x in prev && x != s[0] ==> x in prev' && prev'[x] == prev[x]
    requires forall i, j :: 0 <= i < j < |s| ==> s[i] != s[j]
    ensures BackLinked(prev', s)
  {
    forall i, j | 0 <= i && j == i + 1 && j < |s|
      ensures s[j] in prev' && prev'[s[j]] == s[i]
    {
      assert prev[s[j]] == s[i];
    }
  }

  lemma ListBehind(h: Headers, root: int, s: seq<int>, p: int)
    requires FreeList(h, root, s) && s != [] && p !in s && p != NULL && p in h.next && p in h.prev
    ensures Last(s) in h.next && Last(s) in h.prev
    ensures FreeList(LinkBehind(h, Last(s), p), root, Inserted(s, |s|, p))
  {
    Follow(h.next, root, s, |s| - 1);
    Append(h.next, root, s, p);
    BackAppend(h.prev, s, p);
    assert Inserted(s, |s|, p) == s + [p];
    assert h.next[Last(s) := p][p := NULL] == h.next[p := NULL][Last(s) := p];
    assert s[0] in s;
    hide Linked, BackLinked;
  }

  lemma ListFirst(h: Headers, p: int)
    requires p in h.next && p in h.prev && h.next[p] == NULL && h.prev[p] == NULL && p != NULL
    ensures FreeList(h, p, [p])
  {
    Single(h.next, p);
  }

  // ----- merging

  /** The branch of checkAndMergeMemHeaders that merges g into f. */
  function MergeHeaders(h: Headers, f: int, g: int): Headers
    requires f in h.size && g in h.size && g in h.next
  {
    h.(next := h.next[f := h.next[g]][g := NULL],
       prev := (if h.next[g] != NULL then h.prev[h.next[g] := f] else h.prev)[g := NULL],
       size := h.size[f := h.size[f] + HEADER + h.size[g]])
  }

  lemma MergeList(h: Headers, root: int, s: seq<int>, k: nat)
    requires FreeList(h, root, s) && k + 1 < |s| && s[k] in h.size && s[k + 1] in h.size
    ensures s[k + 1] in h.next
    ensures FreeList(MergeHeaders(h, s[k], s[k + 1]), root, Without(s, k + 1))
  {
    Distinct(h.next, root, s);
    Follow(h.next, root, s, k + 1);
    if k + 2 < |s| {
      Follow(h.next, root, s, k + 2);
    }
    Unlink(h.next, root, s, k + 1);
    BackRemove(h.prev, s, k + 1);
    assert h.prev[s[k + 1]] == s[k];
    assert Without(s, k + 1)[0] == s[0] && s[0] != s[k + 1] && (k + 2 < |s| ==> s[0] != s[k + 2]);
    hide Linked, BackLinked;
  }

  lemma MergeFree(t: seq<Block>, j: nat)
    requires Mergeable(t, j)
    ensures var k := |FreeOf(t[..j])|;
      && k + 1 < |FreeOf(t)| && FreeOf(t)[k] == t[j].addr && FreeOf(t)[k + 1] == t[j + 1].addr
      && FreeOf(Merge(t, j)) == Without(FreeOf(t), k + 1)
  {
    var u := Merge(t, j);
    FreeSplit(t, j);
    assert t[j + 1..][0] == t[j + 1] && t[j + 1..][1..] == t[j + 2..];
    assert FreeOf(t[j + 1..]) == [t[j + 1].addr] + FreeOf(t[j + 2..]);
    FreeSplit(u, j);
    assert u[..j] == t[..j] && u[j + 1..] == t[j + 2..];
  }

  lemma MergeWritten(l: Layout, h: Headers, t: seq<Block>, j: nat)
    requires Sound(l) && Tiled(l, t) && Written(h, t) && Mergeable(t, j) && FreeNext(h, t)
    ensures t[j].addr in h.size && t[j + 1].addr in h.size && t[j + 1].addr in h.next
    ensures Written(MergeHeaders(h, t[j].addr, t[j + 1].addr), Merge(t, j))
  {
    var f, g := t[j].addr, t[j + 1].addr;
    assert t[j].addr in h.size && t[j + 1].addr in h.size;
    var h' := MergeHeaders(h, f, g);
    var u := Merge(t, j);
    var n := h.next[g];
    forall i | 0 <= i < |u|
      ensures u[i].addr in h'.size && u[i].addr in h'.prev && u[i].addr in h'.next && u[i].addr in h'.sanityCheck
      ensures h'.size[u[i].addr] == u[i].size && h'.sanityCheck[u[i].addr] == u[i].addr + HEADER
      ensures !u[i].free ==> h'.prev[u[i].addr] == NULL && h'.next[u[i].addr] == NULL
    {
      var m := if i <= j then i else i + 1;
      assert u[i].addr == t[m].addr;
      AddressAt(l, t, m, j);
      AddressAt(l, t, m, j + 1);
      if !u[i].free && u[i].addr == n {
        FreeNextAt(l, h, t, j + 1, m);
      }
    }
  }

  /** A free block leads to a free block or nowhere. */
  ghost predicate FreeNext(h: Headers, t: seq<Block>) {
    forall i :: 0 <= i < |t| && t[i].free && t[i].addr in h.next ==> h.next[t[i].addr] == NULL || h.next[t[i].addr] in FreeOf(t)
  }

  lemma FreeNextAt(l: Layout, h: Headers, t: seq<Block>, i: nat, m: nat)
    requires Sound(l) && Tiled(l, t) && FreeNext(h, t) && i < |t| && m < |t| && t[i].free && t[i].addr in h.next
    ensures h.next[t[i].addr] == t[m].addr ==> t[m].free
  {
    NotFree(l, t, m);
  }

  lemma NextIsFree(l: Layout, h: Headers, root: int, t: seq<Block>)
    requires Sound(l) && Tiled(l, t) && FreeList(h, root, FreeOf(t))
    ensures FreeNext(h, t)
  {
    forall i | 0 <= i < |t| && t[i].free && t[i].addr in h.next
      ensures h.next[t[i].addr] == NULL || h.next[t[i].addr] in FreeOf(t)
    {
      NotFree(l, t, i);
      var k :| 0 <= k < |FreeOf(t)| && FreeOf(t)[k] == t[i].addr;
      Follow(h.next, root, FreeOf(t), k);
    }
  }

  /** The next free block follows at once only if nothing lies between. */
  lemma TouchesNext(l: Layout, t: seq<Block>, j: nat)
    requires Sound(l) && Tiled(l, t) && j < |t| && t[j].free
    ensures var k := |FreeOf(t[..j])|;
      && k < |FreeOf(t)| && FreeOf(t)[k] == t[j].addr
      && (Mergeable(t, j) <==> k + 1 < |FreeOf(t)| && End(t[j]) == FreeOf(t)[k + 1])
  {
    var k := |FreeOf(t[..j])|;
    FreeSplit(t, j);
    if Mergeable(t, j) {
      MergeFree(t, j);
    }
    if k + 1 < |FreeOf(t)| {
      var m := Pos(t, k + 1);
      assert FreeOf(t)[k + 1] == FreeOf(t[j + 1..])[0];
      FreeAround(l, t, j);
      assert FreeOf(t[j + 1..])[0] in FreeOf(t[j + 1..]);
      assert t[m].addr > t[j].addr;
      if m < j {
        ChainOrder(l, t, l.lo, m, j);
      } else if m > j + 1 {
        ChainOrder(l, t, l.lo, j, j + 1);
        ChainOrder(l, t, l.lo, j + 1, m);
      }
    }
  }

  // ----- splitting

  /** The part of getMemHeader that puts a header for the rest behind node; r bytes are taken. */
  function SplitHeaders(h: Headers, node: int, r: int): Headers
    requires node in h.size && node in h.prev && node in h.next
  {
    var q := node + HEADER + r;
    var n := h.next[q := h.next[node]];
    var p := h.prev[q := h.prev[node]];
    Headers(h.size[q := h.size[node] - (HEADER + r)][node := r],
            (if h.next[node] != NULL then p[h.next[node] := q] else p)[node := NULL],
            (if h.prev[node] != NULL then n[h.prev[node] := q] else n)[node := NULL],
            h.sanityCheck[q := q + HEADER])
  }

  lemma SplitList(h: Headers, root: int, s: seq<int>, k: nat, r: int)
    requires FreeList(h, root, s) && k < |s| && s[k] in h.size
    requires var q := s[k] + HEADER + r; q !in s && q != NULL
    ensures s[k] in h.prev && s[k] in h.next
    ensures FreeList(SplitHeaders(h, s[k], r), if h.prev[s[k]] == NULL then s[k] + HEADER + r else root, s[k := s[k] + HEADER + r])
  {
    var q := s[k] + HEADER + r;
    Distinct(h.next, root, s);
    Follow(h.next, root, s, k);
    if k > 0 {
      Follow(h.next, root, s, k - 1);
      assert h.prev[s[k]] == s[k - 1];
    }
    Exchange(h.next, root, s, k, q);
    BackExchange(h.prev, s, k, q, NULL);
    if k + 1 < |s| {
      Follow(h.next, root, s, k + 1);
    }
    assert k > 0 ==> s[0] != s[k] && (k + 1 < |s| ==> s[0] != s[k + 1]) && s[0] in s;
    hide Linked, BackLinked;
  }

  lemma SplitFree(t: seq<Block>, i: nat, n: nat)
    requires i < |t| && t[i].free
    ensures var k := |FreeOf(t[..i])|;
      && k < |FreeOf(t)| && FreeOf(t)[k] == t[i].addr
      && FreeOf(Split(t, i, n)) == FreeOf(t)[k := t[i].addr + HEADER + RoundUp(n)]
  {
    var u := Split(t, i, n);
    FreeSplit(t, i);
    FreeSplit(u, i);
    assert u[..i] == t[..i] && u[i + 1..][0] == u[i + 1] && u[i + 1..][1..] == t[i + 1..];
  }

  lemma SplitWritten(l: Layout, h: Headers, t: seq<Block>, i: nat, n: nat)
    requires Sound(l) && Tiled(l, t) && Written(h, t) && i < |t| && t[i].free && t[i].size >= HEADER + RoundUp(n)
    requires FreeNext(h, t) && FreePrev(h, t)
    ensures t[i].addr in h.size && t[i].addr in h.prev && t[i].addr in h.next
    ensures Written(SplitHeaders(h, t[i].addr, RoundUp(n)), Split(t, i, n))
  {
    assert t[i].addr in h.size && t[i].addr in h.prev && t[i].addr in h.next;
    var h' := SplitHeaders(h, t[i].addr, RoundUp(n));
    var u := Split(t, i, n);
    var q := t[i].addr + HEADER + RoundUp(n);
    forall j | 0 <= j < |u|
      ensures u[j].addr in h'.size && u[j].addr in h'.prev && u[j].addr in h'.next && u[j].addr in h'.sanityCheck
      ensures h'.size[u[j].addr] == u[j].size && h'.sanityCheck[u[j].addr] == u[j].addr + HEADER
      ensures !u[j].free ==> h'.prev[u[j].addr] == NULL && h'.next[u[j].addr] == NULL
    {
      if j < i || j > i + 1 {
        var m := if j < i then j else j - 1;
        assert u[j] == t[m];
        AddressAt(l, t, m, i);
        Apart(l, t, i, m, q);
        NotFree(l, t, m);
      }
    }
  }

  ghost predicate FreePrev(h: Headers, t: seq<Block>) {
    forall i :: 0 <= i < |t| && t[i].free && t[i].addr in h.prev ==> h.prev[t[i].addr] == NULL || h.prev[t[i].addr] in FreeOf(t)
  }

  lemma PrevIsFree(l: Layout, h: Headers, root: int, t: seq<Block>)
    requires Sound(l) && Tiled(l, t) && FreeList(h, root, FreeOf(t))
    ensures FreePrev(h, t)
  {
    forall i | 0 <= i < |t| && t[i].free && t[i].addr in h.prev
      ensures h.prev[t[i].addr] == NULL || h.prev[t[i].addr] in FreeOf(t)
    {
      NotFree(l, t, i);
      var s := FreeOf(t);
      var k :| 0 <= k < |s| && s[k] == t[i].addr;
      if k > 0 {
        assert h.prev[s[k]] == s[k - 1];
        assert s[k - 1] in s;
      }
    }
  }

  /** An address inside one block is not that of another. */
  lemma Apart(l: Layout, t: seq<Block>, i: nat, m: nat, q: int)
    requires Sound(l) && Tiled(l, t) && i < |t| && m < |t| && m != i && t[i].addr < q < End(t[i])
    ensures t[m].addr != q
  {
    if m < i {
      ChainOrder(l, t, l.lo, m, i);
    } else {
      ChainOrder(l, t, l.lo, i, m);
    }
  }

  lemma RestIsNew(l: Layout, t: seq<Block>, i: nat, q: int)
    requires Sound(l) && Tiled(l, t) && i < |t| && t[i].addr < q < End(t[i])
    ensures q !in FreeOf(t) && q != NULL
  {
    ChainAt(l, t, l.lo, i);
    if q in FreeOf(t) {
      FreeIn(t, q);
      var m :| 0 <= m < |t| && t[m].free && t[m].addr == q;
      Apart(l, t, i, m, q);
    }
  }

  // ----- first fit along the list

  ghost predicate SmallUpTo(t: seq<Block>, k: nat, n: nat) {
    forall j: nat :: j < k && j < |FreeOf(t)| ==> t[Pos(t, j)].size < n
  }

  lemma SmallTail(t: seq<Block>, k: nat, n: nat)
    requires t != [] && SmallUpTo(t, k, n)
    ensures SmallUpTo(t[1..], if t[0].free then (if k == 0 then 0 else k - 1) else k, n)
    ensures t[0].free && k > 0 ==> t[0].size < n
  {
    if t[0].free && k > 0 {
      assert Pos(t, 0) == 0;
    }
    forall j: nat | j < (if t[0].free then (if k == 0 then 0 else k - 1) else k) && j < |FreeOf(t[1..])|
      ensures t[1..][Pos(t[1..], j)].size < n
    {
      var m := if t[0].free then j + 1 else j;
      assert t[Pos(t, m)].size < n;
    }
  }

  lemma {:induction false} FitIs(t: seq<Block>, k: nat, n: nat)
    requires k < |FreeOf(t)| && SmallUpTo(t, k, n) && t[Pos(t, k)].size >= n
    ensures FirstFit(t, n) == Pos(t, k)
    decreases |t|
  {
    SmallTail(t, k, n);
    if t[0].free && k == 0 {
    } else {
      FitIs(t[1..], if t[0].free then k - 1 else k, n);
    }
  }

  lemma {:induction false} NoFit(t: seq<Block>, n: nat)
    requires SmallUpTo(t, |FreeOf(t)|, n)
    ensures FirstFit(t, n) == |t|
    decreases |t|
  {
    if t == [] {
    } else {
      SmallTail(t, |FreeOf(t)|, n);
      NoFit(t[1..], n);
    }
  }

  /** The row of blocks decides the free list with all its links and sizes. */
  lemma RowDecidesLinks(l: Layout, h: Headers, root: int, h': Headers, root': int, t: seq<Block>, i: nat)
    requires Sound(l) && Tiled(l, t) && RepHeap(h, root, t) && RepHeap(h', root', t) && i < |t|
    ensures root == root'
    ensures var p := t[i].addr;
      && p in h.next && p in h'.next && h.next[p] == h'.next[p]
      && p in h.prev && p in h'.prev && h.prev[p] == h'.prev[p]
      && p in h.size && p in h'.size && h.size[p] == h'.size[p]
  {
    var s := FreeOf(t);
    NotFree(l, t, i);
    if t[i].free {
      var k :| 0 <= k < |s| && s[k] == t[i].addr;
      Follow(h.next, root, s, k);
      Follow(h'.next, root', s, k);
      if k > 0 {
        assert h.prev[s[k]] == s[k - 1] && h'.prev[s[k]] == s[k - 1];
      }
    }
  }
}
