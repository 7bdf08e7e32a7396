// The sliding window of the decompressor.
module Window {
  // The circular buffer of boot/zBoot/inflate.c, its flushing in boot/zBoot/misc.c, and the
  // copying of earlier output.

  import opened Bits
  import Crc

  const WSIZE: nat := 0x8000

  // ----- what a copy means

  /** h followed by n bytes, each a repetition of the byte dist back. */
  function Copied(h: seq<byte>, dist: nat, n: nat): (r: seq<byte>)
    requires 1 <= dist <= |h|
    ensures |r| == |h| + n && h <= r
    decreases n
  {
    if n == 0 then h else Copied(h + [h[|h| - dist]], dist, n - 1)
  }

  /** Every copied byte equals the byte dist before it, whether that was copied or not. */
  lemma {:induction false} CopiedAt(h: seq<byte>, dist: nat, n: nat, j: nat)
    requires 1 <= dist <= |h| <= j < |h| + n
    ensures Copied(h, dist, n)[j] == Copied(h, dist, n)[j - dist]
    decreases n
  {
    var h' := h + [h[|h| - dist]];
    var r := Copied(h', dist, n - 1);
    if j > |h| {
      CopiedAt(h', dist, n - 1, j);
    } else {
      assert r[j] == h'[j] && r[j - dist] == h'[j - dist];
    }
  }

  lemma {:induction false} CopiedAdd(h: seq<byte>, dist: nat, a: nat, b: nat)
    requires 1 <= dist <= |h|
    ensures Copied(h, dist, a + b) == Copied(Copied(h, dist, a), dist, b)
    decreases a
  {
    if a == 0 {
    } else {
      CopiedAdd(h + [h[|h| - dist]], dist, a - 1, b);
    }
  }

  /** A copy that does not reach its own output is a copy of a part of the history. */
  lemma {:induction false} CopiedFar(h: seq<byte>, dist: nat, n: nat)
    requires n <= dist && 1 <= dist <= |h|
    ensures Copied(h, dist, n) == h + h[|h| - dist..|h| - dist + n]
  {
    if n == 0 {
    } else {
      CopiedFar(h, dist, n - 1);
      CopiedAdd(h, dist, n - 1, 1);
      var r := h + h[|h| - dist..|h| - dist + n - 1];
      assert Copied(r, dist, 1) == Copied(r + [r[|r| - dist]], dist, 0);
    }
  }

  /** Copies forward, as memcpy in misc.c does. */
  method MemCpy(a: array<byte>, dst: nat, src: nat, n: nat)
    requires dst + n <= a.Length && src + n <= a.Length && (dst <= src || src + n <= dst)
    modifies a
    ensures forall j :: 0 <= j < a.Length ==> a[j] == old(if dst <= j < dst + n then a[src + j - dst] else a[j])
  {
    ghost var s := a[..];
    var i := 0;
    while i < n
      invariant i <= n
      invariant forall j :: dst <= j < dst + i ==> a[j] == s[src + j - dst]
      invariant forall j :: 0 <= j < dst || dst + i <= j < a.Length ==> a[j] == s[j]
    {
      a[dst + i] := a[src + i];
      i := i + 1;
    }
  }

  /** a - b in 32-bit unsigned arithmetic. */
  function Minus(a: nat, b: nat): (r: nat)
    requires a <= WSIZE && b <= WSIZE
    ensures b <= a ==> r == a - b
    ensures b > a ==> r == 0x1_0000_0000 + a - b
  {
    (0x1_0000_0000 + a - b) % 0x1_0000_0000
  }

  /** d &= WSIZE - 1 */
  function Masked(d: nat): (r: nat)
    ensures r < WSIZE
    ensures d < WSIZE ==> r == d
    ensures d == WSIZE ==> r == 0
  {
    d % WSIZE
  }

  /** With the window position at w, window index d holds the byte dist back. */
  ghost predicate IsSource(d: nat, dist: nat, w: nat) {
    d < WSIZE && (d + dist == w || d + dist == w + WSIZE)
  }

  lemma FirstSource(w: nat, dist: nat)
    requires w < WSIZE && 1 <= dist <= WSIZE
    ensures IsSource(Masked(Minus(w, dist)), dist, w)
  {
  }

  lemma NextSource(d: nat, dist: nat, w: nat, e: nat)
    requires IsSource(d, dist, w) && w < WSIZE && 1 <= dist <= WSIZE && d + e <= WSIZE && w + e <= WSIZE
    ensures IsSource(Masked(d + e), dist, if w + e == WSIZE then 0 else w + e)
  {
  }

  class Output {
    const slide: array<byte>
    var outcnt: nat              // wp, the window position
    var output: seq<byte>        // output_data[0..output_ptr]
    const table: seq<bv32>       // crc_32_tab, once makecrc has filled it
    var crc: bv32
    ghost const preset: seq<byte>  // what the window held to begin with
    ghost var history: seq<byte>   // all bytes so far, behind the initial contents of the window

    /** The window holds the last WSIZE bytes of the history, the newest before outcnt. */
    ghost predicate InWindow()
      reads this, slide
    {
      && slide.Length == WSIZE && outcnt <= WSIZE
      && |history| == WSIZE + |output| + outcnt
      && (forall j :: 0 <= j < outcnt ==> slide[j] == history[WSIZE + |output| + j])
      && (forall j :: outcnt <= j < WSIZE ==> slide[j] == history[|output| + j])
    }

    ghost predicate Flushed()
      reads this
    {
      && |preset| == WSIZE && preset + output <= history
      && Crc.TableOk(table) && crc == Crc.Register(Crc.ALL_ONES, output)
    }

    ghost predicate Valid()
      reads this, slide
    {
      InWindow() && Flushed()
    }

    constructor (slide: array<byte>, table: seq<bv32>)
      requires slide.Length == WSIZE && Crc.TableOk(table)
      ensures Valid() && fresh(this) && this.slide == slide && this.table == table
      ensures history == preset == slide[..] && outcnt == 0 && output == []
    {
      this.slide := slide;
      this.table := table;
      this.preset := slide[..];
      outcnt := 0;
      output := [];
      history := slide[..];
      crc := Crc.ALL_ONES;
    }

    /** flush_window: appends the window to the output and updates the crc. Only a full window
        can be written on afterwards. */
    method Flush()
      requires Valid()
      modifies this`outcnt, this`output, this`crc
      ensures Flushed() && outcnt == 0 && history == preset + output
      ensures old(outcnt) == WSIZE ==> Valid()
    {
      hide Crc.TableOk, Crc.Register;
      assert slide[..outcnt] == history[WSIZE + |output|..];
      if outcnt == 0 {
        return;
      }
      crc := Crc.UpdCrc(table, crc, slide[..outcnt]);
      Crc.RegisterAppend(Crc.ALL_ONES, output, slide[..outcnt]);
      output := output + slide[..outcnt];
      outcnt := 0;
    }

    /** slide[w++] = b, without the flush. */
    method Store(b: byte)
      requires Valid() && outcnt < WSIZE
      modifies this`outcnt, this`history, slide
      ensures Valid() && outcnt == old(outcnt) + 1 && history == old(history) + [b]
    {
      hide Crc.TableOk, Crc.Register;
      slide[outcnt] := b;
      outcnt := outcnt + 1;
      history := history + [b];
      assert old(history) <= history;
    }

    /** Stores one byte of output, flushing a full window. */
    method Put(b: byte)
      requires Valid() && outcnt < WSIZE
      modifies this, slide
      ensures Valid() && outcnt < WSIZE && history == old(history) + [b]
    {
      hide Crc.TableOk, Crc.Register;
      Store(b);
      if outcnt == WSIZE {
        Flush();
      }
    }

    /** Window index d holds the byte dist back. */
    ghost predicate SourceOf(d: nat, dist: nat)
      reads this
    {
      IsSource(d, dist, outcnt)
    }

    /** The slow copy: one byte at a time, so that it may run into its own output. */
    method CopySlowly(d0: nat, e: nat, dist: nat)
      requires Valid() && 1 <= dist <= WSIZE && outcnt + e <= WSIZE && d0 + e <= WSIZE
      requires SourceOf(d0, dist)
      modifies this`outcnt, this`history, slide
      ensures Valid() && outcnt == old(outcnt) + e
      ensures history == Copied(old(history), dist, e)
    {
      hide Crc.TableOk, Crc.Register, Copied;
      var d, i := d0, 0;
      CopiedNone(history, dist);
      while i < e
        invariant i <= e && d == d0 + i && outcnt == old(outcnt) + i
        invariant Valid() && history == Copied(old(history), dist, i)
      {
        assert slide[d] == history[|history| - dist];
        CopiedNext(old(history), dist, i);
        Store(slide[d]);
        d := d + 1;
        i := i + 1;
      }
    }

    /** The fast copy, when the source does not run into the destination. */
    method CopyFast(d: nat, e: nat, dist: nat)
      requires Valid() && 1 <= e <= dist <= WSIZE && outcnt + e <= WSIZE && d + e <= WSIZE
      requires SourceOf(d, dist) && (outcnt <= d || d + e <= outcnt)
      modifies this`outcnt, this`history, slide
      ensures Valid() && outcnt == old(outcnt) + e
      ensures history == Copied(old(history), dist, e)
    {
      hide Crc.TableOk, Crc.Register, Copied;
      CopiedFar(history, dist, e);
      MemCpy(slide, outcnt, d, e);
      outcnt := outcnt + e;
      history := Copied(history, dist, e);
      assert old(history) <= history;
    }

    /** One round of the copy loop: as much as fits before the end of the window at either
        place. The test assumes unsigned comparison. */
    method CopyChunk(d: nat, e: nat, dist: nat)
      requires Valid() && 1 <= e && 1 <= dist <= WSIZE && outcnt + e <= WSIZE && d + e <= WSIZE
      requires SourceOf(d, dist)
      modifies this`outcnt, this`history, slide
      ensures Valid() && outcnt == old(outcnt) + e
      ensures history == Copied(old(history), dist, e)
    {
      hide Crc.TableOk, Crc.Register, Copied;
      hide Minus;
      if Minus(outcnt, d) >= e {
        CopyFast(d, e, dist);
      } else {
        CopySlowly(d, e, dist);
      }
    }

    /** Copies n bytes from dist back, around the end of the window. */
    method CopyMatch(n0: nat, dist: nat)
      requires Valid() && outcnt < WSIZE && 1 <= dist <= WSIZE && n0 >= 1
      modifies this, slide
      ensures Valid() && outcnt < WSIZE
      ensures history == Copied(old(history), dist, n0)
    {
      hide Crc.TableOk, Crc.Register, Copied;
      hide Masked, Minus, IsSource;
      CopiedNone(history, dist);
      FirstSource(outcnt, dist);
      var n: nat := n0;
      var d: nat := Minus(outcnt, dist);
      while n != 0
        invariant n <= n0 && Valid() && outcnt < WSIZE && SourceOf(Masked(d), dist)
        invariant history == Copied(old(history), dist, n0 - n)
      {
        d := Masked(d);
        var e: nat := WSIZE - (if d > outcnt then d else outcnt);
        e := if e > n then n else e;
        CopiedAdd(old(history), dist, n0 - n, e);
        NextSource(d, dist, outcnt, e);
        CopyChunk(d, e, dist);
        n := n - e;
        d := d + e;
        if outcnt == WSIZE {
          Flush();
        }
      }
    }
  }

  lemma CopiedNone(h: seq<byte>, dist: nat)
    requires 1 <= dist <= |h|
    ensures Copied(h, dist, 0) == h
  {
  }

  lemma CopiedNext(h: seq<byte>, dist: nat, n: nat)
    requires 1 <= dist <= |h|
    ensures var r := Copied(h, dist, n); Copied(h, dist, n + 1) == r + [r[|r| - dist]]
  {
    var r := Copied(h, dist, n);
    CopiedAdd(h, dist, n, 1);
    assert Copied(r, dist, 1) == Copied(r + [r[|r| - dist]], dist, 0);
  }
}
