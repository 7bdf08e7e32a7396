// The exact limit of huft_build.
module HuftLimit {
  // If some table gets too many index bits, then some stream is looked up in a slot that was
  // never written.

  import opened Bits
  import opened Canonical
  import opened HuftTable
  import opened TableBuilder
  import opened HuftCode

  /** Some table below the first one gets too many index bits. */
  ghost predicate DeepWide(t: Tab)
    requires Fixed(t)
  {
    exists w, q :: t.l <= w && Multiple(w, t.l) && Wide(t, w, q)
  }

  // ----- when no table gets too wide

  lemma {:induction false} CodesLeft(t: Tab, k: nat)
    requires Fixed(t) && 1 <= k <= t.g
    ensures Off(t.c, t.g + 1) >= Off(t.c, k) + (Pow2(k) - First(t.c, k))
    decreases t.g - k
  {
    EndGrows(t.c, k, t.g);
    if k >= t.g {
    } else {
      CodesLeft(t, k + 1);
    }
  }

  /** Two levels of tables reach every code, or there are too few codes to crowd a table. */
  lemma NotWide(t: Tab)
    requires Fixed(t) && (t.g <= 2 * t.l || Off(t.c, t.g + 1) < Pow2(t.l))
    ensures !DeepWide(t)
  {
    forall w: nat, q: nat | t.l <= w && Wide(t, w, q)
      ensures false
    {
      CodesLeft(t, w + t.l);
      ShlAdd(1, w, t.l);
      ShlMono(q + 1, Pow2(w), t.l);
      ShlPlus(q, 1, t.l);
    }
  }

  /** For a complete set of lengths the number of symbols is what counts. */
  lemma CompleteNotWide(b: seq<nat>, m: nat, s: nat, d: seq<nat>, e: seq<nat>)
    requires Args(b, s, d, e) && Usable(b)
    requires MaxLen(b) <= 2 * LookupBits(b, m)
          || (KraftSum(b, MaxLen(b)) == Pow2(MaxLen(b)) && |b| < Pow2(LookupBits(b, m)))
    ensures Fixed(CodeTab(b, m, s, d, e)) && !DeepWide(CodeTab(b, m, s, d, e))
  {
    var t := CodeTab(b, m, s, d, e);
    CodeTabFixed(b, m, s, d, e);
    if KraftSum(b, t.g) == Pow2(t.g) {
      OffAgree(t.c, Counts(b), t.g + 1);
      OffIsTotal(b, t.g);
    }
    NotWide(t);
  }

  // ----- when a table does

  /** The index bits a lookup uses: l for the first table, all that were allocated for others. */
  function IndexBits(t: Tab, info: seq<Info>, id: nat): nat
    requires id < |info|
  {
    if id == 0 then t.l else info[id].nb + info[id].over
  }

  /** N is a stream that reaches table id and from there an unwritten slot. */
  ghost predicate Bad(t: Tab, pool: Pool, info: seq<Info>, id: nat, N: nat)
    requires Fixed(t) && TablesOk(t, pool, info) && id < |pool|
  {
    N < Pow2(t.g) && Holds(t, info[id], Rev(N, t.g))
    && Lookup(pool, id, IndexBits(t, info, id), Shr(N, info[id].w), info[id].w).slot == Unset
  }

  lemma WideParts(t: Tab, w: nat, q: nat)
    requires Fixed(t) && Wide(t, w, q)
    ensures 0 < w + t.l < t.g <= BMAX && q < Pow2(w) && IsCounts(t.c)
    ensures End(t.c, w + t.l) < Shl(q + 1, t.l)
  {
    hide End, First, Shl, Pow2;
  }

  /** A position whose first s bits are at most x has at most x >> (s - k) in its first k bits. */
  lemma TooShort(t: Tab, X: nat, k: nat, s: nat, x: nat)
    requires Fixed(t) && k <= s <= t.g && X < Pow2(t.g) && 0 < k == LenAt(t, X) && Top(t.g, X, s) == x
    ensures x < End(t.c, s)
  {
    hide *;
    FixedIs(t);
    LenAtLeast(t, X);
    TopTop(t.g, X, k, s);
    Split(x, s - k);
    ShlMono(Top(t.g, X, k) + 1, End(t.c, k), s - k);
    ShlPlus(Top(t.g, X, k), 1, s - k);
    Pow2Is(s - k);
    EndGrows(t.c, k, s);
  }

  /** The last position that starts with prefix q of w bits needs a table below a wide one. */
  lemma LastGoesOn(t: Tab, w: nat, q: nat, X: nat)
    requires Fixed(t) && Wide(t, w, q) && Top(t.g, X, w + t.l) == Shl(q + 1, t.l) - 1 && X < Pow2(t.g)
    ensures LenAt(t, X) > w + t.l
    ensures Top(t.g, X, w) == q
  {
    LenAtLeast(t, X);
    hide *;
    var s, k := w + t.l, LenAt(t, X);
    WideParts(t, w, q);
    ShlPlus(q, 1, t.l);
    Pow2Is(t.l);
    TopTop(t.g, X, w, s);
    SplitUnique(Top(t.g, X, s), t.l, q, Pow2(t.l) - 1);
    if k <= s {
      TooShort(t, X, k, s, Top(t.g, X, s));
      assert false;
    }
  }

  lemma LenAtLeast(t: Tab, X: nat)
    requires Fixed(t) && X < Pow2(t.g)
    ensures 1 <= LenAt(t, X) <= t.g
  {
  }

  /** The stream whose bits are those of position X has bit d set when position X has. */
  lemma StreamOf(g: nat, X: nat, d: nat)
    requires X < Pow2(g) && d < g
    ensures Rev(Rev(X, g), g) == X
    ensures Shr(Rev(X, g), d) % 2 == Top(g, X, d + 1) % 2
  {
    hide Shl, Low, Pow2;
    RevRev(X, g);
    LowSmall(X, g);
    var N := Rev(X, g);
    TopRev(N, g, d + 1);
    RevNext(N, d);
  }

  lemma PrefixThenOne(g: nat, s: nat, a: nat) returns (X: nat)
    requires s < g && a < Pow2(s)
    ensures X < Pow2(g) && Top(g, X, s) == a && Top(g, X, s + 1) == 2 * a + 1
  {
    X := Shl(2 * a + 1, g - s - 1);
    SplitUnique(X, g - s - 1, 2 * a + 1, 0);
    TopHalf(g, X, s);
    ShlAdd(1, s + 1, g - s - 1);
    ShlMono(2 * a + 1, Pow2(s + 1), g - s - 1);
  }

  lemma HighIndex(N: nat, w: nat, l: nat, o: nat)
    requires o >= 1 && Shr(N, w + l) % 2 == 1
    ensures var j := Low(Shr(N, w), l + o);
            Pow2(l) <= j < Pow2(l + o) && Low(j, l) == Low(Shr(N, w), l)
  {
    var j := Low(Shr(N, w), l + o);
    Split(Shr(N, w), l + o);
    LowLow(Shr(N, w), l + o, l);
    ShrAdd(N, w, l);
    LowShr(Shr(N, w), l, o);
    Split(j, l);
    ShlMono(1, Shr(j, l), l);
  }

  /** A position in a wide table that goes on with a one behind its first l bits there. */
  lemma WidePosition(t: Tab, w: nat, q: nat) returns (X: nat)
    requires Fixed(t) && Wide(t, w, q)
    ensures X < Pow2(t.g) && Top(t.g, X, w) == q && LenAt(t, X) > w + t.l
    ensures Top(t.g, X, w + t.l + 1) % 2 == 1
  {
    hide *;
    WideParts(t, w, q);
    var s, a: nat := w + t.l, Shl(q + 1, t.l) - 1;
    Pow2Is(w);
    Pow2Is(s);
    ShlAdd(1, w, t.l);
    ShlMono(q + 1, Pow2(w), t.l);
    X := PrefixThenOne(t.g, s, a);
    LastGoesOn(t, w, q, X);
  }

  lemma StreamIndex(g: nat, X: nat, w: nat, l: nat, o: nat)
    requires X < Pow2(g) && w + l < g && o >= 1 && Top(g, X, w + l + 1) % 2 == 1
    ensures var N := Rev(X, g); var j := Low(Shr(N, w), l + o);
            && N < Pow2(g) && Rev(N, g) == X
            && Pow2(l) <= j < Pow2(l + o) && Low(j, l) == Rev(Top(g, X, w + l), l)
  {
    hide Rev, Shr, Low, Shl;
    var N := Rev(X, g);
    RevBound(X, g);
    StreamOf(g, X, w + l);
    HighIndex(N, w, l, o);
    TopRev(N, g, w + l);
    IndexIsLow(N, w, l);
  }

  lemma WideStream(t: Tab, i: Info) returns (N: nat)
    requires Fixed(t) && TableOk(t, i) && i.nb == t.l && i.over > 0 && Wide(t, i.w, i.q)
    ensures var X := Rev(N, t.g); var j := Low(Shr(N, i.w), t.l + i.over);
            && N < Pow2(t.g) && Holds(t, i, X) && LenAt(t, X) > i.w + t.l
            && Pow2(t.l) <= j < Pow2(t.l + i.over) && Low(j, t.l) == IndexOf(t, i, X)
  {
    var X := WidePosition(t, i.w, i.q);
    hide LenAt, Wide, Fixed, Rev, Shr, Low, Shl;
    StreamIndex(t.g, X, i.w, t.l, i.over);
    N := Rev(X, t.g);
  }

  lemma BadHere(t: Tab, pool: Pool, info: seq<Info>, id: nat) returns (N: nat)
    requires Fixed(t) && Sized(t, pool, info) && Untouched(t, pool, info)
    requires 0 < id < |pool| && info[id].over > 0
    ensures Bad(t, pool, info, id, N)
  {
    hide Wide, LenAt, IndexOf, Adequate, Holds, Multiple;
    var i := info[id];
    N := WideStream(t, i);
    assert UpperSlot(t, pool, info, id, Low(Shr(N, i.w), t.l + i.over), Rev(N, t.g));
  }

  lemma {:induction false} MultipleStep(a: nat, w: nat, l: nat)
    requires l > 0 && Multiple(a, l) && Multiple(w, l) && a < w
    ensures a + l <= w
    decreases w
  {
    if a == 0 {
    } else {
      MultipleStep(a - l, w - l, l);
    }
  }

  lemma BadBelow(t: Tab, pool: Pool, info: seq<Info>, id: nat, X: nat, next: nat, N: nat)
    requires Fixed(t) && Sized(t, pool, info) && id < next < |pool|
    requires (id > 0 ==> info[id].over == 0) && info[id].nb == t.l
    requires EntryFor(t, pool, info, id, X) && Holds(t, info[id], X) && LenAt(t, X) > info[id].w + t.l
    requires next == pool[id][IndexOf(t, info[id], X)].v.table && Bad(t, pool, info, next, N)
    ensures Bad(t, pool, info, id, N)
  {
    hide LenAt, Lookup, Multiple, Adequate, Wide;
    var d, Y := info[id].w + t.l, Rev(N, t.g);
    TopTop(t.g, X, info[id].w, d);
    TopTop(t.g, Y, info[id].w, d);
    TopRev(N, t.g, d);
    IndexIsLow(N, info[id].w, t.l);
    LookupLink(pool, id, t.l, N, info[id].w, pool[id][IndexOf(t, info[id], X)]);
  }

  /** Following the prefix of a wide table from table id leads to an unwritten slot. */
  lemma {:induction false} BadStream(t: Tab, pool: Pool, info: seq<Info>, id: nat, w: nat, q: nat, X: nat) returns (N: nat)
    requires Fixed(t) && Sized(t, pool, info) && Untouched(t, pool, info) && FilledTo(t, pool, info, Pow2(t.g))
    requires id < |pool| && info[id].w <= w && t.l <= w && Multiple(w, t.l) && Wide(t, w, q)
    requires X < Pow2(t.g) && Top(t.g, X, w) == q && LenAt(t, X) > w + t.l && Holds(t, info[id], X)
    ensures Bad(t, pool, info, id, N)
    decreases |pool| - id
  {
    var i := info[id];
    if id > 0 && i.over > 0 {
      N := BadHere(t, pool, info, id);
    } else {
      assert Adequate(t, i);
      assert EntryFor(t, pool, info, id, X);
      MultipleStep(i.w, w, t.l);
      var next := pool[id][IndexOf(t, i, X)].v.table;
      N := BadStream(t, pool, info, next, w, q, X);
      BadBelow(t, pool, info, id, X, next, N);
    }
  }

  lemma UnsetFails(b: seq<nat>, m: nat, s: nat, d: seq<nat>, e: seq<nat>, pool: Pool, bl: nat, N: nat)
    requires Args(b, s, d, e) && Usable(b) && pool != [] && N < Pow2(MaxLen(b))
    requires Lookup(pool, 0, bl, N, 0).slot == Unset
    ensures !Decodes(b, s, d, e, pool, bl)
  {
    var g := MaxLen(b);
    var bits := BitsOf(N, g);
    LEBitsOf(N, g);
    LowSmall(N, g);
    assert bits[0..] == bits;
    CodeTabOf(b, m, s, d, e);
    DecodeIs(b, CodeTab(b, m, s, d, e), bits, 0);
    assert !DecodesAt(b, s, d, e, pool, bl, bits, 0);
  }

  /** Tables with a wide one below the first do not decode all streams. */
  lemma WideFails(b: seq<nat>, m: nat, s: nat, d: seq<nat>, e: seq<nat>, pool: Pool, info: seq<Info>)
    requires Args(b, s, d, e) && Usable(b)
    requires var t := CodeTab(b, m, s, d, e);
             && Fixed(t) && Sized(t, pool, info) && Untouched(t, pool, info) && FilledTo(t, pool, info, Pow2(t.g))
             && pool != [] && DeepWide(t)
    ensures !Decodes(b, s, d, e, pool, LookupBits(b, m))
  {
    var t := CodeTab(b, m, s, d, e);
    var w, q :| t.l <= w && Multiple(w, t.l) && Wide(t, w, q);
    var X := WidePosition(t, w, q);
    LowSmall(X, t.g);
    assert Top(t.g, X, 0) == 0;
    var N := BadStream(t, pool, info, 0, w, q, X);
    UnsetFails(b, m, s, d, e, pool, LookupBits(b, m), N);
  }

  /** Four symbols with lengths 1, 2, 3 and 3, and one lookup bit: the tables are built,
      and some stream is looked up in a slot that was never written. */
  lemma WideExample()
    ensures var b := [1, 2, 3, 3];
            && Args(b, 4, [], []) && Usable(b) && KraftSum(b, MaxLen(b)) == Pow2(MaxLen(b))
            && Fixed(CodeTab(b, 1, 4, [], [])) && DeepWide(CodeTab(b, 1, 4, [], []))
  {
    var b := [1, 2, 3, 3];
    ExampleLens();
    ExampleCounts();
    CodeTabFixed(b, 1, 4, [], []);
    var t := CodeTab(b, 1, 4, [], []);
    ExampleWide(t);
  }

  lemma ExampleWide(t: Tab)
    requires Fixed(t) && t.g == 3 && t.l == 1 && t.c[1] == 1 && t.c[2] == 1
    ensures DeepWide(t)
  {
    assert End(t.c, 0) == 0;
    assert End(t.c, 1) == 1;
    assert End(t.c, 2) == 3;
    assert Shl(1, 1) == 2 && Shl(2, 1) == 4;
    assert Multiple(1, 1) && Wide(t, 1, 1);
  }

  lemma ExampleMax()
    ensures MaxLen([1, 2, 3, 3]) == 3
  {
    var b: seq<nat> := [1, 2, 3, 3];
    assert b[..3] == [1, 2, 3] && b[..3][..2] == [1, 2] && [1, 2][..1] == [1];
    assert MaxLen([1]) == 1 && MaxLen([1, 2]) == 2 && MaxLen([1, 2, 3]) == 3;
  }

  lemma ExampleMin()
    ensures MinLen([1, 2, 3, 3]) == 1
  {
    var b: seq<nat> := [1, 2, 3, 3];
    assert b[..3] == [1, 2, 3] && b[..3][..2] == [1, 2] && [1, 2][..1] == [1];
    assert MinLen([1]) == 1 && MinLen([1, 2]) == 1 && MinLen([1, 2, 3]) == 1;
  }

  lemma ExampleKraft()
    ensures KraftSum([1, 2, 3, 3], 3) == 8 && Pow2(3) == 8
  {
    var b: seq<nat> := [1, 2, 3, 3];
    assert b[..3] == [1, 2, 3] && b[..3][..2] == [1, 2] && [1, 2][..1] == [1] && [1][..0] == [];
    assert Pow2(0) == 1 && Pow2(1) == 2 && Pow2(2) == 4;
    assert KraftSum([1], 3) == 4 && KraftSum([1, 2], 3) == 6 && KraftSum([1, 2, 3], 3) == 7;
  }

  lemma ExampleLens()
    ensures var b := [1, 2, 3, 3];
            MaxLen(b) == 3 && MinLen(b) == 1 && KraftSum(b, 3) == 8 && Pow2(3) == 8
  {
    hide *;
    ExampleMax();
    ExampleMin();
    ExampleKraft();
  }

  lemma ExampleCounts()
    ensures var b := [1, 2, 3, 3]; Count(b, 1) == 1 && Count(b, 2) == 1
  {
    var b: seq<nat> := [1, 2, 3, 3];
    assert b[..3] == [1, 2, 3] && b[..3][..2] == [1, 2] && [1, 2][..1] == [1] && [1][..0] == [];
    assert Count([1], 1) == 1 && Count([1], 2) == 0;
    assert Count([1, 2], 1) == 1 && Count([1, 2], 2) == 1;
    assert Count([1, 2, 3], 1) == 1 && Count([1, 2, 3], 2) == 1;
  }
}
