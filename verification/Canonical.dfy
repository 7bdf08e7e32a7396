// Canonical Huffman codes (section 3.2.2 of RFC 1951).
module Canonical {
  // With the bit-by-bit decoder that goes with them, and their Kraft sums.

  import opened Bits

  const BMAX: nat := 16

  // ----- the code assignment of section 3.2.2

  /** Step 1: the number of codes of length k. */
  function Count(lens: seq<nat>, k: nat): (c: nat)
    ensures c <= |lens|
  {
    if lens == [] then 0
    else Count(lens[..|lens| - 1], k) + (if lens[|lens| - 1] == k then 1 else 0)
  }

  /** Step 2: the numerical value of the smallest code of length k. */
  function NextCode(lens: seq<nat>, k: nat): nat {
    if k == 0 then 0
    else 2 * (NextCode(lens, k - 1) + if k == 1 then 0 else Count(lens, k - 1))
  }

  /** Step 3: consecutive values, in symbol order, for all codes of one length. */
  function Code(lens: seq<nat>, s: nat): nat
    requires s < |lens|
  {
    NextCode(lens, lens[s]) + Count(lens[..s], lens[s])
  }

  predicate HasCode(lens: seq<nat>, s: nat, k: nat, code: nat) {
    s < |lens| && lens[s] == k && Code(lens, s) == code
  }

  // ----- decoding one bit at a time

  datatype Error = Truncated | Unassigned | Invalid(code: nat)
  datatype Parse<+T> = Ok(val: T, pos: nat) | Err(error: Error)

  function MaxLen(lens: seq<nat>): (g: nat)
    ensures forall s :: 0 <= s < |lens| ==> lens[s] <= g
    ensures g > 0 ==> exists s :: 0 <= s < |lens| && lens[s] == g
  {
    if lens == [] then 0
    else
      var g := MaxLen(lens[..|lens| - 1]);
      var last := lens[|lens| - 1];
      assert forall s :: 0 <= s < |lens| - 1 ==> lens[..|lens| - 1][s] == lens[s];
      if last > g then last else g
  }

  /** The symbol among the first n whose code is the k-bit number code. */
  function FindCode(lens: seq<nat>, k: nat, code: nat, n: nat): (r: Option<nat>)
    requires n <= |lens|
    ensures r.Some? ==> r.value < n && HasCode(lens, r.value, k, code)
    ensures r.None? ==> forall s :: 0 <= s < n ==> !HasCode(lens, s, k, code)
  {
    if n == 0 then None
    else if HasCode(lens, n - 1, k, code) then Some(n - 1)
    else FindCode(lens, k, code, n - 1)
  }

  /** What a bit pattern that starts no code means to the decoder being modelled:
      it rejects the pattern when every symbol has a code, and otherwise goes on
      with a table slot that was made from uninitialised memory. */
  function NoCode(lens: seq<nat>): Error {
    if 0 in lens then Unassigned else Invalid(1)
  }

  /** Reads bits from pos, most significant code bit first, until they spell a code.
      The k bits just before pos have spelled the number code so far. */
  function DecodeFrom(lens: seq<nat>, bits: seq<bit>, pos: nat, k: nat, code: nat): (r: Parse<nat>)
    ensures r.Ok? ==> pos < r.pos <= |bits| && r.val < |lens|
    decreases MaxLen(lens) - k
  {
    if k >= MaxLen(lens) then Err(NoCode(lens))
    else if pos >= |bits| then Err(Truncated)
    else
      var code' := 2 * code + bits[pos];
      match FindCode(lens, k + 1, code', |lens|)
      case Some(s) => Ok(s, pos + 1)
      case None => DecodeFrom(lens, bits, pos + 1, k + 1, code')
  }

  function DecodeSym(lens: seq<nat>, bits: seq<bit>, pos: nat): (r: Parse<nat>)
    ensures r.Ok? ==> pos < r.pos <= |bits| && r.val < |lens|
  {
    DecodeFrom(lens, bits, pos, 0, 0)
  }

  // ----- symbols in code order

  function SymsOfLen(lens: seq<nat>, k: nat): (r: seq<nat>)
    ensures |r| == Count(lens, k)
    ensures forall t :: 0 <= t < |r| ==> r[t] < |lens| && lens[r[t]] == k && Count(lens[..r[t]], k) == t
  {
    if lens == [] then []
    else
      var n := |lens| - 1;
      var r := SymsOfLen(lens[..n], k);
      assert forall t :: 0 <= t < |r| ==> lens[..n][..r[t]] == lens[..r[t]];
      r + (if lens[n] == k then [n] else [])
  }

  /** All symbols with codes of length 1 to k, by length and then by symbol. */
  function CodeOrder(lens: seq<nat>, k: nat): seq<nat> {
    if k == 0 then [] else CodeOrder(lens, k - 1) + SymsOfLen(lens, k)
  }

  // ----- facts about Count

  lemma {:induction false} CountSplit(a: seq<nat>, b: seq<nat>, k: nat)
    ensures Count(a + b, k) == Count(a, k) + Count(b, k)
  {
    if b == [] {
      assert a + b == a;
    } else {
      assert (a + b)[..|a + b| - 1] == a + b[..|b| - 1];
      CountSplit(a, b[..|b| - 1], k);
    }
  }

  lemma CountAt(lens: seq<nat>, i: nat, j: nat, k: nat)
    requires i <= j <= |lens|
    ensures Count(lens[..i], k) <= Count(lens[..j], k) <= Count(lens, k)
    ensures i < j && lens[i] == k ==> Count(lens[..i], k) < Count(lens[..j], k)
  {
    assert lens[..j] == lens[..i] + lens[i..j];
    CountSplit(lens[..i], lens[i..j], k);
    assert lens == lens[..j] + lens[j..];
    CountSplit(lens[..j], lens[j..], k);
    if i < j && lens[i] == k {
      assert lens[i..j] == lens[i..i + 1] + lens[i + 1..j];
      CountSplit(lens[i..i + 1], lens[i + 1..j], k);
      assert lens[i..i + 1][..0] == [];
    }
  }

  /** The symbol of length k that has t symbols of that length before it. */
  lemma {:induction false} CountIndex(lens: seq<nat>, k: nat, t: nat) returns (s: nat)
    requires t < Count(lens, k)
    ensures s < |lens| && lens[s] == k && Count(lens[..s], k) == t
  {
    var n := |lens| - 1;
    if lens[n] == k && t == Count(lens[..n], k) {
      s := n;
    } else {
      s := CountIndex(lens[..n], k, t);
      assert lens[..n][..s] == lens[..s];
    }
  }

  /** No two symbols share a code, and the codes of one length are consecutive. */
  lemma HasCodeUnique(lens: seq<nat>, s: nat, s': nat, k: nat, code: nat)
    requires HasCode(lens, s, k, code) && HasCode(lens, s', k, code)
    ensures s == s'
  {
    if s < s' {
      CountAt(lens, s, s', k);
    } else if s' < s {
      CountAt(lens, s', s, k);
    }
  }

  lemma HasCodeRange(lens: seq<nat>, k: nat, code: nat)
    ensures (exists s :: HasCode(lens, s, k, code))
       <==> NextCode(lens, k) <= code < NextCode(lens, k) + Count(lens, k)
  {
    if NextCode(lens, k) <= code < NextCode(lens, k) + Count(lens, k) {
      var s := CountIndex(lens, k, code - NextCode(lens, k));
      assert HasCode(lens, s, k, code);
    }
    if s :| HasCode(lens, s, k, code) {
      CountAt(lens, s, |lens|, k);
      assert lens[..|lens|] == lens;
    }
  }

  // ----- code counts: c[k] codes of length k, for 1 <= k <= BMAX

  ghost predicate IsCounts(c: seq<nat>) {
    |c| == BMAX + 1
  }

  /** One more than the largest code of length k, counting shorter codes as prefixes. */
  function End(c: seq<nat>, k: nat): nat
    requires IsCounts(c) && k <= BMAX
  {
    if k == 0 then 0 else 2 * End(c, k - 1) + c[k]
  }

  /** The smallest code of length k. */
  function First(c: seq<nat>, k: nat): nat
    requires IsCounts(c) && 0 < k <= BMAX
  {
    2 * End(c, k - 1)
  }

  /** The number of codes shorter than k. */
  function Off(c: seq<nat>, k: nat): nat
    requires IsCounts(c) && 0 < k <= BMAX + 1
  {
    if k == 1 then 0 else Off(c, k - 1) + c[k - 1]
  }

  lemma {:induction false} EndAgree(c: seq<nat>, c': seq<nat>, k: nat)
    requires IsCounts(c) && IsCounts(c') && k <= BMAX
    requires forall j :: 1 <= j <= k ==> c[j] == c'[j]
    ensures End(c, k) == End(c', k)
  {
    if k == 0 {
    } else {
      EndAgree(c, c', k - 1);
    }
  }

  lemma {:induction false} OffAgree(c: seq<nat>, c': seq<nat>, k: nat)
    requires IsCounts(c) && IsCounts(c') && 0 < k <= BMAX + 1
    requires forall j :: 1 <= j < k ==> c[j] == c'[j]
    ensures Off(c, k) == Off(c', k)
  {
    if k <= 1 {
    } else {
      OffAgree(c, c', k - 1);
    }
  }

  lemma {:induction false} OffMono(c: seq<nat>, i: nat, k: nat)
    requires IsCounts(c) && 0 < i <= k <= BMAX + 1
    ensures Off(c, i) <= Off(c, k)
    ensures i < k ==> Off(c, i) + c[i] <= Off(c, k)
  {
    if i >= k {
    } else {
      OffMono(c, i, k - 1);
    }
  }

  function Counts(lens: seq<nat>): (c: seq<nat>)
    ensures IsCounts(c)
  {
    seq(BMAX + 1, (k: nat) => Count(lens, k))
  }

  lemma {:induction false} CodeOrderLen(lens: seq<nat>, g: nat)
    requires g <= BMAX
    ensures |CodeOrder(lens, g)| == Off(Counts(lens), g + 1)
  {
    hide *;
    CodeOrderIs(lens, g);
    OffNext(lens, g);
    if g == 0 {
    } else {
      CodeOrderLen(lens, g - 1);
    }
  }

  lemma OffNext(lens: seq<nat>, g: nat)
    requires g <= BMAX
    ensures Off(Counts(lens), g + 1) == if g == 0 then 0 else Off(Counts(lens), g) + |SymsOfLen(lens, g)|
  {
    hide SymsOfLen, Count;
  }

  /** The symbols of one length stand together, where Off says. */
  lemma {:induction false} CodeOrderAt(lens: seq<nat>, g: nat, k: nat, r: nat)
    requires 1 <= k <= g <= BMAX && r < Count(lens, k)
    ensures Off(Counts(lens), k) + r < |CodeOrder(lens, g)|
    ensures CodeOrder(lens, g)[Off(Counts(lens), k) + r] == SymsOfLen(lens, k)[r]
  {
    hide Off, Counts, Count, SymsOfLen;
    CodeOrderLen(lens, g - 1);
    if k >= g {
    } else {
      CodeOrderAt(lens, g - 1, k, r);
    }
  }

  // ----- the place of a symbol in code order

  ghost predicate Lengths(lens: seq<nat>, g: nat) {
    g <= BMAX && forall i :: 0 <= i < |lens| ==> lens[i] <= g
  }

  function Place(lens: seq<nat>, s: nat): nat
    requires s < |lens| && 1 <= lens[s] <= BMAX
  {
    Off(Counts(lens), lens[s]) + Count(lens[..s], lens[s])
  }

  lemma PlaceBound(lens: seq<nat>, s: nat, g: nat)
    requires Lengths(lens, g) && s < |lens| && lens[s] > 0
    ensures Place(lens, s) < Off(Counts(lens), lens[s]) + Count(lens, lens[s]) <= Off(Counts(lens), g + 1)
  {
    CountAt(lens, s, s + 1, lens[s]);
    OffMono(Counts(lens), lens[s], g + 1);
  }

  lemma PlaceInjective(lens: seq<nat>, s: nat, s': nat, g: nat)
    requires Lengths(lens, g) && s < s' < |lens| && lens[s] > 0 && lens[s'] > 0
    ensures Place(lens, s) != Place(lens, s')
  {
    PlaceBound(lens, s, g);
    PlaceBound(lens, s', g);
    if lens[s] < lens[s'] {
      OffMono(Counts(lens), lens[s], lens[s']);
    } else if lens[s'] < lens[s] {
      OffMono(Counts(lens), lens[s'], lens[s]);
    } else {
      CountAt(lens, s, s', lens[s]);
    }
  }

  lemma {:induction false} PlaceOf(lens: seq<nat>, g: nat, p: nat)
    requires g <= BMAX && p < |CodeOrder(lens, g)|
    ensures var s := CodeOrder(lens, g)[p];
            s < |lens| && 1 <= lens[s] <= g && Place(lens, s) == p
  {
    hide *;
    CodeOrderIs(lens, g);
    CodeOrderLen(lens, g - 1);
    var n := |CodeOrder(lens, g - 1)|;
    if p >= n {
      LastPlace(lens, g, p - n);
    } else {
      PlaceOf(lens, g - 1, p);
    }
  }

  lemma CodeOrderIs(lens: seq<nat>, g: nat)
    ensures CodeOrder(lens, g) == if g == 0 then [] else CodeOrder(lens, g - 1) + SymsOfLen(lens, g)
  {
  }

  lemma LastPlace(lens: seq<nat>, g: nat, t: nat)
    requires 1 <= g <= BMAX && t < |SymsOfLen(lens, g)|
    ensures var s := SymsOfLen(lens, g)[t];
            s < |lens| && lens[s] == g && Place(lens, s) == Off(Counts(lens), g) + t
  {
    hide Off, Counts;
  }

  lemma {:induction false} CodeOrderSyms(lens: seq<nat>, g: nat)
    ensures forall p :: 0 <= p < |CodeOrder(lens, g)| ==> CodeOrder(lens, g)[p] < |lens|
  {
    hide SymsOfLen, Count;
    if g == 0 {
    } else {
      CodeOrderSyms(lens, g - 1);
    }
  }

  lemma {:induction false} NextCodeIsFirst(lens: seq<nat>, c: seq<nat>, k: nat)
    requires IsCounts(c) && 0 < k <= BMAX
    requires forall j :: 1 <= j < k ==> c[j] == Count(lens, j)
    ensures NextCode(lens, k) == First(c, k)
  {
    if k > 1 {
      NextCodeIsFirst(lens, c, k - 1);
    } else {
      assert NextCode(lens, 0) == 0;
    }
  }

  // ----- the Kraft sum, scaled by 2^g

  function KraftSum(lens: seq<nat>, g: nat): nat {
    if lens == [] then 0
    else
      var last := lens[|lens| - 1];
      KraftSum(lens[..|lens| - 1], g) + (if 1 <= last <= g then Pow2(g - last) else 0)
  }

  lemma {:induction false} EndBump(c: seq<nat>, c': seq<nat>, k: nat, x: nat)
    requires IsCounts(c) && IsCounts(c') && k <= BMAX
    requires forall j :: 1 <= j <= BMAX ==> c'[j] == c[j] + (if j == x then 1 else 0)
    ensures End(c', k) == End(c, k) + (if 1 <= x <= k then Pow2(k - x) else 0)
  {
    if k == 0 {
    } else {
      EndBump(c, c', k - 1, x);
    }
  }

  lemma {:induction false} EndIsKraftSum(lens: seq<nat>, g: nat)
    requires g <= BMAX
    ensures End(Counts(lens), g) == KraftSum(lens, g)
  {
    if lens == [] {
      EndZero(Counts([]), g);
    } else {
      var init := lens[..|lens| - 1];
      EndIsKraftSum(init, g);
      EndBump(Counts(init), Counts(lens), g, lens[|lens| - 1]);
    }
  }

  lemma {:induction false} EndZero(c: seq<nat>, k: nat)
    requires IsCounts(c) && k <= BMAX
    requires forall j :: 1 <= j <= k ==> c[j] == 0
    ensures End(c, k) == 0
  {
    if k == 0 {
    } else {
      EndZero(c, k - 1);
    }
  }

  lemma {:induction false} OffIsTotal(lens: seq<nat>, g: nat)
    requires Lengths(lens, g)
    ensures Off(Counts(lens), g + 1) + Count(lens, 0) == |lens|
  {
    if lens == [] {
      OffZero(Counts([]), g + 1);
    } else {
      var init := lens[..|lens| - 1];
      OffIsTotal(init, g);
      OffBump(Counts(init), Counts(lens), g + 1, lens[|lens| - 1]);
    }
  }

  lemma {:induction false} OffZero(c: seq<nat>, k: nat)
    requires IsCounts(c) && 0 < k <= BMAX + 1
    requires forall j :: 1 <= j < k ==> c[j] == 0
    ensures Off(c, k) == 0
  {
    if k <= 1 {
    } else {
      OffZero(c, k - 1);
    }
  }

  lemma {:induction false} OffBump(c: seq<nat>, c': seq<nat>, k: nat, x: nat)
    requires IsCounts(c) && IsCounts(c') && 0 < k <= BMAX + 1
    requires forall j :: 1 <= j <= BMAX ==> c'[j] == c[j] + (if j == x then 1 else 0)
    ensures Off(c', k) == Off(c, k) + (if 1 <= x < k then 1 else 0)
  {
    if k <= 1 {
    } else {
      OffBump(c, c', k - 1, x);
    }
  }

  /** Once a set of lengths is over-subscribed, longer lengths cannot repair it. */
  lemma {:induction false} EndGrows(c: seq<nat>, j: nat, k: nat)
    requires IsCounts(c) && j <= k <= BMAX
    ensures Shl(End(c, j), k - j) <= End(c, k)
    ensures End(c, k) <= Pow2(k) ==> End(c, j) <= Pow2(j)
    decreases k - j
  {
    if j >= k {
    } else {
      EndGrows(c, j, k - 1);
    }
  }

  // ----- the codes that the rules of section 3.2.2 leave

  /** What the codes in front of s take up, in units of a code of its length. */
  function Before(lens: seq<nat>, k: nat, s: nat, n: nat): nat
    requires n <= |lens|
  {
    if n == 0 then 0
    else
      var t := n - 1;
      Before(lens, k, s, t) + if 1 <= lens[t] < k || (lens[t] == k && t < s) then Pow2(k - lens[t]) else 0
  }

  lemma {:induction false} BeforeIs(lens: seq<nat>, k: nat, s: nat, n: nat)
    requires k >= 1 && n <= |lens| && s <= |lens|
    ensures Before(lens, k, s, n) == 2 * KraftSum(lens[..n], k - 1) + Count(lens[..if n < s then n else s], k)
  {
    if n == 0 {
      assert lens[..0] == [];
    } else {
      BeforeIs(lens, k, s, n - 1);
      assert lens[..n][..n - 1] == lens[..n - 1];
      if n <= s {
        assert lens[..n][n - 1] == lens[n - 1];
      }
    }
  }

  /** A code is the number of places, of its own length, that all shorter codes and the codes of
      its length with lower symbols use up. */
  lemma CodeIsSum(lens: seq<nat>, s: nat)
    requires s < |lens| && 1 <= lens[s] <= 16
    ensures Code(lens, s) == Before(lens, lens[s], s, |lens|)
  {
    var k := lens[s];
    NextCodeIsFirst(lens, Counts(lens), k);
    EndIsKraftSum(lens, k - 1);
    BeforeIs(lens, k, s, |lens|);
    assert lens[..|lens|] == lens;
  }

  lemma FirstToEnd(lens: seq<nat>, s: nat)
    requires s < |lens| && 1 <= lens[s] <= 16
    ensures First(Counts(lens), lens[s]) <= Code(lens, s) < End(Counts(lens), lens[s])
  {
    NextCodeIsFirst(lens, Counts(lens), lens[s]);
    CountAt(lens, s, s + 1, lens[s]);
  }

  /** Codes of one length increase with their symbols; a shorter code comes before a longer one. */
  lemma CodesInOrder(lens: seq<nat>, s: nat, t: nat)
    requires s < |lens| && t < |lens| && 1 <= lens[s] <= 16 && lens[t] <= 16
    ensures lens[s] == lens[t] && s < t ==> Code(lens, s) < Code(lens, t)
    ensures lens[s] < lens[t] ==> Shl(Code(lens, s) + 1, lens[t] - lens[s]) <= Code(lens, t)
  {
    var c, j, k := Counts(lens), lens[s], lens[t];
    if j == k && s < t {
      CountAt(lens, s, t, j);
    } else if j < k {
      FirstToEnd(lens, s);
      FirstToEnd(lens, t);
      EndGrows(c, j, k - 1);
      ShlMono(Code(lens, s) + 1, End(c, j), k - j);
      assert Shl(End(c, j), k - j) == 2 * Shl(End(c, j), k - 1 - j);
    }
  }

  /** The example of section 3.2.2: the symbols A to H. */
  lemma StandardExample(s: nat)
    requires s < 8
    ensures Code([3, 3, 3, 3, 3, 2, 4, 4], s) == [2, 3, 4, 5, 6, 0, 14, 15][s]
  {
    hide *;
    var lens := [3, 3, 3, 3, 3, 2, 4, 4];
    CodeIsSum(lens, s);
    SmallPowers();
    var k := lens[s];
    BeforeStep(lens, k, s, 1);
    BeforeStep(lens, k, s, 2);
    BeforeStep(lens, k, s, 3);
    BeforeStep(lens, k, s, 4);
    BeforeStep(lens, k, s, 5);
    BeforeStep(lens, k, s, 6);
    BeforeStep(lens, k, s, 7);
    BeforeStep(lens, k, s, 8);
  }

  lemma SmallPowers()
    ensures Pow2(0) == 1 && Pow2(1) == 2 && Pow2(2) == 4
  {
  }

  lemma BeforeStep(lens: seq<nat>, k: nat, s: nat, n: nat)
    requires 0 < n <= |lens|
    ensures Before(lens, k, s, 0) == 0
    ensures Before(lens, k, s, n) ==
      Before(lens, k, s, n - 1) + if 1 <= lens[n - 1] < k || (lens[n - 1] == k && n - 1 < s) then Pow2(k - lens[n - 1]) else 0
  {
  }
}
