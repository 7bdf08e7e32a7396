// The quicksort of lib/libxc/qsort.c.
module QSort {
  // The array holds elements instead of bytes. The middle element and everything found equal to
  // it form a block [lp, hp] that slides inside the segment; a[i] is the next unknown element
  // below the block, a[j] the next one above it.

  import opened Bits

  // ----- what the comparison has to be

  ghost predicate TotalPreorder<T(!new)>(cmp: (T, T) -> int) {
    && (forall x, y :: cmp(x, y) < 0 <==> cmp(y, x) > 0)
    && (forall x, y, z :: cmp(x, y) <= 0 && cmp(y, z) <= 0 ==> cmp(x, z) <= 0)
  }

  ghost predicate Sorted<T(!new)>(cmp: (T, T) -> int, s: seq<T>) {
    forall x, y :: 0 <= x < y < |s| ==> cmp(s[x], s[y]) <= 0
  }

  /** Comparing with an equal element gives the same answer. */
  lemma SameSide<T(!new)>(cmp: (T, T) -> int, x: T, y: T, z: T)
    requires TotalPreorder(cmp) && cmp(y, z) == 0
    ensures cmp(x, y) < 0 <==> cmp(x, z) < 0
    ensures cmp(x, y) == 0 <==> cmp(x, z) == 0
    ensures cmp(y, x) > 0 <==> cmp(x, z) < 0
    ensures cmp(y, x) == 0 <==> cmp(x, z) == 0
  {
  }

  // ----- exchanges

  /** t is s with the elements of [a, l) in some other order. */
  ghost predicate Perm<T>(s: seq<T>, t: seq<T>, a: int, l: int) {
    && 0 <= a <= l <= |s| == |t|
    && s[..a] == t[..a] && s[l..] == t[l..]
    && multiset(s[a..l]) == multiset(t[a..l])
  }

  function Swapped<T>(s: seq<T>, x: int, y: int): (t: seq<T>)
    requires 0 <= x < |s| && 0 <= y < |s|
    ensures |t| == |s|
  {
    s[x := s[y]][y := s[x]]
  }

  lemma SwapPerm<T>(s: seq<T>, x: int, y: int, a: int, l: int)
    requires 0 <= a <= x < l <= |s| && a <= y < l
    ensures Perm(s, Swapped(s, x, y), a, l)
  {
    var t := Swapped(s, x, y);
    var u := s[a..l];
    assert t[a..l] == u[x - a := u[y - a]][y - a := u[x - a]];
  }

  lemma PermTrans<T>(s: seq<T>, t: seq<T>, u: seq<T>, a: int, l: int)
    requires Perm(s, t, a, l) && Perm(t, u, a, l)
    ensures Perm(s, u, a, l)
  {
  }

  /** A permutation of a part is one of the whole. */
  lemma PermWiden<T>(s: seq<T>, t: seq<T>, a: int, l: int, a': int, l': int)
    requires Perm(s, t, a, l) && 0 <= a' <= a && l <= l' <= |s|
    ensures Perm(s, t, a', l')
  {
    assert s[a'..l'] == s[..a][a'..] + s[a..l] + s[l..][..l' - l];
    assert t[a'..l'] == t[..a][a'..] + t[a..l] + t[l..][..l' - l];
    assert s[l'..] == s[l..][l' - l..];
    assert t[l'..] == t[l..][l' - l..];
    assert s[..a'] == s[..a][..a'] && t[..a'] == t[..a][..a'];
  }

  /** What holds of all elements before holds of all elements after. */
  lemma PermAll<T>(s: seq<T>, t: seq<T>, a: int, l: int, p: T -> bool)
    requires Perm(s, t, a, l) && forall x :: a <= x < l ==> p(s[x])
    ensures forall x :: a <= x < l ==> p(t[x])
  {
    forall x | a <= x < l
      ensures p(t[x])
    {
      assert t[a..l][x - a] in multiset(t[a..l]);
      assert t[x] in s[a..l];
    }
  }

  lemma PermSame<T>(s: seq<T>, t: seq<T>, a: int, l: int, x: int)
    requires Perm(s, t, a, l) && (0 <= x < a || l <= x < |s|)
    ensures s[x] == t[x]
  {
    if x < a {
      assert s[..a][x] == t[..a][x];
    } else {
      assert s[l..][x - l] == t[l..][x - l];
    }
  }

  /** qsexc */
  method Exchange<T>(A: array<T>, x: nat, y: nat)
    requires x < A.Length && y < A.Length
    modifies A
    ensures A[..] == Swapped(old(A[..]), x, y)
  {
    A[x], A[y] := A[y], A[x];
  }

  /** qstexc: the third element to the first place, the second to the third, the first to the second. */
  method Exchange3<T>(A: array<T>, x: nat, y: nat, z: nat)
    requires x < A.Length && y < A.Length && z < A.Length && x != y && x != z
    modifies A
    ensures A[..] == Swapped(Swapped(old(A[..]), x, z), z, y)
  {
    var c := A[x];
    A[x] := A[z];
    A[z] := A[y];
    A[y] := c;
  }

  // ----- the partition

  /** Below i is less than p, the block [lp, hp] is equal to it, above j is greater. */
  ghost predicate Part<T(!new)>(cmp: (T, T) -> int, s: seq<T>, a: int, l: int, i: int, lp: int, hp: int, j: int, p: T) {
    && 0 <= a <= i <= lp <= hp <= j < l <= |s|
    && (forall x :: a <= x < i ==> cmp(s[x], p) < 0)
    && (forall x :: lp <= x <= hp ==> cmp(s[x], p) == 0)
    && (forall x :: j < x < l ==> cmp(s[x], p) > 0)
  }

  lemma EqualBelow<T(!new)>(cmp: (T, T) -> int, s: seq<T>, a: int, l: int, i: int, lp: int, hp: int, j: int, p: T)
    requires TotalPreorder(cmp) && Part(cmp, s, a, l, i, lp, hp, j, p) && i < lp && cmp(s[i], s[lp]) == 0
    ensures Part(cmp, Swapped(s, i, lp - 1), a, l, i, lp - 1, hp, j, p)
  {
    SameSide(cmp, s[i], s[lp], p);
  }

  lemma LessBelow<T(!new)>(cmp: (T, T) -> int, s: seq<T>, a: int, l: int, i: int, lp: int, hp: int, j: int, p: T)
    requires TotalPreorder(cmp) && Part(cmp, s, a, l, i, lp, hp, j, p) && i < lp && cmp(s[i], s[lp]) < 0
    ensures Part(cmp, s, a, l, i + 1, lp, hp, j, p)
  {
    SameSide(cmp, s[i], s[lp], p);
  }

  lemma EqualAbove<T(!new)>(cmp: (T, T) -> int, s: seq<T>, a: int, l: int, i: int, lp: int, hp: int, j: int, p: T)
    requires TotalPreorder(cmp) && Part(cmp, s, a, l, i, lp, hp, j, p) && j > hp && cmp(s[hp], s[j]) == 0
    ensures Part(cmp, Swapped(s, hp + 1, j), a, l, i, lp, hp + 1, j, p)
  {
    SameSide(cmp, s[j], s[hp], p);
  }

  lemma GreaterAbove<T(!new)>(cmp: (T, T) -> int, s: seq<T>, a: int, l: int, i: int, lp: int, hp: int, j: int, p: T)
    requires TotalPreorder(cmp) && Part(cmp, s, a, l, i, lp, hp, j, p) && j > hp && cmp(s[hp], s[j]) < 0
    ensures Part(cmp, s, a, l, i, lp, hp, j - 1, p)
  {
    SameSide(cmp, s[j], s[hp], p);
  }

  /** The block slides up to make room below it. */
  lemma SlideUp<T(!new)>(cmp: (T, T) -> int, s: seq<T>, a: int, l: int, i: int, lp: int, hp: int, j: int, p: T)
    requires TotalPreorder(cmp) && Part(cmp, s, a, l, i, lp, hp, j, p) && j > hp && cmp(s[hp], s[j]) > 0 && i == lp
    ensures Part(cmp, Swapped(Swapped(s, lp, j), j, hp + 1), a, l, lp + 1, lp + 1, hp + 1, j, p)
  {
    SameSide(cmp, s[j], s[hp], p);
  }

  lemma SwapAround<T(!new)>(cmp: (T, T) -> int, s: seq<T>, a: int, l: int, i: int, lp: int, hp: int, j: int, p: T)
    requires TotalPreorder(cmp) && Part(cmp, s, a, l, i, lp, hp, j, p) && j > hp && cmp(s[hp], s[j]) > 0
    requires i < lp && cmp(s[i], s[lp]) > 0
    ensures Part(cmp, Swapped(s, i, j), a, l, i + 1, lp, hp, j - 1, p)
  {
    SameSide(cmp, s[j], s[hp], p);
    SameSide(cmp, s[i], s[lp], p);
  }

  /** The block slides down to make room above it. */
  lemma SlideDown<T(!new)>(cmp: (T, T) -> int, s: seq<T>, a: int, l: int, i: int, lp: int, hp: int, p: T)
    requires TotalPreorder(cmp) && Part(cmp, s, a, l, i, lp, hp, hp, p) && i < lp && cmp(s[i], s[lp]) > 0
    ensures Part(cmp, Swapped(Swapped(s, hp, i), i, lp - 1), a, l, i, lp - 1, hp - 1, hp - 1, p)
  {
    SameSide(cmp, s[i], s[lp], p);
  }

  lemma MoreSwapped<T>(s: seq<T>, t: seq<T>, x: int, y: int, a: int, l: int)
    requires Perm(s, t, a, l) && a <= x < l && a <= y < l
    ensures |t| == |s| && l <= |s| && Perm(s, Swapped(t, x, y), a, l)
  {
    SwapPerm(t, x, y, a, l);
    PermTrans(s, t, Swapped(t, x, y), a, l);
  }

  lemma PartStart<T(!new)>(cmp: (T, T) -> int, s: seq<T>, a: int, l: int, m: int)
    requires TotalPreorder(cmp) && 0 <= a <= m < l <= |s|
    ensures Part(cmp, s, a, l, a, m, m, l - 1, s[m]) && Perm(s, s, a, l)
  {
  }

  // One exchange of the partition each, together with what it does to the invariant.

  ghost predicate State<T(!new)>(cmp: (T, T) -> int, s0: seq<T>, s: seq<T>, a: int, l: int, i: int, lp: int, hp: int, j: int, p: T) {
    Part(cmp, s, a, l, i, lp, hp, j, p) && Perm(s0, s, a, l)
  }

  method TakeEqualBelow<T(!new)>(A: array<T>, cmp: (T, T) -> int, ghost s0: seq<T>, a: nat, l: nat, i: nat, lp: nat, ghost hp: nat, ghost j: nat, ghost p: T)
    requires TotalPreorder(cmp) && State(cmp, s0, A[..], a, l, i, lp, hp, j, p)
    requires i < lp < A.Length && cmp(A[i], A[lp]) == 0
    modifies A
    ensures State(cmp, s0, A[..], a, l, i, lp - 1, hp, j, p)
  {
    hide Swapped, TotalPreorder;
    EqualBelow(cmp, A[..], a, l, i, lp, hp, j, p);
    MoreSwapped(s0, A[..], i, lp - 1, a, l);
    Exchange(A, i, lp - 1);
  }

  method TakeEqualAbove<T(!new)>(A: array<T>, cmp: (T, T) -> int, ghost s0: seq<T>, a: nat, l: nat, ghost i: nat, ghost lp: nat, hp: nat, j: nat, ghost p: T)
    requires TotalPreorder(cmp) && State(cmp, s0, A[..], a, l, i, lp, hp, j, p)
    requires i <= lp <= hp < j < A.Length && cmp(A[hp], A[j]) == 0
    modifies A
    ensures State(cmp, s0, A[..], a, l, i, lp, hp + 1, j, p) && A[i] == old(A[i]) && A[lp] == old(A[lp])
  {
    hide Swapped, TotalPreorder;
    EqualAbove(cmp, A[..], a, l, i, lp, hp, j, p);
    MoreSwapped(s0, A[..], hp + 1, j, a, l);
    Untouched(A[..], hp + 1, j, i, lp);
    Exchange(A, hp + 1, j);
  }

  method MoveUp<T(!new)>(A: array<T>, cmp: (T, T) -> int, ghost s0: seq<T>, a: nat, l: nat, lp: nat, hp: nat, j: nat, ghost p: T)
    requires TotalPreorder(cmp) && State(cmp, s0, A[..], a, l, lp, lp, hp, j, p)
    requires lp <= hp < j < A.Length && cmp(A[hp], A[j]) > 0
    modifies A
    ensures State(cmp, s0, A[..], a, l, lp + 1, lp + 1, hp + 1, j, p)
  {
    hide Swapped, TotalPreorder;
    SlideUp(cmp, A[..], a, l, lp, lp, hp, j, p);
    MoreSwapped(s0, A[..], lp, j, a, l);
    MoreSwapped(s0, Swapped(A[..], lp, j), j, hp + 1, a, l);
    Exchange3(A, lp, hp + 1, j);
  }

  method CrossOver<T(!new)>(A: array<T>, cmp: (T, T) -> int, ghost s0: seq<T>, a: nat, l: nat, i: nat, ghost lp: nat, ghost hp: nat, j: nat, ghost p: T)
    requires TotalPreorder(cmp) && State(cmp, s0, A[..], a, l, i, lp, hp, j, p)
    requires i < lp <= hp < j < A.Length && cmp(A[hp], A[j]) > 0 && cmp(A[i], A[lp]) > 0
    modifies A
    ensures State(cmp, s0, A[..], a, l, i + 1, lp, hp, j - 1, p)
  {
    hide Swapped, TotalPreorder;
    SwapAround(cmp, A[..], a, l, i, lp, hp, j, p);
    MoreSwapped(s0, A[..], i, j, a, l);
    Exchange(A, i, j);
  }

  method MoveDown<T(!new)>(A: array<T>, cmp: (T, T) -> int, ghost s0: seq<T>, a: nat, l: nat, i: nat, lp: nat, hp: nat, ghost p: T)
    requires TotalPreorder(cmp) && State(cmp, s0, A[..], a, l, i, lp, hp, hp, p)
    requires i < lp <= hp < A.Length && cmp(A[i], A[lp]) > 0
    modifies A
    ensures State(cmp, s0, A[..], a, l, i, lp - 1, hp - 1, hp - 1, p)
  {
    hide Swapped, TotalPreorder;
    SlideDown(cmp, A[..], a, l, i, lp, hp, p);
    MoreSwapped(s0, A[..], hp, i, a, l);
    MoreSwapped(s0, Swapped(A[..], hp, i), i, lp - 1, a, l);
    Exchange3(A, hp, lp - 1, i);
  }

  lemma PassLess<T(!new)>(cmp: (T, T) -> int, s0: seq<T>, s: seq<T>, a: int, l: int, i: int, lp: int, hp: int, j: int, p: T)
    requires TotalPreorder(cmp) && State(cmp, s0, s, a, l, i, lp, hp, j, p) && i < lp && cmp(s[i], s[lp]) < 0
    ensures State(cmp, s0, s, a, l, i + 1, lp, hp, j, p)
  {
    LessBelow(cmp, s, a, l, i, lp, hp, j, p);
  }

  lemma PassGreater<T(!new)>(cmp: (T, T) -> int, s0: seq<T>, s: seq<T>, a: int, l: int, i: int, lp: int, hp: int, j: int, p: T)
    requires TotalPreorder(cmp) && State(cmp, s0, s, a, l, i, lp, hp, j, p) && j > hp && cmp(s[hp], s[j]) < 0
    ensures State(cmp, s0, s, a, l, i, lp, hp, j - 1, p)
  {
    GreaterAbove(cmp, s, a, l, i, lp, hp, j, p);
  }

  lemma StateBounds<T(!new)>(cmp: (T, T) -> int, s0: seq<T>, s: seq<T>, a: int, l: int, i: int, lp: int, hp: int, j: int, p: T)
    requires State(cmp, s0, s, a, l, i, lp, hp, j, p)
    ensures 0 <= a <= i <= lp <= hp <= j < l <= |s|
  {
  }

  /** The part of the loop after the label `loop`: the elements above the block, until one of them
      is exchanged with a greater one below it (restart) or none is left. */
  method Above<T(!new)>(A: array<T>, cmp: (T, T) -> int, ghost s0: seq<T>, a: nat, l: nat, i0: nat, lp0: nat, hp0: nat, j0: nat, ghost p: T)
    returns (i: nat, lp: nat, hp: nat, j: nat, restart: bool)
    requires TotalPreorder(cmp) && State(cmp, s0, A[..], a, l, i0, lp0, hp0, j0, p)
    requires i0 <= lp0 <= hp0 <= j0 < A.Length && (i0 < lp0 ==> cmp(A[i0], A[lp0]) > 0)
    modifies A
    ensures State(cmp, s0, A[..], a, l, i, lp, hp, j, p) && i <= lp <= hp <= j < A.Length
    ensures if restart then lp - i + j - hp < lp0 - i0 + j0 - hp0 else j == hp
    ensures !restart ==> lp - i + j - hp <= lp0 - i0 + j0 - hp0 && (i < lp ==> cmp(A[i], A[lp]) > 0)
  {
    hide State, TotalPreorder, Part, Perm;
    i, lp, hp, j := i0, lp0, hp0, j0;
    while j > hp
      invariant State(cmp, s0, A[..], a, l, i, lp, hp, j, p)
      invariant i <= lp <= hp <= j < A.Length
      invariant i < lp ==> cmp(A[i], A[lp]) > 0
      invariant lp - i + j - hp <= lp0 - i0 + j0 - hp0
      decreases j - hp
    {
      var c := cmp(A[hp], A[j]);
      if c == 0 {
        TakeEqualAbove(A, cmp, s0, a, l, i, lp, hp, j, p);
        hp := hp + 1;
      } else if c > 0 {
        if i == lp {
          MoveUp(A, cmp, s0, a, l, lp, hp, j, p);
          hp := hp + 1;
          lp := lp + 1;
          i := lp;
        } else {
          CrossOver(A, cmp, s0, a, l, i, lp, hp, j, p);
          j := j - 1;
          i := i + 1;
          return i, lp, hp, j, true;
        }
      } else {
        PassGreater(cmp, s0, A[..], a, l, i, lp, hp, j, p);
        j := j - 1;
      }
    }
    restart := false;
  }

  /** The loop of qs1 that splits [a, l) into a smaller, an equal and a greater part. */
  method Partition<T(!new)>(A: array<T>, a: nat, l: nat, cmp: (T, T) -> int) returns (lp: nat, hp: nat, ghost p: T)
    requires TotalPreorder(cmp) && a + 1 < l <= A.Length
    modifies A
    ensures Perm(old(A[..]), A[..], a, l)
    ensures a <= lp <= hp < l && Part(cmp, A[..], a, l, lp, lp, hp, hp, p)
  {
    hide *;
    ghost var s0 := A[..];
    var n: nat := (l - a) / 2;
    lp, hp := a + n, a + n;
    var i: nat, j: nat := a, l - 1;
    p := A[lp];
    PartStart(cmp, A[..], a, l, lp);
    StateHolds(cmp, s0, A[..], a, l, i, lp, hp, j, p);
    while true
      invariant State(cmp, s0, A[..], a, l, i, lp, hp, j, p)
      invariant i <= lp <= hp <= j < A.Length
      decreases lp - i + j - hp
    {
      if i < lp {
        var c := cmp(A[i], A[lp]);
        if c == 0 {
          TakeEqualBelow(A, cmp, s0, a, l, i, lp, hp, j, p);
          lp := lp - 1;
          continue;
        }
        if c < 0 {
          PassLess(cmp, s0, A[..], a, l, i, lp, hp, j, p);
          i := i + 1;
          continue;
        }
      }
      var restart;
      i, lp, hp, j, restart := Above(A, cmp, s0, a, l, i, lp, hp, j, p);
      if restart {
        continue;
      }
      if i == lp {
        StateBounds(cmp, s0, A[..], a, l, i, lp, hp, j, p);
        Partitioned(cmp, s0, A[..], a, l, i, lp, hp, j, p);
        return;
      }
      MoveDown(A, cmp, s0, a, l, i, lp, hp, p);
      lp := lp - 1;
      hp := hp - 1;
      j := hp;
    }
  }

  lemma StateHolds<T(!new)>(cmp: (T, T) -> int, s0: seq<T>, s: seq<T>, a: int, l: int, i: int, lp: int, hp: int, j: int, p: T)
    requires Part(cmp, s, a, l, i, lp, hp, j, p) && Perm(s0, s, a, l)
    ensures State(cmp, s0, s, a, l, i, lp, hp, j, p)
  {
  }

  lemma Partitioned<T(!new)>(cmp: (T, T) -> int, s0: seq<T>, s: seq<T>, a: int, l: int, i: int, lp: int, hp: int, j: int, p: T)
    requires State(cmp, s0, s, a, l, i, lp, hp, j, p)
    ensures Part(cmp, s, a, l, i, lp, hp, j, p) && Perm(s0, s, a, l)
  {
  }

  lemma Untouched<T>(s: seq<T>, x: int, y: int, i: int, lp: int)
    requires 0 <= i <= lp < x < |s| && lp < y < |s|
    ensures |Swapped(s, x, y)| == |s| && Swapped(s, x, y)[i] == s[i] && Swapped(s, x, y)[lp] == s[lp]
  {
  }

  // ----- sorting a segment

  /** Whenever two elements of [b, m) are not both in [a, l), they are in order. */
  ghost predicate SortedBut<T(!new)>(cmp: (T, T) -> int, s: seq<T>, b: int, m: int, a: int, l: int) {
    && 0 <= b <= a <= l <= m <= |s|
    && forall x, y :: b <= x < y < m && !(a <= x && y < l) ==> cmp(s[x], s[y]) <= 0
  }

  ghost predicate SortedIn<T(!new)>(cmp: (T, T) -> int, s: seq<T>, a: int, l: int) {
    0 <= a <= l <= |s| && forall x, y :: a <= x < y < l ==> cmp(s[x], s[y]) <= 0
  }

  /** Reordering the unsorted part keeps the rest in order. */
  lemma ButPerm<T(!new)>(cmp: (T, T) -> int, s: seq<T>, t: seq<T>, b: int, m: int, a: int, l: int)
    requires SortedBut(cmp, s, b, m, a, l) && Perm(s, t, a, l)
    ensures SortedBut(cmp, t, b, m, a, l)
  {
    forall x, y | b <= x < y < m && !(a <= x && y < l)
      ensures cmp(t[x], t[y]) <= 0
    {
      if a <= x < l {
        PermAll(s, t, a, l, z => cmp(z, s[y]) <= 0);
        PermSame(s, t, a, l, y);
      } else if a <= y < l {
        PermAll(s, t, a, l, z => cmp(s[x], z) <= 0);
        PermSame(s, t, a, l, x);
      } else {
        PermSame(s, t, a, l, x);
        PermSame(s, t, a, l, y);
      }
    }
  }

  /** Sorting the greater part of a partition leaves only the smaller part. */
  lemma SortedAbove<T(!new)>(cmp: (T, T) -> int, s: seq<T>, t: seq<T>, b: int, m: int, a: int, l: int, lp: int, hp: int, p: T)
    requires TotalPreorder(cmp) && SortedBut(cmp, s, b, m, a, l) && Part(cmp, s, a, l, lp, lp, hp, hp, p)
    requires Perm(s, t, hp + 1, l) && SortedIn(cmp, t, hp + 1, l)
    ensures SortedBut(cmp, t, b, m, a, lp)
  {
    PermWiden(s, t, hp + 1, l, a, l);
    ButPerm(cmp, s, t, b, m, a, l);
    PermAll(s, t, hp + 1, l, z => cmp(z, p) > 0);
    Kept(s, t, hp + 1, l);
  }

  lemma SortedBelow<T(!new)>(cmp: (T, T) -> int, s: seq<T>, t: seq<T>, b: int, m: int, a: int, l: int, lp: int, hp: int, p: T)
    requires TotalPreorder(cmp) && SortedBut(cmp, s, b, m, a, l) && Part(cmp, s, a, l, lp, lp, hp, hp, p)
    requires Perm(s, t, a, lp) && SortedIn(cmp, t, a, lp)
    ensures SortedBut(cmp, t, b, m, hp + 1, l)
  {
    PermWiden(s, t, a, lp, a, l);
    ButPerm(cmp, s, t, b, m, a, l);
    PermAll(s, t, a, lp, z => cmp(z, p) < 0);
    Kept(s, t, a, lp);
  }

  /** Elements outside the reordered part stay where they are. */
  lemma Kept<T>(s: seq<T>, t: seq<T>, c: int, e: int)
    requires Perm(s, t, c, e)
    ensures forall x :: 0 <= x < c || e <= x < |s| ==> t[x] == s[x]
  {
    forall x | 0 <= x < c || e <= x < |s|
      ensures t[x] == s[x]
    {
      PermSame(s, t, c, e, x);
    }
  }

  /** qs1: recursion on the smaller side, a loop on the larger. The ghost result counts the
      nested calls below this one. */
  method Qs1<T(!new)>(A: array<T>, a0: nat, l0: nat, cmp: (T, T) -> int) returns (ghost depth: nat)
    requires TotalPreorder(cmp) && a0 <= l0 <= A.Length
    modifies A
    ensures Perm(old(A[..]), A[..], a0, l0) && SortedIn(cmp, A[..], a0, l0)
    ensures Pow2(depth) <= l0 - a0 + 1
    decreases l0 - a0
  {
    hide *;
    ghost var r := A[..];
    depth := 0;
    var a, l := a0, l0;
    SegmentStart(cmp, A[..], a, l);
    Pow2Step(0);
    while l - a > 1
      invariant a0 <= a <= l <= l0
      invariant Perm(r, A[..], a0, l0) && SortedBut(cmp, A[..], a0, l0, a, l)
      invariant Pow2(depth) <= l0 - a0 + 1
    {
      ghost var s := A[..];
      var lp, hp, p := Partition(A, a, l, cmp);
      ghost var t := A[..];
      SegmentReordered(cmp, r, s, t, a0, l0, a, l, a, l);
      ghost var d;
      if lp - a >= l - hp {
        d := Qs1(A, hp + 1, l, cmp);
        SegmentAbove(cmp, r, t, A[..], a0, l0, a, l, lp, hp, p);
        l := lp;
      } else {
        d := Qs1(A, a, lp, cmp);
        SegmentBelow(cmp, r, t, A[..], a0, l0, a, l, lp, hp, p);
        a := hp + 1;
      }
      Pow2Step(d);
      depth := if depth < d + 1 then d + 1 else depth;
    }
    SegmentDone(cmp, A[..], a0, l0, a, l);
  }

  lemma Pow2Step(d: nat)
    ensures Pow2(0) == 1 && Pow2(d + 1) == 2 * Pow2(d)
  {
  }

  lemma SegmentAbove<T(!new)>(cmp: (T, T) -> int, r: seq<T>, t: seq<T>, u: seq<T>, b: int, m: int, a: int, l: int, lp: int, hp: int, p: T)
    requires TotalPreorder(cmp) && Perm(r, t, b, m) && SortedBut(cmp, t, b, m, a, l) && Part(cmp, t, a, l, lp, lp, hp, hp, p)
    requires Perm(t, u, hp + 1, l) && SortedIn(cmp, u, hp + 1, l) && 0 <= b <= a <= lp <= hp < l <= m <= |t|
    ensures Perm(r, u, b, m) && SortedBut(cmp, u, b, m, a, lp)
  {
    hide *;
    SortedAbove(cmp, t, u, b, m, a, l, lp, hp, p);
    PermWiden(t, u, hp + 1, l, b, m);
    PermTrans(r, t, u, b, m);
  }

  lemma SegmentBelow<T(!new)>(cmp: (T, T) -> int, r: seq<T>, t: seq<T>, u: seq<T>, b: int, m: int, a: int, l: int, lp: int, hp: int, p: T)
    requires TotalPreorder(cmp) && Perm(r, t, b, m) && SortedBut(cmp, t, b, m, a, l) && Part(cmp, t, a, l, lp, lp, hp, hp, p)
    requires Perm(t, u, a, lp) && SortedIn(cmp, u, a, lp) && 0 <= b <= a <= lp <= hp < l <= m <= |t|
    ensures Perm(r, u, b, m) && SortedBut(cmp, u, b, m, hp + 1, l)
  {
    hide *;
    SortedBelow(cmp, t, u, b, m, a, l, lp, hp, p);
    PermWiden(t, u, a, lp, b, m);
    PermTrans(r, t, u, b, m);
  }

  lemma SegmentStart<T(!new)>(cmp: (T, T) -> int, s: seq<T>, a: int, l: int)
    requires 0 <= a <= l <= |s|
    ensures Perm(s, s, a, l) && SortedBut(cmp, s, a, l, a, l)
  {
  }

  lemma SegmentReordered<T(!new)>(cmp: (T, T) -> int, r: seq<T>, s: seq<T>, t: seq<T>, b: int, m: int, a: int, l: int, c: int, e: int)
    requires Perm(r, s, b, m) && SortedBut(cmp, s, b, m, a, l) && Perm(s, t, a, l)
    ensures Perm(r, t, b, m) && SortedBut(cmp, t, b, m, a, l)
  {
    ButPerm(cmp, s, t, b, m, a, l);
    PermWiden(s, t, a, l, b, m);
  }

  lemma SegmentDone<T(!new)>(cmp: (T, T) -> int, s: seq<T>, b: int, m: int, a: int, l: int)
    requires SortedBut(cmp, s, b, m, a, l) && l - a <= 1
    ensures SortedIn(cmp, s, b, m)
  {
  }

  /** qsort */
  method Sort<T(!new)>(A: array<T>, cmp: (T, T) -> int)
    requires TotalPreorder(cmp)
    modifies A
    ensures Sorted(cmp, A[..]) && multiset(A[..]) == multiset(old(A[..]))
  {
    ghost var depth := Qs1(A, 0, A.Length, cmp);
    assert A[0..A.Length] == A[..];
    assert old(A[0..A.Length]) == old(A[..]);
  }
}
