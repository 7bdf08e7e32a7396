// Lists threaded through the process control blocks.
module Links {
  // A pointer to a block is its pid, and each pointer field of `struct pcb` is a map from pid to
  // pointer.

  const NULL: int := -1

  type Field = map<int, int>

  /** Starting at head and following next visits exactly the blocks of s, in that order. */
  ghost predicate Linked(next: Field, head: int, s: seq<int>) {
    && (forall i :: 0 <= i < |s| ==> s[i] in next && s[i] != NULL)
    && (forall i, j :: 0 <= i < j < |s| ==> s[i] != s[j])
    && (forall i, j :: 0 <= i && j == i + 1 && j < |s| ==> next[s[i]] == s[j])
    && head == (if s == [] then NULL else s[0])
    && (s != [] ==> next[s[|s| - 1]] == NULL)
  }

  /** Every block of s but the first points back to the one before it. */
  ghost predicate BackLinked(prev: Field, s: seq<int>) {
    && (forall i :: 0 <= i < |s| ==> s[i] in prev)
    && (forall i, j :: 0 <= i && j == i + 1 && j < |s| ==> prev[s[j]] == s[i])
  }

  /** Where following the link of the k-th block leads. */
  lemma Follow(next: Field, head: int, s: seq<int>, k: int)
    requires Linked(next, head, s) && 0 <= k < |s|
    ensures s[k] in next && s[k] != NULL && next[s[k]] == if k + 1 < |s| then s[k + 1] else NULL
  {
    if k + 1 < |s| {
      assert next[s[k]] == s[k + 1];
    }
  }

  lemma HeadOf(next: Field, head: int, s: seq<int>)
    requires Linked(next, head, s)
    ensures head == NULL <==> s == []
    ensures s != [] ==> head == s[0] && head in next
  {
  }

  /** Links of other blocks do not matter. */
  lemma Frame(next: Field, next': Field, head: int, s: seq<int>)
    requires Linked(next, head, s)
    requires forall p :: p in s ==> p in next' && next'[p] == next[p]
    ensures Linked(next', head, s)
  {
    forall i | 0 <= i < |s|
      ensures s[i] in next' && next'[s[i]] == next[s[i]]
    {
      assert s[i] in s;
    }
  }

  lemma BackFrame(prev: Field, prev': Field, s: seq<int>)
    requires BackLinked(prev, s)
    requires forall p :: p in s ==> p in prev' && prev'[p] == prev[p]
    ensures BackLinked(prev', s)
  {
    forall i | 0 <= i < |s|
      ensures s[i] in prev' && prev'[s[i]] == prev[s[i]]
    {
      assert s[i] in s;
    }
  }

  /** What the first block points back to does not matter. */
  lemma BackHead(prev: Field, s: seq<int>, v: int)
    requires BackLinked(prev, s) && s != [] && forall i, j :: 0 <= i < j < |s| ==> s[i] != s[j]
    ensures BackLinked(prev[s[0] := v], s)
  {
    forall i, j | 0 <= i && j == i + 1 && j < |s|
      ensures prev[s[0] := v][s[j]] == s[i]
    {
      assert prev[s[j]] == s[i];
    }
  }

  function Last(s: seq<int>): int
    requires s != []
  {
    s[|s| - 1]
  }

  /** The list with p behind its last block. */
  lemma Append(next: Field, head: int, s: seq<int>, p: int)
    requires Linked(next, head, s) && s != [] && p !in s && p != NULL
    ensures Linked(next[Last(s) := p][p := NULL], head, s + [p])
  {
    var n := next[Last(s) := p][p := NULL];
    var t := s + [p];
    forall i, j | 0 <= i && j == i + 1 && j < |t|
      ensures n[t[i]] == t[j]
    {
      assert t[i] in s && t[i] != p;
      if j < |s| {
        assert s[i] != Last(s);
        assert next[s[i]] == s[j];
      }
    }
  }

  lemma BackAppend(prev: Field, s: seq<int>, p: int)
    requires BackLinked(prev, s) && s != [] && p !in s
    ensures BackLinked(prev[p := Last(s)], s + [p])
  {
    var t := s + [p];
    forall i, j | 0 <= i && j == i + 1 && j < |t|
      ensures prev[p := Last(s)][t[j]] == t[i]
    {
      if j < |s| {
        assert t[j] in s;
      }
    }
  }

  function Without(s: seq<int>, k: nat): seq<int>
    requires k < |s|
  {
    s[..k] + s[k + 1..]
  }

  /** The list without its first block. */
  lemma Pop(next: Field, head: int, s: seq<int>)
    requires Linked(next, head, s) && s != []
    ensures Linked(next, next[head], s[1..]) && Linked(next[head := NULL], next[head], s[1..]) && head !in s[1..]
  {
    var t := s[1..];
    forall i, j | 0 <= i && j == i + 1 && j < |t|
      ensures next[t[i]] == t[j]
    {
      assert next[s[i + 1]] == s[j + 1];
    }
    if t != [] {
      assert next[s[0]] == s[1];
    }
  }

  lemma BackPop(prev: Field, s: seq<int>, v: int)
    requires BackLinked(prev, s) && s != [] && forall i, j :: 0 <= i < j < |s| ==> s[i] != s[j]
    ensures BackLinked(prev[s[0] := v], s[1..])
  {
    var t := s[1..];
    forall i, j | 0 <= i && j == i + 1 && j < |t|
      ensures prev[s[0] := v][t[j]] == t[i]
    {
      assert prev[s[j + 1]] == s[i + 1];
    }
  }

  /** Unlinking the k-th block, which is not the first. */
  lemma Unlink(next: Field, head: int, s: seq<int>, k: nat)
    requires Linked(next, head, s) && 0 < k < |s|
    ensures Linked(next[s[k - 1] := next[s[k]]][s[k] := NULL], head, Without(s, k)) && s[k] !in Without(s, k)
  {
    var n := next[s[k - 1] := next[s[k]]][s[k] := NULL];
    var t := Without(s, k);
    Follow(next, head, s, k);
    forall i, j | 0 <= i && j == i + 1 && j < |t|
      ensures n[t[i]] == t[j]
    {
      if i < k - 1 {
        assert next[s[i]] == s[j];
      } else if i >= k {
        assert next[s[i + 1]] == s[j + 1];
      }
    }
    if t != [] && k < |s| - 1 {
      Follow(next, head, s, |s| - 1);
    }
  }

  function Inserted(s: seq<int>, k: nat, p: int): seq<int>
    requires k <= |s|
  {
    s[..k] + [p] + s[k..]
  }

  /** Linking p in before the k-th block. */
  lemma Insert(next: Field, head: int, s: seq<int>, k: nat, p: int)
    requires Linked(next, head, s) && 0 < k < |s| && p !in s && p != NULL
    ensures Linked(next[p := s[k]][s[k - 1] := p], head, Inserted(s, k, p))
  {
    var n := next[p := s[k]][s[k - 1] := p];
    var t := Inserted(s, k, p);
    forall i, j | 0 <= i && j == i + 1 && j < |t|
      ensures n[t[i]] == t[j]
    {
      if i < k - 1 {
        assert next[s[i]] == s[j];
      } else if i > k {
        assert next[s[i - 1]] == s[j - 1];
      }
    }
    assert Last(t) == Last(s);
  }

  lemma Push(next: Field, head: int, s: seq<int>, p: int)
    requires Linked(next, head, s) && s != [] && p !in s && p != NULL
    ensures Linked(next[p := head], p, [p] + s)
  {
    var n := next[p := head];
    var t := [p] + s;
    forall i, j | 0 <= i && j == i + 1 && j < |t|
      ensures n[t[i]] == t[j]
    {
      if i > 0 {
        assert next[s[i - 1]] == s[j - 1];
      }
    }
    assert Last(t) == Last(s);
  }

  lemma Single(next: Field, p: int)
    requires p in next && next[p] == NULL && p != NULL
    ensures Linked(next, p, [p])
  {
  }

  /** q takes the place of the k-th block. */
  lemma Exchange(next: Field, head: int, s: seq<int>, k: nat, q: int)
    requires Linked(next, head, s) && k < |s| && q !in s && q != NULL
    ensures s[k] in next
    ensures var n := next[q := next[s[k]]];
      Linked((if k > 0 then n[s[k - 1] := q] else n)[s[k] := NULL], if k > 0 then head else q, s[k := q])
  {
    var n := next[q := next[s[k]]];
    var m := (if k > 0 then n[s[k - 1] := q] else n)[s[k] := NULL];
    var t := s[k := q];
    Follow(next, head, s, k);
    forall i, j | 0 <= i && j == i + 1 && j < |t|
      ensures m[t[i]] == t[j]
    {
      assert next[s[i]] == s[j];
    }
    if k < |s| - 1 {
      Follow(next, head, s, |s| - 1);
    }
  }

  lemma BackExchange(prev: Field, s: seq<int>, k: nat, q: int, v: int)
    requires BackLinked(prev, s) && k < |s| && q !in s && forall i, j :: 0 <= i < j < |s| ==> s[i] != s[j]
    ensures s[k] in prev
    ensures var n := prev[q := prev[s[k]]];
      BackLinked((if k + 1 < |s| then n[s[k + 1] := q] else n)[s[k] := v], s[k := q])
  {
    var n := prev[q := prev[s[k]]];
    var m := (if k + 1 < |s| then n[s[k + 1] := q] else n)[s[k] := v];
    var t := s[k := q];
    forall i, j | 0 <= i && j == i + 1 && j < |t|
      ensures m[t[j]] == t[i]
    {
      assert prev[s[j]] == s[i];
    }
  }

  lemma Distinct(next: Field, head: int, s: seq<int>)
    requires Linked(next, head, s)
    ensures forall i, j :: 0 <= i < j < |s| ==> s[i] != s[j]
  {
  }

  lemma BackInsert(prev: Field, s: seq<int>, k: nat, p: int)
    requires BackLinked(prev, s) && 0 < k < |s| && p !in s && forall i, j :: 0 <= i < j < |s| ==> s[i] != s[j]
    ensures BackLinked(prev[p := s[k - 1]][s[k] := p], Inserted(s, k, p))
  {
    var a := Inserted(s, k, p);
    var b := prev[p := s[k - 1]][s[k] := p];
    forall i | 0 <= i < |a|
      ensures a[i] == if i == k then p else s[if i < k then i else i - 1]
    {
    }
    forall i, j | 0 <= i && j == i + 1 && j < |a|
      ensures b[a[j]] == a[i]
    {
      if j < k {
        assert prev[s[j]] == s[i];
        assert s[j] in s;
      } else if j > k + 1 {
        assert prev[s[j - 1]] == s[i - 1];
        assert s[j - 1] in s;
      }
    }
  }

  lemma BackPush(prev: Field, s: seq<int>, p: int)
    requires BackLinked(prev, s) && s != [] && p !in s && p in prev && forall i, j :: 0 <= i < j < |s| ==> s[i] != s[j]
    ensures BackLinked(prev[s[0] := p], [p] + s)
  {
    var a := [p] + s;
    forall i, j | 0 <= i && j == i + 1 && j < |a|
      ensures prev[s[0] := p][a[j]] == a[i]
    {
      if i > 0 {
        assert prev[s[j - 1]] == s[i - 1];
      }
    }
  }

  lemma BackRemove(prev: Field, s: seq<int>, k: nat)
    requires BackLinked(prev, s) && 0 < k < |s| && forall i, j :: 0 <= i < j < |s| ==> s[i] != s[j]
    ensures s[k] in prev
    ensures BackLinked((if k + 1 < |s| then prev[s[k + 1] := prev[s[k]]] else prev)[s[k] := NULL], Without(s, k))
  {
    var a := Without(s, k);
    var b := (if k + 1 < |s| then prev[s[k + 1] := prev[s[k]]] else prev)[s[k] := NULL];
    assert prev[s[k]] == s[k - 1];
    forall i | 0 <= i < |a|
      ensures a[i] == s[if i < k then i else i + 1]
    {
    }
    forall i, j | 0 <= i && j == i + 1 && j < |a|
      ensures b[a[j]] == a[i]
    {
      if j < k {
        assert prev[s[j]] == s[i];
      } else if i >= k {
        assert prev[s[j + 1]] == s[i + 1];
      }
    }
  }
}
