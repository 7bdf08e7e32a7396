// The delta list of c/sleep.c: a sleeper holds what it sleeps longer than its forerunner.
module KernelSleep {
  import opened Links
  import opened KernelSpec
  import opened KernelInv
  import opened KernelRep

  lemma DeltaAt(time: Field, asleep: seq<int>, left: map<int, int>, k: nat)
    requires Deltas(time, asleep, left) && k < |asleep|
    ensures asleep[k] in time && asleep[k] in left && time[asleep[k]] == left[asleep[k]] - Base(asleep, left, k)
  {
    if k > 0 {
      assert time[asleep[k]] == left[asleep[k]] - left[asleep[k - 1]];
    }
  }

  lemma SleeperFacts(s: Sys, z: SleepFields, sleepList: int)
    requires SleepAll(s, z, sleepList)
    ensures Linked(z.next, sleepList, s.asleep) && Deltas(z.time, s.asleep, s.left)
    ensures sleepList == NULL <==> s.asleep == []
    ensures s.asleep != [] ==> sleepList == s.asleep[0] && sleepList in z.next && sleepList in z.prev && sleepList in z.time
    ensures s.asleep != [] ==> s.stale == z.prev[sleepList]
  {
    HeadOf(z.next, sleepList, s.asleep);
    hide Linked, BackLinked;
  }

  lemma SleeperAt(s: Sys, z: SleepFields, sleepList: int, k: nat)
    requires SleepAll(s, z, sleepList) && k < |s.asleep|
    ensures s.asleep[k] in z.next && s.asleep[k] in z.prev && s.asleep[k] in z.time && s.asleep[k] in s.left && s.asleep[k] != NULL
    ensures z.time[s.asleep[k]] == s.left[s.asleep[k]] - Base(s.asleep, s.left, k)
    ensures z.next[s.asleep[k]] == if k + 1 < |s.asleep| then s.asleep[k + 1] else NULL
    ensures if k + 1 < |s.asleep| then s.asleep[k + 1] != NULL else s.asleep[k] == Last(s.asleep)
    ensures k > 0 ==> z.prev[s.asleep[k]] == s.asleep[k - 1] && s.asleep[k - 1] != NULL
  {
    Follow(z.next, sleepList, s.asleep, k);
    DeltaAt(z.time, s.asleep, s.left, k);
    if k > 0 {
      Follow(z.next, sleepList, s.asleep, k - 1);
    }
    if k + 1 < |s.asleep| {
      Follow(z.next, sleepList, s.asleep, k + 1);
    }
    hide Linked, Deltas;
  }

  lemma SlotHere(s: Sys, k: nat, t: int)
    requires Core(s) && k <= |s.asleep|
    requires forall i :: 0 <= i < k ==> s.asleep[i] in s.left && s.left[s.asleep[i]] <= t
    requires k < |s.asleep| ==> s.asleep[k] in s.left && s.left[s.asleep[k]] > t
    ensures Slot(s.asleep, s.left, t) == k
  {
    hide Shape, ReadyInv, QueueInv, RecvInv;
    SlotIs(s.asleep, s.left, t);
    if k > 0 {
      assert s.left[s.asleep[k - 1]] <= t;
    }
    if k < |s.asleep| {
      assert s.left[s.asleep[k]] > t;
    }
  }

  // ----- insertion

  lemma JoinFirst(z: SleepFields, p: int, left: map<int, int>, t: int)
    requires p in z.next && p in z.prev && p in z.time && p != NULL
    ensures RepSleep(z.next[p := NULL], z.prev[p := NULL], z.time[p := t], p, [p], left[p := t], NULL)
  {
    Single(z.next[p := NULL], p);
  }

  lemma DeltasAppend(time: Field, asleep: seq<int>, left: map<int, int>, p: int, t: int)
    requires Deltas(time, asleep, left) && asleep != [] && p !in asleep && p in time
    ensures Deltas(time[p := t - Base(asleep, left, |asleep|)], asleep + [p], left[p := t])
  {
    var a := asleep + [p];
    forall i | 0 <= i < |a|
      ensures a[i] in time && a[i] in left[p := t] && (i < |asleep| ==> a[i] == asleep[i] && a[i] != p)
    {
    }
  }

  lemma JoinLast(z: SleepFields, sleepList: int, asleep: seq<int>, left: map<int, int>, stale: int, p: int, t: int)
    requires RepSleep(z.next, z.prev, z.time, sleepList, asleep, left, stale) && asleep != []
    requires p !in asleep && p in z.next && p in z.prev && p in z.time && p != NULL
    ensures RepSleep(z.next[Last(asleep) := p][p := NULL], z.prev[p := Last(asleep)], z.time[p := t - Base(asleep, left, |asleep|)],
      sleepList, Inserted(asleep, |asleep|, p), left[p := t], stale)
  {
    Append(z.next, sleepList, asleep, p);
    BackAppend(z.prev, asleep, p);
    DeltasAppend(z.time, asleep, left, p, t);
    assert Inserted(asleep, |asleep|, p) == asleep + [p];
    hide Linked, BackLinked, Deltas;
    assert asleep[0] in asleep;
  }

  lemma DeltasInsert(time: Field, asleep: seq<int>, left: map<int, int>, k: nat, p: int, t: int)
    requires Deltas(time, asleep, left) && k < |asleep| && p !in asleep && p in time
    requires forall i, j :: 0 <= i < j < |asleep| ==> asleep[i] != asleep[j]
    ensures asleep[k] in left
    ensures Deltas(time[p := t - Base(asleep, left, k)][asleep[k] := left[asleep[k]] - t], Inserted(asleep, k, p), left[p := t])
  {
    var a := Inserted(asleep, k, p);
    var l := left[p := t];
    var m := time[p := t - Base(asleep, left, k)][asleep[k] := left[asleep[k]] - t];
    assert asleep[k] in asleep;
    forall i | 0 <= i < |a|
      ensures a[i] == if i == k then p else asleep[if i < k then i else i - 1]
    {
    }
    forall i | 0 <= i < |a|
      ensures a[i] in m && a[i] in l && m[a[i]] == l[a[i]] - (if i == 0 then 0 else l[a[i - 1]])
    {
      if i != k {
        var i' := if i < k then i else i - 1;
        assert a[i] == asleep[i'] && asleep[i'] in asleep;
        DeltaAt(time, asleep, left, i');
        if i < k && i > 0 {
          assert a[i - 1] == asleep[i - 1] && asleep[i - 1] in asleep;
        } else if i > k + 1 {
          assert a[i - 1] == asleep[i - 2] && asleep[i - 2] in asleep;
        }
      } else if k > 0 {
        assert a[k - 1] == asleep[k - 1] && asleep[k - 1] in asleep;
      }
    }
  }

  lemma JoinMiddle(z: SleepFields, sleepList: int, asleep: seq<int>, left: map<int, int>, stale: int, k: nat, p: int, t: int)
    requires RepSleep(z.next, z.prev, z.time, sleepList, asleep, left, stale) && 0 < k < |asleep|
    requires p !in asleep && p in z.next && p in z.prev && p in z.time && p != NULL
    ensures asleep[k] in left
    ensures RepSleep(z.next[p := asleep[k]][asleep[k - 1] := p], z.prev[p := asleep[k - 1]][asleep[k] := p],
      z.time[p := t - Base(asleep, left, k)][asleep[k] := left[asleep[k]] - t],
      sleepList, Inserted(asleep, k, p), left[p := t], stale)
  {
    Insert(z.next, sleepList, asleep, k, p);
    BackInsert(z.prev, asleep, k, p);
    DeltasInsert(z.time, asleep, left, k, p, t);
    assert asleep[0] in asleep && asleep[0] != asleep[k];
    hide Linked, BackLinked, Deltas;
  }

  lemma JoinBefore(z: SleepFields, sleepList: int, asleep: seq<int>, left: map<int, int>, p: int, t: int)
    requires RepSleep(z.next, z.prev, z.time, sleepList, asleep, left, NULL) && asleep != []
    requires p !in asleep && p in z.next && p in z.prev && p in z.time && p != NULL && z.prev[p] == NULL
    ensures sleepList in left
    ensures RepSleep(z.next[p := sleepList], z.prev[sleepList := p], z.time[p := t][sleepList := left[sleepList] - t],
      p, Inserted(asleep, 0, p), left[p := t], NULL)
  {
    Push(z.next, sleepList, asleep, p);
    BackPush(z.prev, asleep, p);
    DeltasInsert(z.time, asleep, left, 0, p, t);
    assert Inserted(asleep, 0, p) == [p] + asleep;
    assert asleep[0] in asleep;
    hide Linked, BackLinked, Deltas;
  }

  lemma BackAsleep(prev: Field, place: map<int, Place>, p: int, v: int)
    requires RepBack(prev, place) && p in place
    ensures RepBack(prev[p := v], place[p := Asleep])
  {
    assert prev[p := v].Keys == prev.Keys;
  }

  lemma AwakeKeys(s: Sys, z: SleepFields, sleepList: int, p: int)
    requires Core(s) && SleepAll(s, z, sleepList) && p in s.place && s.place[p] != Asleep
    ensures p in z.next && p in z.prev && p in z.time && p != NULL && p !in s.asleep && z.prev[p] == NULL
    ensures s.place[p := Asleep].Keys == s.place.Keys
  {
    AwakeIs(s, p);
    CoreFacts(s, p);
    hide Core, RepSleep;
  }

  lemma JoinsEmpty(s: Sys, z: SleepFields, sleepList: int, p: int, t: int)
    requires Core(s) && SleepAll(s, z, sleepList) && p in s.place && s.place[p] != Asleep && s.asleep == []
    ensures SleepAll(FallAsleep(s, p, t), SleepFields(z.next[p := NULL], z.prev[p := NULL], z.time[p := t]), p)
  {
    hide Core, RepSleep, RepBack, Slot;
    AwakeKeys(s, z, sleepList, p);
    JoinFirst(z, p, s.left, t);
    BackAsleep(z.prev, s.place, p, NULL);
    KeysSame(z.next, p, NULL);
    KeysSame(z.time, p, t);
    SlotEmpty(s.left, t);
    assert Inserted([], 0, p) == [p];
    NotStale(s);
  }

  lemma SlotEmpty(left: map<int, int>, t: int)
    ensures Slot([], left, t) == 0
  {
  }

  lemma NotStale(s: Sys)
    requires Core(s) && s.asleep == []
    ensures s.stale == NULL
  {
    hide Shape, ReadyInv, QueueInv, RecvInv;
  }

  lemma JoinsLast(s: Sys, z: SleepFields, sleepList: int, p: int, t: int)
    requires Core(s) && SleepAll(s, z, sleepList) && p in s.place && s.place[p] != Asleep && s.asleep != []
    requires Slot(s.asleep, s.left, t) == |s.asleep|
    ensures SleepAll(FallAsleep(s, p, t), SleepFields(z.next[Last(s.asleep) := p][p := NULL], z.prev[p := Last(s.asleep)],
      z.time[p := t - Base(s.asleep, s.left, |s.asleep|)]), sleepList)
  {
    hide Core, RepSleep, RepBack, Slot, Base, Inserted;
    AwakeKeys(s, z, sleepList, p);
    JoinLast(z, sleepList, s.asleep, s.left, s.stale, p, t);
    BackAsleep(z.prev, s.place, p, Last(s.asleep));
    SleeperAt(s, z, sleepList, |s.asleep| - 1);
    KeysSame(z.next, Last(s.asleep), p);
    KeysSame(z.next[Last(s.asleep) := p], p, NULL);
    KeysSame(z.time, p, t - Base(s.asleep, s.left, |s.asleep|));
  }

  lemma JoinsMiddle(s: Sys, z: SleepFields, sleepList: int, k: nat, p: int, t: int)
    requires Core(s) && SleepAll(s, z, sleepList) && p in s.place && s.place[p] != Asleep && 0 < k < |s.asleep|
    requires Slot(s.asleep, s.left, t) == k
    ensures s.asleep[k] in s.left
    ensures SleepAll(FallAsleep(s, p, t), SleepFields(z.next[p := s.asleep[k]][s.asleep[k - 1] := p],
      z.prev[p := s.asleep[k - 1]][s.asleep[k] := p],
      z.time[p := t - Base(s.asleep, s.left, k)][s.asleep[k] := s.left[s.asleep[k]] - t]), sleepList)
  {
    hide Core, RepSleep, RepBack, Slot, Base, Inserted;
    AwakeKeys(s, z, sleepList, p);
    JoinMiddle(z, sleepList, s.asleep, s.left, s.stale, k, p, t);
    SleeperAt(s, z, sleepList, k);
    SleeperAt(s, z, sleepList, k - 1);
    AsleepAt(s, k);
    BackAsleep(z.prev, s.place, p, s.asleep[k - 1]);
    BackOther(z.prev[p := s.asleep[k - 1]], s.place[p := Asleep], s.asleep[k], p);
    KeysSame(z.next, p, s.asleep[k]);
    KeysSame(z.next[p := s.asleep[k]], s.asleep[k - 1], p);
    KeysSame(z.time, p, t - Base(s.asleep, s.left, k));
    KeysSame(z.time[p := t - Base(s.asleep, s.left, k)], s.asleep[k], s.left[s.asleep[k]] - t);
  }

  lemma JoinsBefore(s: Sys, z: SleepFields, sleepList: int, p: int, t: int)
    requires Core(s) && SleepAll(s, z, sleepList) && p in s.place && s.place[p] != Asleep && s.asleep != [] && s.stale == NULL
    requires Slot(s.asleep, s.left, t) == 0
    ensures sleepList in s.left
    ensures SleepAll(FallAsleep(s, p, t), SleepFields(z.next[p := sleepList], z.prev[sleepList := p],
      z.time[p := t][sleepList := s.left[sleepList] - t]), p)
  {
    hide Core, RepSleep, RepBack, Slot, Base, Inserted;
    AwakeKeys(s, z, sleepList, p);
    JoinBefore(z, sleepList, s.asleep, s.left, p, t);
    SleeperFacts(s, z, sleepList);
    AsleepAt(s, 0);
    BackMove(z.prev, s.place, p, Asleep);
    BackOther(z.prev, s.place[p := Asleep], sleepList, p);
    KeysSame(z.next, p, sleepList);
    KeysSame(z.time, p, t);
    KeysSame(z.time[p := t], sleepList, s.left[sleepList] - t);
  }

  // ----- what goes wrong in front of a first sleeper that points back

  ghost predicate HasFields(z: SleepFields, p: int) {
    p in z.next && p in z.prev && p in z.time
  }

  /** What an insertion before such a first sleeper h leaves: p is put behind the process h points
      back to, whether that sleeps or not, and the list still starts with h. */
  function Misplaced(z: SleepFields, h: int, p: int, t: int): SleepFields
    requires h in z.prev && h in z.time
  {
    var a := z.prev[h];
    SleepFields(z.next[p := h][a := p], z.prev[p := a][h := p], z.time[p := t][h := z.time[h] - t])
  }

  /** The n-th block from head on. */
  ghost function Nth(next: Field, head: int, n: nat): int {
    if n == 0 then head
    else
      var x := Nth(next, head, n - 1);
      if x != NULL && x in next then next[x] else NULL
  }

  lemma {:induction false} NthIs(next: Field, head: int, s: seq<int>, n: nat)
    requires Linked(next, head, s)
    ensures Nth(next, head, n) == if n < |s| then s[n] else NULL
  {
    if n == 0 {
      HeadOf(next, head, s);
    } else {
      NthIs(next, head, s, n - 1);
      if n <= |s| {
        Follow(next, head, s, n - 1);
      }
    }
  }

  /** The blocks of c lead to each other only. */
  ghost predicate Closed(next: Field, c: seq<int>) {
    forall x :: x in c ==> x != NULL && x in next && next[x] in c
  }

  lemma {:induction false} NthClosed(next: Field, head: int, c: seq<int>, n: nat)
    requires Closed(next, c) && head in c
    ensures Nth(next, head, n) in c
  {
    if n == 0 {
    } else {
      NthClosed(next, head, c, n - 1);
    }
  }

  lemma DeltasShift(time: Field, asleep: seq<int>, left: map<int, int>, left': map<int, int>, d: int)
    requires Deltas(time, asleep, left) && asleep != [] && left'.Keys == left.Keys
    requires forall q :: q in left ==> left'[q] == left[q] + d
    requires forall i, j :: 0 <= i < j < |asleep| ==> asleep[i] != asleep[j]
    ensures asleep[0] in time && Deltas(time[asleep[0] := time[asleep[0]] + d], asleep, left')
  {
    forall i | 0 <= i < |asleep|
      ensures asleep[i] in left' && left'[asleep[i]] == left[asleep[i]] + d
    {
      assert asleep[i] in left.Keys;
    }
  }

  /** If the process pointed back to is awake, the list of the others stays whole, but all of them
      are to wake t earlier; no way leads to the new sleeper. */
  lemma SleeperUnreachable(s: Sys, z: SleepFields, sleepList: int, p: int, t: int)
    requires SleepAll(s, z, sleepList) && s.asleep != [] && sleepList in z.prev && sleepList in z.time
    requires p !in s.asleep && p != NULL && s.stale !in s.asleep
    ensures var z' := Misplaced(z, sleepList, p, t);
      && RepSleep(z'.next, z'.prev, z'.time, sleepList, s.asleep, Shift(s, -t).left, p)
      && forall n: nat :: Nth(z'.next, sleepList, n) != p
  {
    var z' := Misplaced(z, sleepList, p, t);
    HeadOf(z.next, sleepList, s.asleep);
    Distinct(z.next, sleepList, s.asleep);
    Members(z.next, sleepList, s.asleep);
    BackMembers(z.prev, s.asleep);
    Frame(z.next, z'.next, sleepList, s.asleep);
    BackFrame(z.prev, z.prev[p := s.stale], s.asleep);
    BackHead(z.prev[p := s.stale], s.asleep, p);
    DeltasSkip(z.time, s.asleep, s.left, p, t);
    DeltasShift(z.time[p := t], s.asleep, s.left, Shift(s, -t).left, -t);
    hide Linked, BackLinked, Deltas, RepBack;
    forall n: nat
      ensures Nth(z'.next, sleepList, n) != p
    {
      NthIs(z'.next, sleepList, s.asleep, n);
    }
  }

  lemma DeltasSkip(time: Field, asleep: seq<int>, left: map<int, int>, p: int, t: int)
    requires Deltas(time, asleep, left) && p !in asleep
    ensures Deltas(time[p := t], asleep, left)
  {
  }

  /** If it sleeps again, as the k-th, the list becomes a circle: the sleepers up to that one, the
      new one, and the first again. Those behind it are cut off. */
  lemma ListTied(s: Sys, z: SleepFields, sleepList: int, p: int, t: int, k: nat)
    requires SleepAll(s, z, sleepList) && k < |s.asleep| && s.asleep[k] == s.stale && sleepList in z.prev && sleepList in z.time
    requires p !in s.asleep && p != NULL
    ensures var z' := Misplaced(z, sleepList, p, t); var c := s.asleep[..k + 1] + [p];
      && (forall i: nat :: i <= k + 1 ==> Nth(z'.next, sleepList, i) == c[i])
      && Nth(z'.next, sleepList, k + 2) == sleepList
      && (forall n: nat :: Nth(z'.next, sleepList, n) in c)
  {
    var z' := Misplaced(z, sleepList, p, t);
    var c := s.asleep[..k + 1] + [p];
    HeadOf(z.next, sleepList, s.asleep);
    Distinct(z.next, sleepList, s.asleep);
    forall i | 0 <= i <= k
      ensures c[i] == s.asleep[i] && c[i] != NULL && c[i] in z'.next && z'.next[c[i]] == c[i + 1]
    {
      Follow(z.next, sleepList, s.asleep, i);
      assert s.asleep[i] in s.asleep;
    }
    assert p != s.stale && z'.next[p] == c[0];
    hide Linked, RepSleep, RepBack;
    CircleNth(z'.next, c, k + 1);
    ClosedCircle(z'.next, c);
    forall n: nat
      ensures Nth(z'.next, sleepList, n) in c
    {
      NthClosed(z'.next, sleepList, c, n);
    }
  }

  ghost predicate Circle(next: Field, c: seq<int>) {
    && c != []
    && (forall i :: 0 <= i < |c| ==> c[i] != NULL && c[i] in next)
    && (forall i, j :: 0 <= i && j == i + 1 && j < |c| ==> next[c[i]] == c[j])
    && next[c[|c| - 1]] == c[0]
  }

  lemma {:induction false} CircleAt(next: Field, c: seq<int>, i: nat)
    requires Circle(next, c) && i < |c|
    ensures Nth(next, c[0], i) == c[i]
  {
    if i == 0 {
    } else {
      CircleAt(next, c, i - 1);
      assert next[c[i - 1]] == c[i];
    }
  }

  lemma CircleNth(next: Field, c: seq<int>, m: nat)
    requires Circle(next, c) && m == |c| - 1
    ensures forall i: nat :: i <= m ==> Nth(next, c[0], i) == c[i]
    ensures Nth(next, c[0], m + 1) == c[0]
  {
    forall i: nat | i <= m
      ensures Nth(next, c[0], i) == c[i]
    {
      CircleAt(next, c, i);
    }
  }

  lemma ClosedCircle(next: Field, c: seq<int>)
    requires Circle(next, c)
    ensures Closed(next, c)
  {
    forall x | x in c
      ensures x != NULL && x in next && next[x] in c
    {
      var i :| 0 <= i < |c| && c[i] == x;
      if i + 1 < |c| {
        assert next[c[i]] == c[i + 1];
      }
    }
  }

  /** The new sleeper is on the list, and the list has no end, exactly if the process pointed back
      to sleeps again. */
  lemma LostOrTied(s: Sys, z: SleepFields, sleepList: int, p: int, t: int)
    requires SleepAll(s, z, sleepList) && s.asleep != [] && sleepList in z.prev && sleepList in z.time
    requires p !in s.asleep && p != NULL
    ensures var next := Misplaced(z, sleepList, p, t).next;
      && ((exists n: nat :: Nth(next, sleepList, n) == p) <==> s.stale in s.asleep)
      && ((forall n: nat :: Nth(next, sleepList, n) != NULL) <==> s.stale in s.asleep)
  {
    var next := Misplaced(z, sleepList, p, t).next;
    if s.stale in s.asleep {
      var k :| 0 <= k < |s.asleep| && s.asleep[k] == s.stale;
      ListTied(s, z, sleepList, p, t, k);
      assert Nth(next, sleepList, k + 1) == p;
      forall n: nat
        ensures Nth(next, sleepList, n) != NULL
      {
        SleeperNotNull(s, z, sleepList);
        assert Nth(next, sleepList, n) in s.asleep[..k + 1] + [p];
      }
    } else {
      SleeperUnreachable(s, z, sleepList, p, t);
      NthIs(next, sleepList, s.asleep, |s.asleep|);
    }
  }

  lemma SleeperNotNull(s: Sys, z: SleepFields, sleepList: int)
    requires SleepAll(s, z, sleepList)
    ensures NULL !in s.asleep
  {
  }

  lemma HeadAll(s: Sys, z: SleepFields, sleepList: int)
    ensures SleepAll(s, z, sleepList) && s.asleep != [] ==> sleepList == s.asleep[0]
    ensures SleepAll(s, z, sleepList) && s.asleep == [] ==> sleepList == NULL
  {
  }

  /** A list that still starts with the old first sleeper does not have the new one before it. */
  lemma NotJoined(s: Sys, z: SleepFields, sleepList: int, s': Sys, z': SleepFields, p: int, t: int)
    requires SleepAll(s, z, sleepList) && s.asleep != [] && p !in s.asleep && Slot(s.asleep, s.left, t) == 0
    requires s'.asleep == FallAsleep(s, p, t).asleep
    ensures sleepList != p && !SleepAll(s', z', sleepList)
  {
    HeadAll(s, z, sleepList);
    HeadAll(s', z', sleepList);
    assert s'.asleep == [p] + s.asleep;
    assert s.asleep[0] in s.asleep;
  }

  /** A removed first sleeper that pointed back is still where the list starts, and it leads nowhere. */
  lemma StillFirst(s: Sys, z: SleepFields, sleepList: int, s': Sys, p: int)
    requires SleepAll(s, z, sleepList) && s.asleep != [] && p == s.asleep[0]
    requires CanTake(z, p)
    requires s'.asleep == Without(s.asleep, 0)
    ensures sleepList == p && Linked(TakeLater(z, p).next, p, [p])
    ensures forall z' :: !SleepAll(s', z', sleepList)
  {
    hide *;
    HeadAll(s, z, sleepList);
    AloneAfter(s, z, sleepList, p);
    FirstGone(s, z, sleepList);
    forall z' | SleepAll(s', z', sleepList)
      ensures false
    {
      HeadAll(s', z', sleepList);
    }
  }

  lemma AloneAfter(s: Sys, z: SleepFields, sleepList: int, p: int)
    requires SleepAll(s, z, sleepList) && s.asleep != [] && p == s.asleep[0] && CanTake(z, p)
    ensures Linked(TakeLater(z, p).next, p, [p])
  {
    SleeperNotNull(s, z, sleepList);
    hide SleepAll;
    Single(TakeLater(z, p).next, p);
  }

  lemma FirstGone(s: Sys, z: SleepFields, sleepList: int)
    requires SleepAll(s, z, sleepList) && s.asleep != []
    ensures var rest := Without(s.asleep, 0); sleepList != NULL && (rest != [] ==> rest[0] != sleepList)
  {
    SleeperNotNull(s, z, sleepList);
    Distinct(z.next, sleepList, s.asleep);
    HeadAll(s, z, sleepList);
    hide SleepAll;
    assert s.asleep[0] in s.asleep;
  }

  // ----- waking

  /** Everybody has d more left. */
  function Shift(s: Sys, d: int): Sys {
    s.(left := map q | q in s.left :: s.left[q] + d)
  }

  lemma ShiftElapse(s: Sys)
    ensures Elapse(s) == Shift(s, -TIME_SLICE)
  {
    assert Elapse(s).left == Shift(s, -TIME_SLICE).left;
  }

  lemma CoreShift(s: Sys, d: int)
    requires Core(s)
    ensures Core(Shift(s, d))
  {
    hide Shape, ReadyInv, QueueInv, RecvInv;
    assert SleepSorted(s.asleep, Shift(s, d).left);
  }

  /** Only the first sleeper's time says how much everybody has left. */
  lemma Retime(s: Sys, z: SleepFields, sleepList: int, v: int)
    requires SleepAll(s, z, sleepList) && s.asleep != [] && sleepList in z.time
    ensures SleepAll(Shift(s, v - z.time[sleepList]), z.(time := z.time[sleepList := v]), sleepList)
  {
    var d := v - z.time[sleepList];
    HeadOf(z.next, sleepList, s.asleep);
    Distinct(z.next, sleepList, s.asleep);
    assert z.time[sleepList := v].Keys == z.time.Keys;
    hide Linked, BackLinked, RepBack;
    var l := Shift(s, d).left;
    forall i | 0 <= i < |s.asleep|
      ensures s.asleep[i] in l && l[s.asleep[i]] == s.left[s.asleep[i]] + d
    {
    }
    assert Deltas(z.time[sleepList := v], s.asleep, l);
  }

  /** The list without its first sleeper, who is due now. */
  function Popped(s: Sys): Sys
    requires s.asleep != []
  {
    s.(asleep := s.asleep[1..], left := s.left - {s.asleep[0]}, stale := StaleAfter(s, s.asleep[0], s.asleep[1..]),
       place := s.place[s.asleep[0] := Detached])
  }

  /** The pointer of the new first sleeper, which wake and removeFromSleepList should clear. */
  function FirstCleared(prev: Field, clears: bool, head: int): Field {
    if clears && head != NULL then prev[head := NULL] else prev
  }

  lemma DeltasPop(time: Field, asleep: seq<int>, left: map<int, int>)
    requires Deltas(time, asleep, left) && asleep != [] && time[asleep[0]] == 0
    requires forall i, j :: 0 <= i < j < |asleep| ==> asleep[i] != asleep[j]
    ensures Deltas(time, asleep[1..], left - {asleep[0]})
  {
    var a := asleep[1..];
    var l := left - {asleep[0]};
    forall i | 0 <= i < |a|
      ensures a[i] == asleep[i + 1] && a[i] in l && a[i] in time && time[a[i]] == l[a[i]] - (if i == 0 then 0 else l[a[i - 1]])
    {
      assert asleep[i + 1] != asleep[0];
      DeltaAt(time, asleep, left, i + 1);
      if i > 0 {
        assert asleep[i] != asleep[0];
      }
    }
  }

  lemma PopSleeper(s: Sys, z: SleepFields, sleepList: int)
    requires SleepAll(s, z, sleepList) && s.asleep != [] && sleepList in z.time && z.time[sleepList] == 0
    requires s.asleep[0] in s.place
    ensures sleepList in z.next
    ensures SleepAll(Popped(s), z.(next := z.next[sleepList := NULL],
      prev := FirstCleared(z.prev[sleepList := NULL], s.clears, z.next[sleepList])), z.next[sleepList])
  {
    HeadOf(z.next, sleepList, s.asleep);
    Distinct(z.next, sleepList, s.asleep);
    Pop(z.next, sleepList, s.asleep);
    BackPop(z.prev, s.asleep, NULL);
    DeltasPop(z.time, s.asleep, s.left);
    var a := s.asleep[1..];
    if a != [] {
      Follow(z.next, sleepList, s.asleep, 0);
      Follow(z.next, sleepList, s.asleep, 1);
      assert z.prev[s.asleep[1]] == s.asleep[0];
      BackHead(z.prev[sleepList := NULL], a, NULL);
    }
    BackPopped(z.prev, s.place, sleepList);
    BackCleared(z.prev[sleepList := NULL], s.place[sleepList := Detached], s.clears, z.next[sleepList]);
    hide Linked, BackLinked, Deltas, RepBack;
    assert z.next[sleepList := NULL].Keys == z.next.Keys;
  }

  lemma BackPopped(prev: Field, place: map<int, Place>, p: int)
    requires RepBack(prev, place) && p in place
    ensures RepBack(prev[p := NULL], place[p := Detached])
  {
    assert prev[p := NULL].Keys == prev.Keys;
  }

  lemma BackCleared(prev: Field, place: map<int, Place>, clears: bool, head: int)
    requires RepBack(prev, place) && (head != NULL ==> head in prev)
    ensures RepBack(FirstCleared(prev, clears, head), place)
  {
    assert head in prev ==> prev[head := NULL].Keys == prev.Keys;
  }

  lemma CorePopped(s: Sys)
    requires Core(s) && s.asleep != []
    ensures Core(Popped(s)) && s.asleep[0] in s.place && s.asleep[0] != IDLE
    ensures var p := s.asleep[0]; MakeReady(SetEax(Popped(s), p, 0), p) == Wake(s)
  {
    hide Shape, ReadyInv, QueueInv, SleepInv, RecvInv;
    var p := s.asleep[0];
    SleepLeave(s.asleep, s.left, s.stale, s.place, Detached, StaleAfter(s, p, s.asleep[1..]));
    NotIdle(s, p);
    ShapeMove(s.table, s.place, s.queues, s.target, p, Detached);
    ReadyMove(s.ready, s.place, p, Detached);
    QueueMove(s.queues, s.place, p, Detached);
    RecvMove(s.target, s.place, s.queues, p, Detached);
  }

  /** Waking somebody whose time was set to 0 first, and giving it back to the next. */
  lemma ShiftWake(s: Sys, d: int)
    requires s.asleep != []
    ensures Shift(Wake(Shift(s, d)), -d) == Wake(s)
  {
    var p := s.asleep[0];
    assert Shift(Wake(Shift(s, d)), -d).left == Wake(s).left;
  }

  lemma ShiftWakeLast(s: Sys, d: int)
    requires Core(s) && |s.asleep| == 1
    ensures Wake(Shift(s, d)) == Wake(s)
  {
    CoreLeft(s);
    assert forall q :: q in s.left ==> q in s.asleep && q == s.asleep[0];
    assert Shift(s, d).left - {s.asleep[0]} == map[];
    assert s.left - {s.asleep[0]} == map[];
  }

  lemma CoreLeft(s: Sys)
    requires Core(s)
    ensures forall q :: q in s.asleep <==> q in s.left
  {
    hide Shape, ReadyInv, QueueInv, RecvInv;
  }

  // ----- removal

  lemma DeltasRemove(time: Field, asleep: seq<int>, left: map<int, int>, k: nat)
    requires Deltas(time, asleep, left) && k < |asleep|
    requires forall i, j :: 0 <= i < j < |asleep| ==> asleep[i] != asleep[j]
    ensures k + 1 < |asleep| ==> asleep[k + 1] in time && asleep[k] in time
    ensures Deltas(if k + 1 < |asleep| then time[asleep[k + 1] := time[asleep[k + 1]] + time[asleep[k]]] else time,
      Without(asleep, k), left - {asleep[k]})
  {
    var a := Without(asleep, k);
    var l := left - {asleep[k]};
    if k + 1 < |asleep| {
      DeltaAt(time, asleep, left, k + 1);
    }
    DeltaAt(time, asleep, left, k);
    var m := if k + 1 < |asleep| then time[asleep[k + 1] := time[asleep[k + 1]] + time[asleep[k]]] else time;
    forall i | 0 <= i < |a|
      ensures a[i] == asleep[if i < k then i else i + 1] && a[i] in l && a[i] in m
      ensures m[a[i]] == l[a[i]] - (if i == 0 then 0 else l[a[i - 1]])
    {
      var i' := if i < k then i else i + 1;
      assert asleep[i'] != asleep[k];
      DeltaAt(time, asleep, left, i');
      if i > 0 {
        var h := if i - 1 < k then i - 1 else i;
        assert a[i - 1] == asleep[h] && asleep[h] != asleep[k];
      }
    }
  }

  // The links after a removal, by the branches of removeFromSleepList

  /** The first sleeper, whose sleepPrev is clear, leaves. */
  function TakeFirst(z: SleepFields, p: int, clears: bool): SleepFields
    requires p in z.next && p in z.time && (z.next[p] != NULL ==> z.next[p] in z.time)
  {
    SleepFields(z.next[p := NULL], FirstCleared(z.prev[p := NULL], clears, z.next[p]),
      if z.next[p] == NULL then z.time else z.time[z.next[p] := z.time[z.next[p]] + z.time[p]])
  }

  ghost predicate CanTake(z: SleepFields, p: int) {
    p in z.next && p in z.prev && p in z.time && (z.next[p] != NULL ==> z.next[p] in z.time)
  }

  /** A sleeper with another in front of it leaves. */
  function TakeLater(z: SleepFields, p: int): SleepFields
    requires p in z.next && p in z.prev && p in z.time && (z.next[p] != NULL ==> z.next[p] in z.time)
  {
    SleepFields(z.next[z.prev[p] := z.next[p]][p := NULL],
      (if z.next[p] == NULL then z.prev else z.prev[z.next[p] := z.prev[p]])[p := NULL],
      if z.next[p] == NULL then z.time else z.time[z.next[p] := z.time[z.next[p]] + z.time[p]])
  }

  lemma ListFirst(z: SleepFields, sleepList: int, asleep: seq<int>, left: map<int, int>, stale: int)
    requires RepSleep(z.next, z.prev, z.time, sleepList, asleep, left, stale) && asleep != []
    ensures sleepList in z.next && sleepList in z.prev && sleepList in z.time && sleepList in left && sleepList == asleep[0]
    ensures z.next[sleepList] == if |asleep| > 1 then asleep[1] else NULL
    ensures |asleep| > 1 ==> asleep[1] in z.time && asleep[1] in z.prev && asleep[1] != NULL && z.prev[asleep[1]] == asleep[0] && asleep[0] != NULL
  {
    Follow(z.next, sleepList, asleep, 0);
    if |asleep| > 1 {
      Follow(z.next, sleepList, asleep, 1);
      assert z.prev[asleep[1]] == asleep[0];
    }
    hide Linked;
  }

  lemma LeaveFirst(z: SleepFields, sleepList: int, asleep: seq<int>, left: map<int, int>, stale: int, clears: bool)
    requires RepSleep(z.next, z.prev, z.time, sleepList, asleep, left, stale) && asleep != []
    requires sleepList in z.next && sleepList in z.time && (z.next[sleepList] != NULL ==> z.next[sleepList] in z.time)
    ensures var z' := TakeFirst(z, sleepList, clears);
      RepSleep(z'.next, z'.prev, z'.time, z.next[sleepList], Without(asleep, 0), left - {sleepList},
               if clears || asleep[1..] == [] then NULL else sleepList)
  {
    ListFirst(z, sleepList, asleep, left, stale);
    Distinct(z.next, sleepList, asleep);
    Pop(z.next, sleepList, asleep);
    BackPop(z.prev, asleep, NULL);
    if |asleep| > 1 {
      BackHead(z.prev[asleep[0] := NULL], asleep[1..], NULL);
    }
    DeltasRemove(z.time, asleep, left, 0);
    assert Without(asleep, 0) == asleep[1..];
    hide Linked, BackLinked, Deltas;
  }

  lemma ListLater(z: SleepFields, sleepList: int, asleep: seq<int>, left: map<int, int>, stale: int, k: nat)
    requires RepSleep(z.next, z.prev, z.time, sleepList, asleep, left, stale) && 0 < k < |asleep|
    ensures var p := asleep[k];
      && p in z.next && p in z.prev && p in z.time && p in left && p != NULL
      && z.prev[p] == asleep[k - 1] && z.prev[p] != NULL
      && z.next[p] == if k + 1 < |asleep| then asleep[k + 1] else NULL
    ensures k + 1 < |asleep| ==> asleep[k + 1] in z.time && asleep[k + 1] in z.prev && asleep[k + 1] != NULL
    ensures asleep[0] in z.prev
  {
    Follow(z.next, sleepList, asleep, k);
    Follow(z.next, sleepList, asleep, k - 1);
    assert z.prev[asleep[k]] == asleep[k - 1];
    if k + 1 < |asleep| {
      Follow(z.next, sleepList, asleep, k + 1);
    }
    hide Linked;
  }

  lemma LeaveLater(z: SleepFields, sleepList: int, asleep: seq<int>, left: map<int, int>, stale: int, k: nat)
    requires RepSleep(z.next, z.prev, z.time, sleepList, asleep, left, stale) && 0 < k < |asleep|
    requires var p := asleep[k]; p in z.next && p in z.prev && p in z.time && (z.next[p] != NULL ==> z.next[p] in z.time)
    ensures var z' := TakeLater(z, asleep[k]);
      RepSleep(z'.next, z'.prev, z'.time, sleepList, Without(asleep, k), left - {asleep[k]}, stale)
  {
    ListLater(z, sleepList, asleep, left, stale, k);
    Distinct(z.next, sleepList, asleep);
    Unlink(z.next, sleepList, asleep, k);
    BackRemove(z.prev, asleep, k);
    DeltasRemove(z.time, asleep, left, k);
    assert Without(asleep, k)[0] == asleep[0] && asleep[0] != asleep[k];
    assert k + 1 < |asleep| ==> asleep[0] != asleep[k + 1];
    hide Linked, BackLinked, Deltas;
  }

  lemma AsleepAt(s: Sys, k: nat)
    requires Core(s) && k < |s.asleep|
    ensures s.asleep[k] in s.place && s.place[s.asleep[k]] == Asleep
  {
    hide Shape, ReadyInv, QueueInv, RecvInv;
    assert s.asleep[k] in s.asleep;
  }

  lemma BackOther(prev: Field, place: map<int, Place>, p: int, v: int)
    requires RepBack(prev, place) && p in place && place[p] == Asleep
    ensures RepBack(prev[p := v], place)
  {
    assert prev[p := v].Keys == prev.Keys;
  }

  lemma KeysSame(f: Field, p: int, v: int)
    requires p in f
    ensures f[p := v].Keys == f.Keys
  {
    assert f[p := v].Keys == f.Keys;
  }

  lemma PlaceKeys(m: map<int, Place>, p: int)
    requires p in m
    ensures m[p := Detached].Keys == m.Keys
  {
    assert m[p := Detached].Keys == m.Keys;
  }

  lemma FirstLeaves(s: Sys, z: SleepFields, sleepList: int)
    requires Core(s) && SleepAll(s, z, sleepList) && s.asleep != []
    ensures sleepList in z.next && sleepList in z.time && (z.next[sleepList] != NULL ==> z.next[sleepList] in z.time)
    ensures sleepList in s.left && sleepList in s.asleep
    ensures SleepAll(Removed(s, sleepList), TakeFirst(z, sleepList, s.clears), z.next[sleepList])
  {
    hide Core, RepSleep, RepBack, Base, Without;
    ListFirst(z, sleepList, s.asleep, s.left, s.stale);
    AsleepAt(s, 0);
    LeaveFirst(z, sleepList, s.asleep, s.left, s.stale, s.clears);
    BackPopped(z.prev, s.place, sleepList);
    BackCleared(z.prev[sleepList := NULL], s.place[sleepList := Detached], s.clears, z.next[sleepList]);
    KeysSame(z.next, sleepList, NULL);
    PlaceKeys(s.place, sleepList);
    if |s.asleep| > 1 {
      KeysSame(z.time, s.asleep[1], z.time[s.asleep[1]] + z.time[sleepList]);
    }
  }

  lemma LaterLeaves(s: Sys, z: SleepFields, sleepList: int, k: nat)
    requires Core(s) && SleepAll(s, z, sleepList) && 0 < k < |s.asleep| && k == Index(s.asleep, s.asleep[k])
    ensures var p := s.asleep[k];
      p in z.next && p in z.prev && p in z.time && (z.next[p] != NULL ==> z.next[p] in z.time) && p in s.left && p in s.asleep
    ensures SleepAll(Removed(s, s.asleep[k]), TakeLater(z, s.asleep[k]), sleepList)
  {
    hide Core, RepSleep, RepBack, Base, Without, Index;
    var p := s.asleep[k];
    ListLater(z, sleepList, s.asleep, s.left, s.stale, k);
    AsleepAt(s, k);
    AsleepAt(s, k - 1);
    LeaveLater(z, sleepList, s.asleep, s.left, s.stale, k);
    KeysSame(z.next, z.prev[p], z.next[p]);
    KeysSame(z.next[z.prev[p] := z.next[p]], p, NULL);
    PlaceKeys(s.place, p);
    if k + 1 < |s.asleep| {
      AsleepAt(s, k + 1);
      BackOther(z.prev, s.place, s.asleep[k + 1], z.prev[p]);
      BackPopped(z.prev[s.asleep[k + 1] := z.prev[p]], s.place, p);
      KeysSame(z.time, s.asleep[k + 1], z.time[s.asleep[k + 1]] + z.time[p]);
    } else {
      BackPopped(z.prev, s.place, p);
    }
  }
}
