// Every arm of the dispatcher keeps every process in exactly one place and loses no rendezvous.
module KernelInv {
  import opened Links
  import opened KernelSpec

  // ----- sequences

  lemma MinusIs(q: seq<int>, p: int)
    requires NoDups(q)
    ensures NoDups(Minus(q, p)) && forall x :: x in Minus(q, p) <==> x in q && x != p
  {
    if q == [] {
    } else {
      NoDupsPop(q);
      if q[0] != p {
        MinusIs(q[1..], p);
        NoDupsPush(q[0], Minus(q[1..], p));
      }
    }
  }

  lemma NoDupsPush(p: int, q: seq<int>)
    requires NoDups(q) && p !in q
    ensures NoDups([p] + q) && forall x :: x in [p] + q <==> x in q || x == p
  {
  }

  lemma NoDupsAppend(q: seq<int>, p: int)
    requires NoDups(q) && p !in q
    ensures NoDups(q + [p]) && forall x :: x in q + [p] <==> x in q || x == p
  {
  }

  lemma NoDupsPop(q: seq<int>)
    requires NoDups(q) && q != []
    ensures NoDups(q[1..]) && forall x :: x in q[1..] <==> x in q && x != q[0]
  {
    forall i, j | 0 <= i < j < |q[1..]|
      ensures q[1..][i] != q[1..][j]
    {
      assert q[i + 1] != q[j + 1];
    }
    forall x | x in q && x != q[0]
      ensures x in q[1..]
    {
      var i :| 0 <= i < |q| && q[i] == x;
      assert q[1..][i - 1] == x;
    }
  }

  lemma NoDupsInsert(q: seq<int>, k: nat, p: int)
    requires NoDups(q) && p !in q && k <= |q|
    ensures NoDups(Inserted(q, k, p)) && forall x :: x in Inserted(q, k, p) <==> x in q || x == p
  {
    var t := Inserted(q, k, p);
    forall i | 0 <= i < |t|
      ensures t[i] == if i == k then p else q[if i < k then i else i - 1]
    {
    }
    forall x | x in q
      ensures x in t
    {
      var i :| 0 <= i < |q| && q[i] == x;
      if i < k {
        assert t[i] == x;
      } else {
        assert t[i + 1] == x;
      }
    }
    assert t[k] == p;
    hide Inserted;
  }

  lemma {:induction false} MinusAt(q: seq<int>, k: nat)
    requires NoDups(q) && k < |q|
    ensures Minus(q, q[k]) == Without(q, k)
  {
    if k > 0 {
      NoDupsPop(q);
      MinusAt(q[1..], k - 1);
      assert q[1..][k - 1] == q[k] && q[0] != q[k];
      assert Without(q, k) == [q[0]] + Without(q[1..], k - 1);
    } else {
      assert Without(q, 0) == q[1..];
    }
  }

  // ----- one process changes its place

  lemma ShapeMove(table: seq<int>, place: map<int, Place>, queues: map<int, seq<int>>, target: map<int, int>, p: int, w: Place)
    requires Shape(table, place, queues, target) && p in place && p != IDLE && w != Idle
    ensures Shape(table, place[p := w], queues, target)
  {
  }

  lemma ReadyMove(ready: seq<int>, place: map<int, Place>, p: int, w: Place)
    requires ReadyInv(ready, place) && p in place && place[p] != Ready && w != Ready
    ensures ReadyInv(ready, place[p := w])
  {
  }

  lemma ReadyJoin(ready: seq<int>, place: map<int, Place>, p: int)
    requires ReadyInv(ready, place) && p in place && place[p] != Ready
    ensures ReadyInv(ready + [p], place[p := Ready])
  {
    NoDupsAppend(ready, p);
  }

  lemma ReadyLeave(ready: seq<int>, place: map<int, Place>, w: Place)
    requires ReadyInv(ready, place) && ready != [] && w != Ready
    ensures ReadyInv(ready[1..], place[ready[0] := w]) && ready[0] in place && place[ready[0]] == Ready
  {
    assert ready[0] in ready;
    NoDupsPop(ready);
  }

  lemma QueueMove(queues: map<int, seq<int>>, place: map<int, Place>, p: int, w: Place)
    requires QueueInv(queues, place) && p in place && !place[p].SendingTo? && !w.SendingTo?
    ensures QueueInv(queues, place[p := w])
  {
    var place' := place[p := w];
    forall d, x | d in queues
      ensures x in queues[d] <==> x in place' && place'[x] == SendingTo(d)
    {
      assert x in queues[d] <==> x in place && place[x] == SendingTo(d);
    }
  }

  lemma QueueLeave(queues: map<int, seq<int>>, place: map<int, Place>, d: int, p: int, w: Place)
    requires QueueInv(queues, place) && d in queues && p in queues[d] && !w.SendingTo?
    ensures QueueInv(queues[d := Minus(queues[d], p)], place[p := w]) && p in place && place[p] == SendingTo(d)
  {
    var place' := place[p := w];
    var queues' := queues[d := Minus(queues[d], p)];
    MinusIs(queues[d], p);
    assert p in place && place[p] == SendingTo(d);
    forall e, x | e in queues'
      ensures x in queues'[e] <==> x in place' && place'[x] == SendingTo(e)
    {
      assert x in queues[e] <==> x in place && place[x] == SendingTo(e);
    }
  }

  lemma QueueJoin(queues: map<int, seq<int>>, place: map<int, Place>, d: int, p: int)
    requires QueueInv(queues, place) && d in queues && p != d && p in place && !place[p].SendingTo?
    ensures QueueInv(queues[d := queues[d] + [p]], place[p := SendingTo(d)])
  {
    var place' := place[p := SendingTo(d)];
    var queues' := queues[d := queues[d] + [p]];
    NoDupsAppend(queues[d], p);
    forall e, x | e in queues'
      ensures x in queues'[e] <==> x in place' && place'[x] == SendingTo(e)
    {
      assert x in queues[e] <==> x in place && place[x] == SendingTo(e);
    }
  }

  lemma SleepMove(asleep: seq<int>, left: map<int, int>, stale: int, place: map<int, Place>, p: int, w: Place)
    requires SleepInv(asleep, left, stale, place) && p in place && place[p] != Asleep && w != Asleep
    ensures SleepInv(asleep, left, stale, place[p := w])
  {
  }

  lemma SleepLeave(asleep: seq<int>, left: map<int, int>, stale: int, place: map<int, Place>, w: Place, stale': int)
    requires SleepInv(asleep, left, stale, place) && asleep != [] && w != Asleep && (stale' != NULL ==> asleep[1..] != [])
    ensures SleepInv(asleep[1..], left - {asleep[0]}, stale', place[asleep[0] := w])
    ensures asleep[0] in place && place[asleep[0]] == Asleep
  {
    var p := asleep[0];
    assert p in asleep;
    assert p in place && place[p] == Asleep;
    NoDupsPop(asleep);
    SortedPop(asleep, left);
  }

  lemma SortedPop(asleep: seq<int>, left: map<int, int>)
    requires SleepSorted(asleep, left) && asleep != [] && NoDups(asleep)
    ensures SleepSorted(asleep[1..], left - {asleep[0]})
  {
    var rest := asleep[1..];
    var left' := left - {asleep[0]};
    forall i | 0 <= i < |rest|
      ensures rest[i] in left' && left'[rest[i]] == left[asleep[i + 1]]
    {
      assert rest[i] == asleep[i + 1] && asleep[i + 1] != asleep[0];
    }
    forall i, j | 0 <= i < j < |rest|
      ensures left'[rest[i]] <= left'[rest[j]]
    {
      assert left[asleep[i + 1]] <= left[asleep[j + 1]];
    }
  }

  lemma SortedTail(asleep: seq<int>, left: map<int, int>)
    requires SleepSorted(asleep, left) && asleep != []
    ensures SleepSorted(asleep[1..], left)
  {
    var rest := asleep[1..];
    forall i, j | 0 <= i < j < |rest|
      ensures left[rest[i]] <= left[rest[j]]
    {
      assert left[asleep[i + 1]] <= left[asleep[j + 1]];
    }
  }

  lemma SlotIs(asleep: seq<int>, left: map<int, int>, t: int)
    requires SleepSorted(asleep, left)
    ensures forall i :: 0 <= i < |asleep| ==> (i < Slot(asleep, left, t) <==> left[asleep[i]] <= t)
  {
    if asleep == [] {
    } else {
      SortedTail(asleep, left);
      SlotIs(asleep[1..], left, t);
      forall i | 0 <= i < |asleep|
        ensures i < Slot(asleep, left, t) <==> left[asleep[i]] <= t
      {
        if i > 0 {
          assert asleep[i] == asleep[1..][i - 1];
        }
      }
    }
  }

  lemma SortedInsert(asleep: seq<int>, left: map<int, int>, k: nat, p: int, t: int)
    requires SleepSorted(asleep, left) && k <= |asleep| && p !in asleep
    requires forall i :: 0 <= i < |asleep| ==> (i < k <==> left[asleep[i]] <= t)
    ensures SleepSorted(Inserted(asleep, k, p), left[p := t])
  {
    var a := Inserted(asleep, k, p);
    var l := left[p := t];
    forall i | 0 <= i < |a|
      ensures a[i] in l && l[a[i]] == if i == k then t else left[asleep[if i < k then i else i - 1]]
    {
      if i != k {
        assert a[i] == asleep[if i < k then i else i - 1];
      }
    }
  }

  lemma SleepJoin(asleep: seq<int>, left: map<int, int>, stale: int, place: map<int, Place>, p: int, t: int)
    requires SleepInv(asleep, left, stale, place) && p in place && place[p] != Asleep
    ensures var k := Slot(asleep, left, t);
      SleepInv(Inserted(asleep, k, p), left[p := t], if k > 0 then stale else NULL, place[p := Asleep])
  {
    var k := Slot(asleep, left, t);
    SlotIs(asleep, left, t);
    NoDupsInsert(asleep, k, p);
    SortedInsert(asleep, left, k, p, t);
  }

  lemma RecvMove(target: map<int, int>, place: map<int, Place>, queues: map<int, seq<int>>, p: int, w: Place)
    requires RecvInv(target, place, queues) && p in place && place[p] != Receiving && w != Receiving
    ensures RecvInv(target, place[p := w], queues)
  {
  }

  /** A shorter queue has no message that the longer one did not have. */
  lemma RecvShrink(target: map<int, int>, place: map<int, Place>, queues: map<int, seq<int>>, d: int, q: seq<int>)
    requires RecvInv(target, place, queues) && d in queues
    requires (forall x :: x in q ==> x in queues[d]) && (queues[d] == [] ==> q == [])
    ensures RecvInv(target, place, queues[d := q])
  {
  }

  lemma RecvGrow(target: map<int, int>, place: map<int, Place>, queues: map<int, seq<int>>, d: int, p: int)
    requires RecvInv(target, place, queues) && d in queues
    requires d in place && d in target && (place[d] == Receiving ==> target[d] != p && target[d] != 0)
    ensures RecvInv(target, place, queues[d := queues[d] + [p]])
  {
  }

  lemma RecvEnd(target: map<int, int>, place: map<int, Place>, queues: map<int, seq<int>>, r: int, w: Place)
    requires RecvInv(target, place, queues) && r in place && w != Receiving
    ensures RecvInv(target[r := r], place[r := w], queues)
  {
  }

  lemma RecvBegin(target: map<int, int>, place: map<int, Place>, queues: map<int, seq<int>>, r: int, from: int)
    requires RecvInv(target, place, queues) && r in place && r in queues && from != r
    requires if from == 0 then queues[r] == [] else from in place && from !in queues[r]
    ensures RecvInv(target[r := from], place[r := Receiving], queues)
  {
  }

  // ----- the primitive changes keep Core

  lemma CoreReady(s: Sys, p: int)
    requires Core(s) && p in s.place && s.place[p] in {Idle, Running, Detached} && (s.place[p] == Idle ==> p == IDLE)
    ensures Core(MakeReady(s, p))
  {
    hide Shape, ReadyInv, QueueInv, SleepInv, RecvInv;
    if p != IDLE {
      ShapeMove(s.table, s.place, s.queues, s.target, p, Ready);
      ReadyJoin(s.ready, s.place, p);
      QueueMove(s.queues, s.place, p, Ready);
      SleepMove(s.asleep, s.left, s.stale, s.place, p, Ready);
      RecvMove(s.target, s.place, s.queues, p, Ready);
    }
  }

  lemma NotIdle(s: Sys, p: int)
    requires Core(s) && p in s.place
    ensures s.place[p] == Idle <==> p == IDLE
  {
    hide ReadyInv, QueueInv, SleepInv, RecvInv;
  }

  lemma CoreDispatch(s: Sys)
    requires Core(s)
    ensures Core(Dispatch(s)) && (s.ready != [] ==> s.ready[0] in s.place && s.place[s.ready[0]] == Ready)
  {
    hide Shape, ReadyInv, QueueInv, SleepInv, RecvInv;
    if s.ready != [] {
      var p := s.ready[0];
      ReadyLeave(s.ready, s.place, Running);
      NotIdle(s, p);
      ShapeMove(s.table, s.place, s.queues, s.target, p, Running);
      QueueMove(s.queues, s.place, p, Running);
      SleepMove(s.asleep, s.left, s.stale, s.place, p, Running);
      RecvMove(s.target, s.place, s.queues, p, Running);
    }
  }

  lemma ShapeQueue(table: seq<int>, place: map<int, Place>, queues: map<int, seq<int>>, target: map<int, int>, d: int, q: seq<int>)
    requires Shape(table, place, queues, target) && d in queues
    ensures Shape(table, place, queues[d := q], target)
  {
    assert queues[d := q].Keys == queues.Keys;
  }

  lemma ShapeTarget(table: seq<int>, place: map<int, Place>, queues: map<int, seq<int>>, target: map<int, int>, r: int, t: int)
    requires Shape(table, place, queues, target) && r in place && (r == IDLE ==> t == IDLE)
    ensures Shape(table, place, queues, target[r := t])
  {
    assert target[r := t].Keys == target.Keys;
  }

  lemma MinusSub(queues: map<int, seq<int>>, place: map<int, Place>, d: int, p: int)
    requires QueueInv(queues, place) && d in queues
    ensures forall x :: x in Minus(queues[d], p) ==> x in queues[d]
    ensures queues[d] == [] ==> Minus(queues[d], p) == []
  {
    MinusIs(queues[d], p);
  }

  lemma CoreWithdraw(s: Sys, d: int, p: int)
    requires Core(s)
    ensures Core(Withdraw(s, d, p)) && Withdraw(s, d, p).place.Keys == s.place.Keys
    ensures p in Queue(s, d) ==> p in s.place && s.place[p] == SendingTo(d)
    ensures forall q :: q in s.place && (q != p || p !in Queue(s, d)) ==> Withdraw(s, d, p).place[q] == s.place[q]
  {
    hide Shape, ReadyInv, QueueInv, SleepInv, RecvInv, Minus;
    if p in Queue(s, d) {
      var q := Minus(s.queues[d], p);
      MinusSub(s.queues, s.place, d, p);
      QueueLeave(s.queues, s.place, d, p, Detached);
      NotIdle(s, p);
      ShapeQueue(s.table, s.place, s.queues, s.target, d, q);
      ShapeMove(s.table, s.place, s.queues[d := q], s.target, p, Detached);
      ReadyMove(s.ready, s.place, p, Detached);
      SleepMove(s.asleep, s.left, s.stale, s.place, p, Detached);
      RecvShrink(s.target, s.place, s.queues, d, q);
      RecvMove(s.target, s.place, s.queues[d := q], p, Detached);
    }
  }

  lemma SameMap(m: map<int, Place>, p: int)
    requires p in m
    ensures m[p := m[p]] == m
  {
  }

  lemma CoreStopReceiving(s: Sys, r: int)
    requires Core(s) && r in s.place && s.place[r] in {Idle, Running, Receiving, Detached}
    ensures Core(StopReceiving(s, r))
  {
    hide Shape, ReadyInv, QueueInv, SleepInv, RecvInv;
    NotIdle(s, r);
    ShapeTarget(s.table, s.place, s.queues, s.target, r, r);
    if r == IDLE {
      RecvEnd(s.target, s.place, s.queues, r, Idle);
      SameMap(s.place, r);
    } else {
      ShapeMove(s.table, s.place, s.queues, s.target[r := r], r, Detached);
      ReadyMove(s.ready, s.place, r, Detached);
      QueueMove(s.queues, s.place, r, Detached);
      SleepMove(s.asleep, s.left, s.stale, s.place, r, Detached);
      RecvEnd(s.target, s.place, s.queues, r, Detached);
    }
  }

  lemma Live(s: Sys, p: int)
    requires Core(s)
    ensures p in s.place <==> p in s.queues
    ensures p in s.place <==> p in s.target
    ensures p in s.place <==> p in s.table
  {
    hide ReadyInv, QueueInv, SleepInv, RecvInv;
  }

  lemma CoreBlockSend(s: Sys, d: int, p: int)
    requires Core(s) && d in s.place && p in s.place && p != d && s.place[p] in {Running, Detached}
    requires Target(s, d) != p && Target(s, d) != 0
    ensures Core(BlockSend(s, d, p))
  {
    hide Shape, ReadyInv, QueueInv, SleepInv, RecvInv;
    NotIdle(s, p);
    Live(s, d);
    var w := SendingTo(d);
    ShapeQueue(s.table, s.place, s.queues, s.target, d, s.queues[d] + [p]);
    ShapeMove(s.table, s.place, s.queues[d := s.queues[d] + [p]], s.target, p, w);
    ReadyMove(s.ready, s.place, p, w);
    QueueJoin(s.queues, s.place, d, p);
    SleepMove(s.asleep, s.left, s.stale, s.place, p, w);
    RecvGrow(s.target, s.place, s.queues, d, p);
    RecvMove(s.target, s.place, s.queues[d := s.queues[d] + [p]], p, w);
  }

  lemma CoreBlockRecv(s: Sys, p: int, from: int)
    requires Core(s) && p in s.place && s.place[p] in {Running, Detached} && from != p
    requires if from == 0 then Queue(s, p) == [] else from in s.place && from !in Queue(s, p)
    ensures Core(BlockRecv(s, p, from))
  {
    hide Shape, ReadyInv, QueueInv, SleepInv, RecvInv;
    NotIdle(s, p);
    Live(s, p);
    ShapeTarget(s.table, s.place, s.queues, s.target, p, from);
    ShapeMove(s.table, s.place, s.queues, s.target[p := from], p, Receiving);
    ReadyMove(s.ready, s.place, p, Receiving);
    QueueMove(s.queues, s.place, p, Receiving);
    SleepMove(s.asleep, s.left, s.stale, s.place, p, Receiving);
    RecvBegin(s.target, s.place, s.queues, p, from);
  }

  lemma CoreEax(s: Sys, p: int, v: int)
    requires Core(s)
    ensures Core(SetEax(s, p, v))
  {
    hide Shape, ReadyInv, QueueInv, SleepInv, RecvInv;
  }

  lemma CoreFallAsleep(s: Sys, p: int, t: int)
    requires Core(s) && p in s.place && s.place[p] in {Running, Detached}
    ensures Core(FallAsleep(s, p, t))
  {
    hide Shape, ReadyInv, QueueInv, SleepInv, RecvInv, Slot;
    NotIdle(s, p);
    ShapeMove(s.table, s.place, s.queues, s.target, p, Asleep);
    ReadyMove(s.ready, s.place, p, Asleep);
    QueueMove(s.queues, s.place, p, Asleep);
    SleepJoin(s.asleep, s.left, s.stale, s.place, p, t);
    RecvMove(s.target, s.place, s.queues, p, Asleep);
  }

  lemma CoreWake(s: Sys)
    requires Core(s) && s.asleep != []
    ensures Core(Wake(s)) && s.asleep[0] in s.place && s.place[s.asleep[0]] == Asleep
  {
    hide Shape, ReadyInv, QueueInv, SleepInv, RecvInv, MakeReady;
    var p := s.asleep[0];
    SleepLeave(s.asleep, s.left, s.stale, s.place, Detached, StaleAfter(s, p, s.asleep[1..]));
    NotIdle(s, p);
    ShapeMove(s.table, s.place, s.queues, s.target, p, Detached);
    ReadyMove(s.ready, s.place, p, Detached);
    QueueMove(s.queues, s.place, p, Detached);
    RecvMove(s.target, s.place, s.queues, p, Detached);
    var s1 := s.(asleep := s.asleep[1..], left := s.left - {p}, stale := StaleAfter(s, p, s.asleep[1..]), place := s.place[p := Detached]);
    CoreEax(s1, p, 0);
    CoreReady(SetEax(s1, p, 0), p);
  }

  lemma NoDupsWithout(q: seq<int>, k: nat)
    requires NoDups(q) && k < |q|
    ensures NoDups(Without(q, k)) && forall x :: x in Without(q, k) <==> x in q && x != q[k]
  {
    MinusAt(q, k);
    MinusIs(q, q[k]);
  }

  lemma SortedWithout(asleep: seq<int>, left: map<int, int>, k: nat)
    requires SleepSorted(asleep, left) && NoDups(asleep) && k < |asleep|
    ensures SleepSorted(Without(asleep, k), left - {asleep[k]})
  {
    var a := Without(asleep, k);
    var l := left - {asleep[k]};
    forall i | 0 <= i < |a|
      ensures a[i] in l && l[a[i]] == left[asleep[if i < k then i else i + 1]]
    {
      assert a[i] == asleep[if i < k then i else i + 1];
    }
  }

  lemma CoreRemoved(s: Sys, p: int)
    requires Core(s) && p in s.asleep && p in s.left
    ensures Core(Removed(s, p)) && p in s.place && s.place[p] == Asleep
  {
    hide Shape, ReadyInv, QueueInv, RecvInv;
    var k := Index(s.asleep, p);
    NoDupsWithout(s.asleep, k);
    SortedWithout(s.asleep, s.left, k);
    assert SleepInv(Removed(s, p).asleep, Removed(s, p).left, Removed(s, p).stale, Removed(s, p).place);
    NotIdle(s, p);
    ShapeMove(s.table, s.place, s.queues, s.target, p, Detached);
    ReadyMove(s.ready, s.place, p, Detached);
    QueueMove(s.queues, s.place, p, Detached);
    RecvMove(s.target, s.place, s.queues, p, Detached);
  }

  lemma CoreElapse(s: Sys)
    requires Core(s)
    ensures Core(Elapse(s))
  {
    hide Shape, ReadyInv, QueueInv, RecvInv;
    var l := Elapse(s).left;
    assert SleepSorted(s.asleep, l);
  }

  // ----- the arms

  /** Only these processes are running or on their way. */
  ghost predicate Only(place: map<int, Place>, ps: set<int>) {
    forall p :: p in place && place[p] in {Running, Detached} ==> p in ps
  }

  ghost predicate Positive(left: map<int, int>) {
    forall p :: p in left ==> left[p] > 0
  }

  /** Core, with only ps running or on their way. */
  ghost predicate Loose(s: Sys, ps: set<int>) {
    Core(s) && Only(s.place, ps) && Positive(s.left)
  }

  lemma InvLoose(s: Sys)
    requires Inv(s)
    ensures Loose(s, {s.cur}) && s.cur in s.place && (s.cur != IDLE ==> s.place[s.cur] == Running)
    ensures s.place[s.cur] in {Idle, Running} && (s.place[s.cur] == Idle ==> s.cur == IDLE)
    ensures s.cur == IDLE ==> Loose(s, {})
  {
    hide Core;
    if s.cur == IDLE {
      CoreIdle(s);
    }
  }

  lemma CoreIdle(s: Sys)
    requires Core(s)
    ensures IDLE in s.place && s.place[IDLE] == Idle
  {
    hide ReadyInv, QueueInv, SleepInv, RecvInv;
  }

  lemma LooseReady(s: Sys, p: int, ps: set<int>)
    requires Loose(s, ps) && p in s.place && s.place[p] in {Idle, Running, Detached} && (s.place[p] == Idle ==> p == IDLE)
    ensures Loose(MakeReady(s, p), ps - {p})
    ensures MakeReady(s, p).place.Keys == s.place.Keys && (p != IDLE ==> MakeReady(s, p).place[p] == Ready)
    ensures forall q :: q in s.place && q != p ==> MakeReady(s, p).place[q] == s.place[q]
  {
    CoreReady(s, p);
    hide Core;
    if p == IDLE {
      CoreIdle(s);
    }
  }

  lemma LooseEax(s: Sys, p: int, v: int, ps: set<int>)
    requires Loose(s, ps)
    ensures Loose(SetEax(s, p, v), ps)
  {
    hide Core;
    CoreEax(s, p, v);
  }

  lemma LooseWithdraw(s: Sys, d: int, p: int, ps: set<int>)
    requires Loose(s, ps)
    ensures var s' := Withdraw(s, d, p);
      && Loose(s', ps + {p}) && s'.place.Keys == s.place.Keys
      && (forall q :: q in s.place && q != p ==> s'.place[q] == s.place[q])
      && (p in Queue(s, d) ==> p in s.place && s'.place[p] == Detached)
      && (p !in Queue(s, d) ==> s' == s)
  {
    CoreWithdraw(s, d, p);
    hide Core;
  }

  lemma LooseStopReceiving(s: Sys, r: int, ps: set<int>)
    requires Loose(s, ps) && r in s.place && s.place[r] in {Idle, Running, Receiving, Detached}
    ensures var s' := StopReceiving(s, r);
      && Loose(s', ps + {r}) && s'.place.Keys == s.place.Keys
      && (forall q :: q in s.place && q != r ==> s'.place[q] == s.place[q])
      && s'.place[r] in {Idle, Detached} && (s'.place[r] == Idle ==> r == IDLE)
  {
    CoreStopReceiving(s, r);
    if r == IDLE {
      CoreIdle(s);
    }
    hide Core;
  }

  lemma LooseRendezvous(s: Sys, r: int, p: int, len: int, ps: set<int>)
    requires Loose(s, ps) && r in s.place && p in s.place && p != r && p != IDLE
    requires s.place[r] in {Idle, Running, Receiving, Detached} && (p in Queue(s, r) || s.place[p] in {Running, Detached})
    ensures var s' := Rendezvous(s, r, p, len);
      && Loose(s', ps - {p, r}) && s'.place.Keys == s.place.Keys
      && s'.place[p] == Ready && (r != IDLE ==> s'.place[r] == Ready)
      && (forall q :: q in s.place && q != p && q != r ==> s'.place[q] == s.place[q])
  {
    hide Loose, Withdraw, StopReceiving, MakeReady, Queue;
    LooseWithdraw(s, r, p, ps);
    var s1 := Withdraw(s, r, p);
    LooseStopReceiving(s1, r, ps + {p});
    var s2 := StopReceiving(s1, r);
    LooseEax(s2, r, len, ps + {p} + {r});
    var s3 := SetEax(s2, r, len);
    LooseEax(s3, p, len, ps + {p} + {r});
    var s4 := SetEax(s3, p, len);
    LooseReady(s4, p, ps + {p} + {r});
    var s5 := MakeReady(s4, p);
    LooseReady(s5, r, ps + {p} + {r} - {p});
    assert ps + {p} + {r} - {p} - {r} == ps - {p, r};
  }

  lemma LooseDispatch(s: Sys)
    requires Loose(s, {})
    ensures Inv(Dispatch(s))
  {
    CoreDispatch(s);
    CoreIdle(s);
    if s.ready != [] {
      NotIdle(s, s.ready[0]);
    }
    hide Core;
  }

  lemma LooseStay(s: Sys)
    requires Loose(s, {s.cur}) && s.cur in s.place && s.place[s.cur] == Running
    ensures Inv(s)
  {
    NotIdle(s, s.cur);
    hide Core;
  }

  /** Who is blocked in a receive is seen from target_of_recv. */
  lemma ReceiverIs(s: Sys, r: int)
    requires Core(s) && r in s.place
    ensures Target(s, r) != r <==> s.place[r] == Receiving
  {
    Live(s, r);
    hide Shape, ReadyInv, QueueInv, SleepInv, NoLostRendezvous;
  }

  lemma SenderIs(s: Sys, d: int, p: int)
    requires Core(s) && p in Queue(s, d)
    ensures p in s.place && s.place[p] == SendingTo(d) && p != d && p != IDLE
  {
    CoreWithdraw(s, d, p);
    NotIdle(s, p);
    hide Shape, ReadyInv, SleepInv, RecvInv;
  }

  lemma SendArm(s: Sys, dest: int, buffer: bool, len: int)
    requires Inv(s) && s.cur != IDLE
    ensures Loose(DoSend(s, dest, buffer, len), {})
  {
    hide Inv, Loose, Rendezvous, MakeReady, BlockSend, Target;
    var p := s.cur;
    InvLoose(s);
    LooseCore(s, {p});
    if dest == p || !buffer || dest !in s.place {
      RefuseArm(s, p, if dest == p then -2 else if !buffer then -3 else -1);
    } else if Target(s, dest) == p || Target(s, dest) == 0 {
      ReceiverIs(s, dest);
      CoreIdle(s);
      LooseRendezvous(s, dest, p, len, {p});
      assert {p} - {p, dest} == {};
      LooseEax(Rendezvous(s, dest, p, len), p, len, {});
    } else {
      LooseBlockSend(s, dest, p);
      LooseEax(BlockSend(s, dest, p), p, 0, {});
    }
  }

  lemma LooseCore(s: Sys, ps: set<int>)
    requires Loose(s, ps)
    ensures Core(s)
  {
  }

  lemma RefuseArm(s: Sys, p: int, code: int)
    requires Loose(s, {p}) && p in s.place && s.place[p] == Running
    ensures Loose(Refuse(s, p, code), {})
  {
    hide Loose, MakeReady;
    LooseReady(s, p, {p});
    assert {p} - {p} == {};
    LooseEax(MakeReady(s, p), p, code, {});
  }

  lemma LooseBlockSend(s: Sys, d: int, p: int)
    requires Loose(s, {p}) && d in s.place && p in s.place && p != d && s.place[p] == Running
    requires Target(s, d) != p && Target(s, d) != 0
    ensures Loose(BlockSend(s, d, p), {})
  {
    CoreBlockSend(s, d, p);
    hide Core;
  }

  lemma RecvArm(s: Sys, from: int, buffer: bool, len: int)
    requires Inv(s) && s.cur != IDLE
    ensures Loose(DoRecv(s, from, buffer, len), {})
  {
    hide Inv, Loose, Rendezvous, MakeReady, BlockRecv, Queue;
    var p := s.cur;
    InvLoose(s);
    LooseCore(s, {p});
    if from == p || !buffer || (from != 0 && from !in s.place) {
      RefuseArm(s, p, if from == p then -2 else if !buffer then -3 else -1);
    } else if (from == 0 && Queue(s, p) != []) || (from != 0 && from in Queue(s, p)) {
      var q := if from == 0 then Queue(s, p)[0] else from;
      SenderIs(s, p, q);
      LooseRendezvous(s, p, q, len, {p});
      assert {p} - {q, p} == {};
      LooseEax(Rendezvous(s, p, q, len), p, len, {});
    } else {
      LooseBlockRecv(s, p, from);
      LooseEax(BlockRecv(s, p, from), p, 0, {});
    }
  }

  lemma LooseBlockRecv(s: Sys, p: int, from: int)
    requires Loose(s, {p}) && p in s.place && s.place[p] == Running && from != p
    requires if from == 0 then Queue(s, p) == [] else from in s.place && from !in Queue(s, p)
    ensures Loose(BlockRecv(s, p, from), {})
  {
    CoreBlockRecv(s, p, from);
    hide Core;
  }

  lemma SleepArm(s: Sys, ms: nat)
    requires Inv(s) && s.cur != IDLE
    ensures Loose(DoSleep(s, ms), {})
  {
    hide Inv, Loose, MakeReady, FallAsleep;
    var p := s.cur;
    InvLoose(s);
    if ms == 0 {
      LooseEax(s, p, 0, {p});
      LooseReady(SetEax(s, p, 0), p, {p});
      assert {p} - {p} == {};
    } else {
      LooseFallAsleep(s, p, ms);
    }
  }

  lemma LooseFallAsleep(s: Sys, p: int, ms: nat)
    requires Loose(s, {p}) && p in s.place && s.place[p] == Running && ms > 0
    ensures Loose(FallAsleep(s, p, ms), {})
  {
    CoreFallAsleep(s, p, ms);
    hide Core;
  }

  lemma WakeKeeps(s: Sys, ps: set<int>)
    requires Core(s) && Only(s.place, ps) && s.asleep != []
    ensures Core(Wake(s)) && Only(Wake(s).place, ps)
  {
    CoreWake(s);
    hide Core;
  }

  lemma {:induction false} WakeDueKeeps(s: Sys, ps: set<int>)
    requires Core(s) && Only(s.place, ps)
    ensures Loose(WakeDue(s), ps)
    decreases |s.asleep|
  {
    hide Core, Wake;
    if Due(s) {
      WakeLength(s);
      WakeKeeps(s, ps);
      WakeDueKeeps(Wake(s), ps);
    } else {
      NotDue(s);
    }
  }

  lemma WakeLength(s: Sys)
    requires s.asleep != []
    ensures Wake(s).asleep == s.asleep[1..]
  {
  }

  lemma NotDue(s: Sys)
    requires Core(s) && !Due(s)
    ensures Positive(s.left)
  {
    hide Shape, ReadyInv, QueueInv, RecvInv;
    forall p | p in s.left
      ensures s.left[p] > 0
    {
      assert p in s.asleep;
      assert s.asleep[0] in s.left;
    }
  }

  lemma TickKeeps(s: Sys, ps: set<int>)
    requires Loose(s, ps)
    ensures Loose(Tick(s), ps)
  {
    hide Core, WakeDue;
    if s.asleep != [] {
      CoreElapse(s);
      WakeDueKeeps(Elapse(s), ps);
    }
  }

  lemma LooseFailSender(s: Sys, d: int, ps: set<int>)
    requires Loose(s, ps) && Queue(s, d) != []
    ensures var s' := FailSender(s, d);
      && Loose(s', ps) && s'.place.Keys == s.place.Keys && s'.target == s.target && s'.table == s.table
      && (forall q :: q in s.place && !s.place[q].SendingTo? ==> s'.place[q] == s.place[q])
      && |Queue(s', d)| < |Queue(s, d)|
  {
    hide Loose, Withdraw, MakeReady, Queue;
    var p := Queue(s, d)[0];
    LooseCore(s, ps);
    SenderIs(s, d, p);
    LooseWithdraw(s, d, p, ps);
    var s1 := Withdraw(s, d, p);
    LooseEax(s1, p, -1, ps + {p});
    LooseReady(SetEax(s1, p, -1), p, ps + {p});
    LooseLess(FailSender(s, d), ps, p);
    FailSenderFields(s, d);
  }

  lemma LooseLess(s: Sys, ps: set<int>, p: int)
    requires Loose(s, ps + {p} - {p})
    ensures Loose(s, ps)
  {
    hide Core;
  }

  lemma FailSenderFields(s: Sys, d: int)
    requires Queue(s, d) != []
    ensures var s' := FailSender(s, d); s'.target == s.target && s'.table == s.table && Queue(s', d) == Queue(s, d)[1..]
  {
  }

  lemma {:induction false} LooseFailSenders(s: Sys, d: int, ps: set<int>)
    requires Loose(s, ps)
    ensures var s' := FailSenders(s, d);
      && Loose(s', ps) && s'.place.Keys == s.place.Keys && s'.target == s.target && s'.table == s.table
      && (forall q :: q in s.place && !s.place[q].SendingTo? ==> s'.place[q] == s.place[q])
      && Queue(s', d) == []
    decreases |Queue(s, d)|
  {
    hide Loose, FailSender, Queue;
    if Queue(s, d) == [] {
    } else {
      LooseFailSender(s, d, ps);
      LooseFailSenders(FailSender(s, d), d, ps);
    }
  }

  lemma RecversAre(table: seq<int>, target: map<int, int>, p: int)
    requires NoDups(table)
    ensures NoDups(Recvers(table, target, p))
    ensures forall r :: r in Recvers(table, target, p) <==> r in table && r in target && target[r] == p && r != p
  {
    if table == [] {
    } else {
      NoDupsPop(table);
      RecversAre(table[1..], target, p);
      NoDupsPush(table[0], Recvers(table[1..], target, p));
    }
  }

  lemma LooseFailRecver(s: Sys, r: int, ps: set<int>)
    requires Loose(s, ps) && r in s.place && s.place[r] == Receiving
    ensures var s' := FailRecver(s, r);
      && Loose(s', ps) && s'.place.Keys == s.place.Keys && s'.table == s.table && s'.queues == s.queues
      && s'.target == s.target[r := r]
      && (forall q :: q in s.place && q != r ==> s'.place[q] == s.place[q])
  {
    hide Loose, MakeReady, StopReceiving;
    LooseStopReceiving(s, r, ps);
    var s1 := StopReceiving(s, r);
    LooseEax(s1, r, -1, ps + {r});
    LooseReady(SetEax(s1, r, -1), r, ps + {r});
    LooseLess(FailRecver(s, r), ps, r);
    FailRecverFields(s, r);
  }

  lemma FailRecverFields(s: Sys, r: int)
    ensures var s' := FailRecver(s, r); s'.target == s.target[r := r] && s'.table == s.table && s'.queues == s.queues
  {
  }

  lemma {:induction false} LooseFailAll(s: Sys, rs: seq<int>, ps: set<int>)
    requires Loose(s, ps) && NoDups(rs) && forall r :: r in rs ==> r in s.place && s.place[r] == Receiving
    ensures var s' := FailAll(s, rs);
      && Loose(s', ps) && s'.place.Keys == s.place.Keys && s'.table == s.table && s'.queues == s.queues
      && (forall q :: q in s.target ==> q in s'.target && s'.target[q] == if q in rs then q else s.target[q])
      && (forall q :: q in s.place && q !in rs ==> s'.place[q] == s.place[q])
    decreases rs
  {
    hide Loose, FailRecver;
    if rs == [] {
    } else {
      NoDupsPop(rs);
      LooseFailRecver(s, rs[0], ps);
      LooseFailAll(FailRecver(s, rs[0]), rs[1..], ps);
    }
  }

  lemma CoreRecvers(s: Sys, p: int)
    requires Core(s)
    ensures var rs := Recvers(s.table, s.target, p);
      && NoDups(rs) && (forall r :: r in rs ==> r in s.place && s.place[r] == Receiving)
      && (forall r :: r in s.target && r !in rs && r != p ==> s.target[r] != p)
  {
    hide ReadyInv, QueueInv, SleepInv, NoLostRendezvous;
    RecversAre(s.table, s.target, p);
  }

  /** Nobody sends to p and nobody receives from p, except p itself. */
  ghost predicate Forsaken(s: Sys, p: int) {
    && Queue(s, p) == []
    && forall r :: r in s.target && r != p ==> s.target[r] != p
  }

  lemma LooseFailRecvers(s: Sys, p: int, ps: set<int>)
    requires Loose(s, ps) && Queue(s, p) == []
    ensures var s' := FailRecvers(s, p);
      && Loose(s', ps) && s'.place.Keys == s.place.Keys && Forsaken(s', p)
      && (forall q :: q in s.place && s.place[q] != Receiving ==> s'.place[q] == s.place[q])
  {
    LooseCore(s, ps);
    hide Loose, FailAll, Recvers;
    CoreRecvers(s, p);
    var rs := Recvers(s.table, s.target, p);
    LooseFailAll(s, rs, ps);
    var s' := FailRecvers(s, p);
    LooseCore(s', ps);
    forall r | r in s'.target && r != p
      ensures s'.target[r] != p
    {
      Live(s', r);
      Live(s, r);
    }
  }

  lemma ShapeRemove(s: Sys, p: int)
    requires Shape(s.table, s.place, s.queues, s.target) && p != IDLE
    ensures Shape(Minus(s.table, p), s.place - {p}, s.queues - {p}, s.target - {p})
  {
    MinusIs(s.table, p);
  }

  lemma QueueRemove(queues: map<int, seq<int>>, place: map<int, Place>, p: int)
    requires QueueInv(queues, place) && (p in queues ==> queues[p] == [])
    requires p in place ==> !place[p].SendingTo?
    ensures QueueInv(queues - {p}, place - {p})
  {
    var queues' := queues - {p};
    var place' := place - {p};
    forall d, x | d in queues'
      ensures x in queues'[d] <==> x in place' && place'[x] == SendingTo(d)
    {
      assert x in queues[d] <==> x in place && place[x] == SendingTo(d);
    }
    forall x | x in place' && place'[x].SendingTo?
      ensures place'[x].dest in queues' && place'[x].dest != x
    {
      var d := place[x].dest;
      assert d in queues && x in queues[d];
    }
  }

  lemma RecvRemove(target: map<int, int>, place: map<int, Place>, queues: map<int, seq<int>>, p: int)
    requires RecvInv(target, place, queues) && p != 0 && forall r :: r in target && r != p ==> target[r] != p
    ensures RecvInv(target - {p}, place - {p}, queues - {p})
  {
  }

  lemma ReadyRemove(ready: seq<int>, place: map<int, Place>, p: int)
    requires ReadyInv(ready, place) && p in place && place[p] != Ready
    ensures ReadyInv(ready, place - {p})
  {
  }

  lemma SleepRemove(asleep: seq<int>, left: map<int, int>, stale: int, place: map<int, Place>, p: int)
    requires SleepInv(asleep, left, stale, place) && p in place && place[p] != Asleep
    ensures SleepInv(asleep, left, stale, place - {p})
  {
  }

  lemma CoreRemove(s: Sys, p: int)
    requires Core(s) && p in s.place && s.place[p] in {Running, Detached} && p != IDLE && Forsaken(s, p)
    ensures Core(Remove(s, p))
  {
    hide Shape, ReadyInv, QueueInv, SleepInv, RecvInv, Minus;
    Live(s, p);
    ShapeRemove(s, p);
    ReadyRemove(s.ready, s.place, p);
    QueueRemove(s.queues, s.place, p);
    SleepRemove(s.asleep, s.left, s.stale, s.place, p);
    RecvRemove(s.target, s.place, s.queues, p);
  }

  lemma LooseRemove(s: Sys, p: int)
    requires Loose(s, {p}) && p in s.place && s.place[p] in {Running, Detached} && p != IDLE && Forsaken(s, p)
    ensures Loose(Remove(s, p), {})
  {
    CoreRemove(s, p);
    hide Core, Forsaken, Minus;
  }

  lemma StopArm(s: Sys)
    requires Inv(s) && s.cur != IDLE
    ensures Loose(DoStop(s), {})
  {
    hide Inv, Loose, FailSenders, FailRecvers, Remove, Queue, Forsaken;
    var p := s.cur;
    InvLoose(s);
    LooseFailSenders(s, p, {p});
    var s1 := FailSenders(s, p);
    LooseFailRecvers(s1, p, {p});
    LooseRemove(FailRecvers(s1, p), p);
  }

  lemma ShapeAdd(s: Sys, pid: int, slot: nat)
    requires Shape(s.table, s.place, s.queues, s.target) && pid > 0 && pid !in s.place && slot <= |s.table|
    ensures Shape(Inserted(s.table, slot, pid), s.place[pid := Detached], s.queues[pid := []], s.target[pid := pid])
  {
    NoDupsInsert(s.table, slot, pid);
  }

  lemma QueueAdd(queues: map<int, seq<int>>, place: map<int, Place>, p: int)
    requires QueueInv(queues, place) && p !in place && p !in queues
    ensures QueueInv(queues[p := []], place[p := Detached])
  {
    var queues' := queues[p := []];
    var place' := place[p := Detached];
    forall d, x | d in queues'
      ensures x in queues'[d] <==> x in place' && place'[x] == SendingTo(d)
    {
      if d != p {
        assert x in queues[d] <==> x in place && place[x] == SendingTo(d);
      }
    }
  }

  lemma RecvAdd(target: map<int, int>, place: map<int, Place>, queues: map<int, seq<int>>, p: int)
    requires RecvInv(target, place, queues) && p !in place && p !in target && p !in queues
    ensures RecvInv(target[p := p], place[p := Detached], queues[p := []])
  {
  }

  lemma CoreAdd(s: Sys, pid: int, slot: nat)
    requires Core(s) && pid > 0 && pid !in s.place && slot <= |s.table|
    ensures Core(s.(table := Inserted(s.table, slot, pid), place := s.place[pid := Detached],
                    queues := s.queues[pid := []], target := s.target[pid := pid]))
  {
    Live(s, pid);
    ShapeAdd(s, pid, slot);
    QueueAdd(s.queues, s.place, pid);
    RecvAdd(s.target, s.place, s.queues, pid);
    hide Shape, QueueInv, RecvInv;
  }

  lemma LooseAdd(s: Sys, pid: int, slot: nat, ps: set<int>)
    requires Loose(s, ps) && pid > 0 && pid !in s.place && slot <= |s.table|
    ensures Loose(s.(table := Inserted(s.table, slot, pid), place := s.place[pid := Detached],
                     queues := s.queues[pid := []], target := s.target[pid := pid]), ps + {pid})
  {
    CoreAdd(s, pid, slot);
    hide Core;
  }

  lemma CreateArm(s: Sys, pid: int, slot: nat)
    requires Inv(s) && Enabled(s, Create(pid, slot))
    ensures Inv(DoCreate(s, pid, slot))
  {
    hide Inv, Loose, MakeReady;
    InvLoose(s);
    LooseAdd(s, pid, slot, {s.cur});
    var s1 := s.(table := Inserted(s.table, slot, pid), place := s.place[pid := Detached],
                 queues := s.queues[pid := []], target := s.target[pid := pid]);
    LooseReady(s1, pid, {s.cur} + {pid});
    LooseLess(MakeReady(s1, pid), {s.cur}, pid);
    LooseEax(MakeReady(s1, pid), s.cur, pid, {s.cur});
    MakeReadyCur(s1, pid);
    LooseStay(DoCreate(s, pid, slot));
  }

  lemma MakeReadyCur(s: Sys, p: int)
    ensures MakeReady(s, p).cur == s.cur
  {
  }

  lemma ReadyArm(s: Sys, s': Sys)
    requires Inv(s) && Loose(s', {s.cur}) && s'.place.Keys == s.place.Keys && s'.place[s.cur] == s.place[s.cur]
    ensures Inv(Dispatch(MakeReady(s', s.cur)))
  {
    hide Inv, Loose, MakeReady, Dispatch;
    InvLoose(s);
    LooseReady(s', s.cur, {s.cur});
    assert {s.cur} - {s.cur} == {};
    LooseDispatch(MakeReady(s', s.cur));
  }

  lemma WakeFields(s: Sys)
    requires Core(s) && s.asleep != []
    ensures Wake(s).cur == s.cur && Wake(s).place.Keys == s.place.Keys
    ensures forall q :: q in s.place && s.place[q] != Asleep ==> Wake(s).place[q] == s.place[q]
  {
    CoreWake(s);
    hide Core;
  }

  lemma {:induction false} WakeDueFields(s: Sys)
    requires Core(s)
    ensures WakeDue(s).cur == s.cur && WakeDue(s).place.Keys == s.place.Keys
    ensures forall q :: q in s.place && s.place[q] != Asleep ==> WakeDue(s).place[q] == s.place[q]
    decreases |s.asleep|
  {
    hide Core, Wake;
    if !Due(s) {
    } else {
      WakeLength(s);
      CoreWake(s);
      WakeFields(s);
      WakeDueFields(Wake(s));
    }
  }

  lemma TimerArm(s: Sys)
    requires Inv(s)
    ensures Inv(Step(s, Timer))
  {
    hide Inv, Loose, WakeDue, MakeReady, Dispatch;
    InvLoose(s);
    LooseCore(s, {s.cur});
    TickKeeps(s, {s.cur});
    if s.asleep != [] {
      CoreElapse(s);
      WakeDueFields(Elapse(s));
    }
    ReadyArm(s, Tick(s));
    TickCur(s);
  }

  lemma TickCur(s: Sys)
    requires Core(s)
    ensures Tick(s).cur == s.cur
  {
    if s.asleep != [] {
      CoreElapse(s);
      WakeDueFields(Elapse(s));
    }
  }

  // ----- a signal for a sleeper

  lemma RemovedPlace(s: Sys, p: int)
    requires Core(s) && p in s.asleep && p in s.left
    ensures var s' := Removed(s, p);
      && Core(s') && s'.cur == s.cur && s'.place == s.place[p := Detached] && s'.left == s.left - {p}
      && p in s.place && s.place[p] == Asleep && p != IDLE
  {
    CoreRemoved(s, p);
    NotIdle(s, p);
    hide Core, Without, Index, Base;
  }

  lemma LooseRemoved(s: Sys, p: int, ps: set<int>)
    requires Loose(s, ps) && p in s.asleep && p in s.left
    ensures Loose(Removed(s, p), ps + {p})
  {
    LooseCore(s, ps);
    RemovedPlace(s, p);
    hide Core, Removed;
  }

  lemma KillArm(s: Sys, p: int)
    requires Inv(s) && s.cur != IDLE && p in s.asleep && p in s.left
    ensures Inv(DoKill(s, p))
  {
    hide Inv, Loose, MakeReady, Removed;
    InvLoose(s);
    LooseCore(s, {s.cur});
    RemovedPlace(s, p);
    LooseRemoved(s, p, {s.cur});
    var s1 := Removed(s, p);
    LooseReady(s1, p, {s.cur} + {p});
    LooseLess(MakeReady(s1, p), {s.cur}, p);
    LooseEax(MakeReady(s1, p), s.cur, 0, {s.cur});
    MakeReadyCur(s1, p);
    LooseStay(DoKill(s, p));
  }

  // ----- whole runs

  lemma StepKeeps(s: Sys, r: Request)
    requires Inv(s) && Enabled(s, r)
    ensures Inv(Step(s, r))
  {
    hide Inv, Loose, Dispatch, MakeReady, DoSend, DoRecv, DoSleep, DoStop, DoCreate, Tick;
    match r
    case Create(pid, slot) => CreateArm(s, pid, slot);
    case Yield => InvLoose(s); ReadyArm(s, s);
    case Stop => StopArm(s); LooseDispatch(DoStop(s));
    case Timer => TimerArm(s);
    case Send(dest, buffer, len) => SendArm(s, dest, buffer, len); LooseDispatch(DoSend(s, dest, buffer, len));
    case Recv(from, buffer, len) => RecvArm(s, from, buffer, len); LooseDispatch(DoRecv(s, from, buffer, len));
    case Sleep(ms) => SleepArm(s, ms); LooseDispatch(DoSleep(s, ms));
    case Kill(pid) => KillArm(s, pid);
  }

  /** The idle and the root process, the root process running. */
  function Boot(root: int, clears: bool): Sys {
    Sys(root, [IDLE, root], map[IDLE := Idle, root := Running], [], map[IDLE := [], root := []],
        map[IDLE := IDLE, root := root], map[], [], map[], NULL, clears)
  }

  lemma BootQueues(root: int, place: map<int, Place>)
    requires root > 0 && place == map[IDLE := Idle, root := Running]
    ensures QueueInv(map[IDLE := [], root := []], place)
    ensures RecvInv(map[IDLE := IDLE, root := root], place, map[IDLE := [], root := []])
  {
  }

  lemma BootShape(root: int, place: map<int, Place>)
    requires root > 0 && place == map[IDLE := Idle, root := Running]
    ensures Shape([IDLE, root], place, map[IDLE := [], root := []], map[IDLE := IDLE, root := root])
    ensures ReadyInv([], place) && SleepInv([], map[], NULL, place)
  {
    var queues: map<int, seq<int>> := map[IDLE := [], root := []];
    assert queues.Keys == {IDLE, root} && place.Keys == {IDLE, root} && map[IDLE := IDLE, root := root].Keys == {IDLE, root};
  }

  lemma BootInv(root: int, clears: bool)
    requires root > 0
    ensures Inv(Boot(root, clears))
  {
    hide Shape, ReadyInv, QueueInv, SleepInv, RecvInv;
    BootQueues(root, Boot(root, clears).place);
    BootShape(root, Boot(root, clears).place);
  }

  predicate CanRun(s: Sys, rs: seq<Request>)
    decreases |rs|
  {
    rs == [] || (Enabled(s, rs[0]) && CanRun(Step(s, rs[0]), rs[1..]))
  }

  function Run(s: Sys, rs: seq<Request>): Sys
    requires CanRun(s, rs)
    decreases |rs|
  {
    if rs == [] then s else Run(Step(s, rs[0]), rs[1..])
  }

  lemma {:induction false} RunKeeps(s: Sys, rs: seq<Request>)
    requires Inv(s) && CanRun(s, rs)
    ensures Inv(Run(s, rs))
    decreases |rs|
  {
    hide Inv, Step, Enabled;
    if rs == [] {
    } else {
      StepKeeps(s, rs[0]);
      RunKeeps(Step(s, rs[0]), rs[1..]);
    }
  }

  /** In every reachable state. */
  lemma Reachable(root: int, clears: bool, rs: seq<Request>)
    requires root > 0 && CanRun(Boot(root, clears), rs)
    ensures Inv(Run(Boot(root, clears), rs))
  {
    hide Inv;
    BootInv(root, clears);
    RunKeeps(Boot(root, clears), rs);
  }
}
