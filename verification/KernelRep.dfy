// How the pointers of the process control blocks hold the queues of KernelSpec: the ready queue,
// the queue of senders of every process, and who is in none of them.
module KernelRep {
  import opened Links
  import opened KernelSpec
  import opened KernelInv

  const READY: int := 10
  const RUNNING: int := 11
  const BLOCKED: int := 12
  const SLEEPING: int := 13

  /** The fields of the process control blocks. */
  datatype Pcbs = Pcbs(
    next: Field, prev: Field, state: Field, eax: Field, senderQueue: Field, targetOfRecv: Field, sleep: SleepFields)

  /** sleepNext, sleepPrev and sleepTime */
  datatype SleepFields = SleepFields(next: Field, prev: Field, time: Field)

  ghost predicate RepReady(next: Field, prev: Field, readyQueue: int, ready: seq<int>) {
    Linked(next, readyQueue, ready) && BackLinked(prev, ready)
  }

  ghost predicate RepQueues(next: Field, senderQueue: Field, queues: map<int, seq<int>>) {
    && senderQueue.Keys == queues.Keys
    && forall d :: d in queues ==> Linked(next, senderQueue[d], queues[d])
  }

  /** A process in no list leads nowhere. */
  ghost predicate RepFree(next: Field, place: map<int, Place>) {
    && next.Keys == place.Keys
    && forall p :: p in place && place[p] != Ready && !place[p].SendingTo? ==> next[p] == NULL
  }

  ghost predicate RepBack(sleepPrev: Field, place: map<int, Place>) {
    && sleepPrev.Keys == place.Keys
    && forall p :: p in place && place[p] != Asleep ==> sleepPrev[p] == NULL
  }

  function StateOf(w: Place): int {
    match w
    case Running => RUNNING
    case Ready => READY
    case Asleep => SLEEPING
    case _ => BLOCKED
  }

  ghost predicate RepState(state: Field, place: map<int, Place>) {
    && state.Keys == place.Keys
    && forall p :: p in place && place[p] != Idle && place[p] != Detached ==> state[p] == StateOf(place[p])
  }

  /** The numbers in the state field. */
  lemma StateNumbers(state: Field, place: map<int, Place>, p: int)
    requires RepState(state, place) && p in place && place[p] != Idle && place[p] != Detached
    ensures p in state && (state[p] == 10 <==> place[p] == Ready) && (state[p] == 11 <==> place[p] == Running)
    ensures (state[p] == 12 <==> place[p].Receiving? || place[p].SendingTo?) && (state[p] == 13 <==> place[p] == Asleep)
  {
  }

  /** Each sleeper holds what it sleeps longer than the one before it. */
  ghost predicate Deltas(sleepTime: Field, asleep: seq<int>, left: map<int, int>) {
    && (forall i :: 0 <= i < |asleep| ==> asleep[i] in sleepTime && asleep[i] in left)
    && (asleep != [] ==> sleepTime[asleep[0]] == left[asleep[0]])
    && (forall i, j :: 0 <= i && j == i + 1 && j < |asleep| ==> sleepTime[asleep[j]] == left[asleep[j]] - left[asleep[i]])
  }

  /** Sleepers are linked both ways; the first points back to stale, which should be NULL. */
  ghost predicate RepSleep(sleepNext: Field, sleepPrev: Field, sleepTime: Field, sleepList: int,
                           asleep: seq<int>, left: map<int, int>, stale: int) {
    && Linked(sleepNext, sleepList, asleep)
    && BackLinked(sleepPrev, asleep)
    && Deltas(sleepTime, asleep, left)
    && (asleep != [] ==> sleepPrev[asleep[0]] == stale)
  }

  // ----- changes to next

  lemma QueuesSkip(next: Field, senderQueue: Field, queues: map<int, seq<int>>, place: map<int, Place>, x: int, v: int)
    requires RepQueues(next, senderQueue, queues) && QueueInv(queues, place)
    requires x in place && !place[x].SendingTo?
    ensures RepQueues(next[x := v], senderQueue, queues)
  {
    hide Linked;
    forall d | d in queues
      ensures Linked(next[x := v], senderQueue[d], queues[d])
    {
      assert x !in queues[d];
      Members(next, senderQueue[d], queues[d]);
      Frame(next, next[x := v], senderQueue[d], queues[d]);
    }
  }

  lemma Members(next: Field, head: int, s: seq<int>)
    requires Linked(next, head, s)
    ensures forall p :: p in s ==> p in next
  {
  }

  lemma ReadySkip(next: Field, prev: Field, readyQueue: int, ready: seq<int>, x: int, v: int)
    requires RepReady(next, prev, readyQueue, ready) && x !in ready
    ensures RepReady(next[x := v], prev, readyQueue, ready)
  {
    Members(next, readyQueue, ready);
    Frame(next, next[x := v], readyQueue, ready);
  }

  lemma ReadyPrevSkip(next: Field, prev: Field, readyQueue: int, ready: seq<int>, x: int, v: int)
    requires RepReady(next, prev, readyQueue, ready) && x !in ready
    ensures RepReady(next, prev[x := v], readyQueue, ready)
  {
    BackFrame(prev, prev[x := v], ready);
  }

  lemma ReadyFirst(next: Field, prev: Field, p: int)
    requires p in next && p in prev && p != NULL
    ensures RepReady(next[p := NULL], prev[p := NULL], p, [p])
  {
    Single(next[p := NULL], p);
  }

  lemma ReadyAppend(next: Field, prev: Field, readyQueue: int, ready: seq<int>, p: int)
    requires RepReady(next, prev, readyQueue, ready) && ready != [] && p !in ready && p in next && p in prev && p != NULL
    ensures RepReady(next[Last(ready) := p][p := NULL], prev[p := Last(ready)], readyQueue, ready + [p])
  {
    Append(next, readyQueue, ready, p);
    BackAppend(prev, ready, p);
  }

  lemma ReadyPop(next: Field, prev: Field, readyQueue: int, ready: seq<int>)
    requires RepReady(next, prev, readyQueue, ready) && ready != []
    ensures readyQueue == ready[0] && readyQueue in next
    ensures RepReady(next[readyQueue := NULL], prev[readyQueue := NULL], next[readyQueue], ready[1..])
    ensures next[readyQueue] != NULL <==> ready[1..] != []
    ensures next[readyQueue] != NULL ==> next[readyQueue] == ready[1]
    ensures RepReady(next[readyQueue := NULL], prev[next[readyQueue] := NULL][readyQueue := NULL], next[readyQueue], ready[1..])
  {
    Pop(next, readyQueue, ready);
    HeadOf(next[readyQueue := NULL], next[readyQueue], ready[1..]);
    BackPop(prev, ready, NULL);
    var q := next[readyQueue];
    var b := prev[q := NULL][readyQueue := NULL];
    var t := ready[1..];
    forall i, j | 0 <= i && j == i + 1 && j < |t|
      ensures b[t[j]] == t[i]
    {
      assert prev[ready[0] := NULL][t[j]] == t[i];
      assert t[j] != q && t[j] != ready[0];
    }
  }

  lemma FreeMove(next: Field, place: map<int, Place>, p: int, w: Place)
    requires RepFree(next, place) && p in place && (w == Ready || w.SendingTo? || next[p] == NULL)
    ensures RepFree(next, place[p := w])
  {
  }

  /** The links of blocks in a list may change. */
  lemma FreeLink(next: Field, place: map<int, Place>, x: int, v: int)
    requires RepFree(next, place) && x in place && (v == NULL || place[x] == Ready || place[x].SendingTo?)
    ensures RepFree(next[x := v], place)
  {
    assert next[x := v].Keys == next.Keys;
  }

  lemma FreeIs(next: Field, place: map<int, Place>, p: int)
    requires RepFree(next, place) && p in place
    ensures p in next
    ensures place[p] != Ready && !place[p].SendingTo? ==> next[p] == NULL
  {
  }

  lemma BackMove(sleepPrev: Field, place: map<int, Place>, p: int, w: Place)
    requires RepBack(sleepPrev, place) && p in place && (place[p] != Asleep || w == Asleep)
    ensures RepBack(sleepPrev, place[p := w])
  {
  }

  lemma StateMove(state: Field, place: map<int, Place>, p: int, w: Place)
    requires RepState(state, place) && p in place
    ensures RepState(state[p := StateOf(w)], place[p := w])
    ensures RepState(state, place[p := Detached])
  {
    assert state[p := StateOf(w)].Keys == state.Keys;
  }

  lemma QueueHead(next: Field, senderQueue: Field, queues: map<int, seq<int>>, d: int)
    requires RepQueues(next, senderQueue, queues) && d in queues
    ensures d in senderQueue && Linked(next, senderQueue[d], queues[d])
  {
  }

  /** The queue of d changes, and with it the links of its own blocks only. */
  lemma QueuesChange(next: Field, next': Field, senderQueue: Field, queues: map<int, seq<int>>, place: map<int, Place>, d: int, head: int, q: seq<int>)
    requires RepQueues(next, senderQueue, queues) && QueueInv(queues, place) && d in queues
    requires Linked(next', head, q)
    requires forall x :: x in next && !(x in place && place[x] == SendingTo(d)) && !(x in q) ==> x in next' && next'[x] == next[x]
    requires forall x :: x in q ==> x in queues[d] || !(x in place && place[x].SendingTo?)
    ensures RepQueues(next', senderQueue[d := head], queues[d := q])
  {
    hide Linked;
    forall e | e in queues && e != d
      ensures Linked(next', senderQueue[e], queues[e])
    {
      Members(next, senderQueue[e], queues[e]);
      forall x | x in queues[e]
        ensures x in next' && next'[x] == next[x]
      {
        assert place[x] == SendingTo(e);
        assert x !in queues[d];
      }
      Frame(next, next', senderQueue[e], queues[e]);
    }
    assert senderQueue[d := head].Keys == queues[d := q].Keys;
  }

  // ----- what the primitive changes do to the pointers

  /** The pointers of the ready queue and of the sender queues, and the state fields. */
  ghost predicate RepAll(s: Sys, b: Pcbs, readyQueue: int) {
    && RepReady(b.next, b.prev, readyQueue, s.ready)
    && RepQueues(b.next, b.senderQueue, s.queues)
    && RepFree(b.next, s.place)
    && RepState(b.state, s.place)
    && b.prev.Keys == s.place.Keys
    && Core(s)
  }

  lemma CoreFacts(s: Sys, p: int)
    requires Core(s) && p in s.place
    ensures p != NULL && (p in s.ready <==> s.place[p] == Ready)
    ensures p in s.queues && p in s.target
  {
    hide QueueInv, SleepInv, RecvInv, NoDups;
  }

  lemma CoreQueueInv(s: Sys)
    requires Core(s)
    ensures QueueInv(s.queues, s.place)
  {
  }

  lemma ReadyFacts(s: Sys, b: Pcbs, readyQueue: int)
    requires RepAll(s, b, readyQueue)
    ensures readyQueue == NULL <==> s.ready == []
    ensures s.ready != [] ==> readyQueue == s.ready[0] && readyQueue in b.next && readyQueue in s.place && readyQueue in b.prev
  {
    hide Core, Linked, BackLinked, RepQueues, RepState;
    HeadOf(b.next, readyQueue, s.ready);
  }

  lemma ReadyLists(s: Sys, b: Pcbs, readyQueue: int)
    requires RepAll(s, b, readyQueue)
    ensures RepReady(b.next, b.prev, readyQueue, s.ready)
  {
  }

  /** ready() puts the first process into an empty queue. */
  lemma ReadyEmpty(s: Sys, b: Pcbs, readyQueue: int, p: int)
    requires RepAll(s, b, readyQueue) && s.ready == []
    requires p in s.place && s.place[p] in {Running, Detached} && p != IDLE
    ensures RepAll(MakeReady(s, p), b.(next := b.next[p := NULL], prev := b.prev[p := NULL], state := b.state[p := READY]), p)
  {
    hide Core, Linked, BackLinked, RepReady, RepQueues, RepFree, RepState;
    CoreFacts(s, p);
    CoreQueueInv(s);
    CoreReady(s, p);
    FreeIs(b.next, s.place, p);
    ReadyFirst(b.next, b.prev, p);
    assert s.ready + [p] == [p];
    QueuesSkip(b.next, b.senderQueue, s.queues, s.place, p, NULL);
    FreeLink(b.next, s.place, p, NULL);
    FreeMove(b.next[p := NULL], s.place, p, Ready);
    StateMove(b.state, s.place, p, Ready);
  }

  /** ready() puts a process behind the last one. */
  lemma ReadyBehind(s: Sys, b: Pcbs, readyQueue: int, p: int)
    requires RepAll(s, b, readyQueue) && s.ready != []
    requires p in s.place && s.place[p] in {Running, Detached} && p != IDLE
    ensures RepAll(MakeReady(s, p), b.(next := b.next[Last(s.ready) := p][p := NULL], prev := b.prev[p := Last(s.ready)], state := b.state[p := READY]), readyQueue)
  {
    hide Core, Linked, BackLinked, RepReady, RepQueues, RepFree, RepState;
    var l := Last(s.ready);
    CoreFacts(s, p);
    CoreQueueInv(s);
    CoreReady(s, p);
    FreeIs(b.next, s.place, p);
    assert l in s.ready;
    ReadyIn(s, l);
    ReadyAppend(b.next, b.prev, readyQueue, s.ready, p);
    QueuesSkip(b.next, b.senderQueue, s.queues, s.place, l, p);
    QueuesSkip(b.next[l := p], b.senderQueue, s.queues, s.place, p, NULL);
    FreeLink(b.next, s.place, l, p);
    FreeLink(b.next[l := p], s.place, p, NULL);
    FreeMove(b.next[l := p][p := NULL], s.place, p, Ready);
    StateMove(b.state, s.place, p, Ready);
  }

  lemma ReadyIn(s: Sys, p: int)
    requires Core(s) && p in s.ready
    ensures p in s.place && s.place[p] == Ready
  {
    hide QueueInv, SleepInv, RecvInv, NoDups;
  }

  /** next() takes the first. */
  lemma DispatchFirst(s: Sys, b: Pcbs, readyQueue: int, prev': Field)
    requires RepAll(s, b, readyQueue) && s.ready != []
    requires readyQueue in b.next
    requires prev' == if b.next[readyQueue] != NULL then b.prev[b.next[readyQueue] := NULL][readyQueue := NULL] else b.prev[readyQueue := NULL]
    ensures RepAll(Dispatch(s), b.(next := b.next[readyQueue := NULL], prev := prev', state := b.state[readyQueue := RUNNING]), b.next[readyQueue])
    ensures readyQueue == s.ready[0]
  {
    hide Core, Linked, BackLinked, RepReady, RepQueues, RepFree, RepState;
    var p := readyQueue;
    ReadyPop(b.next, b.prev, readyQueue, s.ready);
    ReadyIn(s, p);
    CoreQueueInv(s);
    CoreDispatch(s);
    QueuesSkip(b.next, b.senderQueue, s.queues, s.place, p, NULL);
    FreeLink(b.next, s.place, p, NULL);
    FreeMove(b.next[p := NULL], s.place, p, Running);
    StateMove(b.state, s.place, p, Running);
    if b.next[p] != NULL {
      assert s.ready[1] in s.ready;
      ReadyIn(s, b.next[p]);
    }
  }

  /** A process leaves the running state; its block is in no list. */
  lemma Detach(s: Sys, b: Pcbs, readyQueue: int, p: int, v: int)
    requires RepAll(s, b, readyQueue)
    requires p in s.place && s.place[p] in {Running, Detached} && p != IDLE
    ensures RepAll(s.(place := s.place[p := Detached]), b.(state := b.state[p := v]), readyQueue)
  {
    hide Core, Linked, BackLinked, RepReady, RepQueues, RepFree, RepState;
    FreeIs(b.next, s.place, p);
    FreeMove(b.next, s.place, p, Detached);
    StateAny(b.state, s.place, p, v);
    CoreDetach(s, p);
  }

  lemma StateAny(state: Field, place: map<int, Place>, p: int, v: int)
    requires RepState(state, place) && p in place
    ensures RepState(state[p := v], place[p := Detached])
  {
    assert state[p := v].Keys == state.Keys;
  }

  lemma CoreDetach(s: Sys, p: int)
    requires Core(s) && p in s.place && s.place[p] in {Running, Detached} && p != IDLE
    ensures Core(s.(place := s.place[p := Detached]))
  {
    hide Shape, ReadyInv, QueueInv, SleepInv, RecvInv;
    ShapeMove(s.table, s.place, s.queues, s.target, p, Detached);
    ReadyMove(s.ready, s.place, p, Detached);
    QueueMove(s.queues, s.place, p, Detached);
    SleepMove(s.asleep, s.left, s.stale, s.place, p, Detached);
    RecvMove(s.target, s.place, s.queues, p, Detached);
  }

  /** addBlockedSender: p becomes the first sender of d. */
  lemma SenderFirst(s: Sys, b: Pcbs, readyQueue: int, d: int, p: int)
    requires RepAll(s, b, readyQueue) && d in s.queues && s.queues[d] == []
    requires p in s.place && s.place[p] == Detached && p in b.state && b.state[p] == BLOCKED && p != IDLE && p != d
    requires Target(s, d) != p && Target(s, d) != 0
    ensures RepAll(BlockSend(s, d, p), b.(senderQueue := b.senderQueue[d := p]), readyQueue)
  {
    hide Core, Linked, BackLinked, RepReady, RepQueues, RepFree, RepState;
    CoreFacts(s, p);
    CoreQueueInv(s);
    Live(s, d);
    CoreBlockSend(s, d, p);
    FreeIs(b.next, s.place, p);
    Single(b.next, p);
    assert s.queues[d] + [p] == [p];
    QueuesChange(b.next, b.next, b.senderQueue, s.queues, s.place, d, p, [p]);
    FreeMove(b.next, s.place, p, SendingTo(d));
    StateMove(b.state, s.place, p, SendingTo(d));
    assert b.state[p := BLOCKED] == b.state;
  }

  /** addBlockedSender: p goes behind the last sender of d. */
  lemma SenderBehind(s: Sys, b: Pcbs, readyQueue: int, d: int, p: int)
    requires RepAll(s, b, readyQueue) && d in s.queues && s.queues[d] != []
    requires p in s.place && s.place[p] == Detached && p in b.state && b.state[p] == BLOCKED && p != IDLE && p != d
    requires Target(s, d) != p && Target(s, d) != 0
    ensures d in b.senderQueue
    ensures RepAll(BlockSend(s, d, p), b.(next := b.next[Last(s.queues[d]) := p][p := NULL]), readyQueue)
  {
    hide Core, Linked, BackLinked, RepReady, RepQueues, RepFree, RepState;
    var l := Last(s.queues[d]);
    assert l in s.queues[d];
    CoreFacts(s, p);
    CoreQueueInv(s);
    Live(s, d);
    SenderIs(s, d, l);
    NotSender(s, d, p);
    CoreFacts(s, l);
    CoreBlockSend(s, d, p);
    FreeIs(b.next, s.place, p);
    QueueHead(b.next, b.senderQueue, s.queues, d);
    Append(b.next, b.senderQueue[d], s.queues[d], p);
    QueuesChange(b.next, b.next[l := p][p := NULL], b.senderQueue, s.queues, s.place, d, b.senderQueue[d], s.queues[d] + [p]);
    assert b.senderQueue[d := b.senderQueue[d]] == b.senderQueue;
    ReadySkip(b.next, b.prev, readyQueue, s.ready, l, p);
    ReadySkip(b.next[l := p], b.prev, readyQueue, s.ready, p, NULL);
    FreeLink(b.next, s.place, l, p);
    FreeLink(b.next[l := p], s.place, p, NULL);
    FreeMove(b.next[l := p][p := NULL], s.place, p, SendingTo(d));
    StateMove(b.state, s.place, p, SendingTo(d));
    assert b.state[p := BLOCKED] == b.state;
  }

  lemma NotSender(s: Sys, d: int, p: int)
    requires Core(s) && p in s.place && d in s.queues && s.place[p] != SendingTo(d)
    ensures p !in s.queues[d]
  {
    hide Shape, ReadyInv, SleepInv, RecvInv;
  }

  lemma MinusFirst(s: Sys, d: int, k: nat)
    requires Core(s) && d in s.queues && k < |s.queues[d]|
    ensures Minus(s.queues[d], s.queues[d][k]) == Without(s.queues[d], k)
    ensures forall x :: x in Without(s.queues[d], k) ==> x in s.queues[d] && x != s.queues[d][k]
    ensures s.queues[d][k] in s.queues[d] && (k > 0 ==> s.queues[d][k - 1] in s.queues[d] && s.queues[d][k - 1] != s.queues[d][k])
  {
    hide Shape, ReadyInv, SleepInv, RecvInv;
    MinusAt(s.queues[d], k);
    MinusIs(s.queues[d], s.queues[d][k]);
  }

  /** rmBlockedSender: the first sender of d leaves. */
  lemma SenderLeavesFirst(s: Sys, b: Pcbs, readyQueue: int, d: int)
    requires RepAll(s, b, readyQueue) && d in s.queues && s.queues[d] != []
    ensures d in b.senderQueue && b.senderQueue[d] == s.queues[d][0] && b.senderQueue[d] in b.next
    ensures var p := b.senderQueue[d];
      RepAll(Withdraw(s, d, p), b.(next := b.next[p := NULL], senderQueue := b.senderQueue[d := b.next[p]]), readyQueue)
  {
    hide Core, Linked, BackLinked, RepReady, RepQueues, RepFree, RepState, Minus;
    var p := s.queues[d][0];
    MinusFirst(s, d, 0);
    SenderIs(s, d, p);
    CoreFacts(s, p);
    CoreQueueInv(s);
    CoreWithdraw(s, d, p);
    QueueHead(b.next, b.senderQueue, s.queues, d);
    HeadOf(b.next, b.senderQueue[d], s.queues[d]);
    Pop(b.next, b.senderQueue[d], s.queues[d]);
    assert Without(s.queues[d], 0) == s.queues[d][1..];
    QueuesChange(b.next, b.next[p := NULL], b.senderQueue, s.queues, s.place, d, b.next[p], s.queues[d][1..]);
    ReadySkip(b.next, b.prev, readyQueue, s.ready, p, NULL);
    FreeLink(b.next, s.place, p, NULL);
    FreeMove(b.next[p := NULL], s.place, p, Detached);
    StateMove(b.state, s.place, p, Detached);
  }

  /** rmBlockedSender: another sender of d leaves. */
  lemma SenderLeaves(s: Sys, b: Pcbs, readyQueue: int, d: int, k: nat)
    requires RepAll(s, b, readyQueue) && d in s.queues && 0 < k < |s.queues[d]|
    ensures s.queues[d][k] in b.next
    ensures var p := s.queues[d][k];
      RepAll(Withdraw(s, d, p), b.(next := b.next[s.queues[d][k - 1] := b.next[p]][p := NULL]), readyQueue)
  {
    hide Core, Linked, BackLinked, RepReady, RepQueues, RepFree, RepState, Minus;
    var p := s.queues[d][k];
    var l := s.queues[d][k - 1];
    MinusFirst(s, d, k);
    SenderIs(s, d, p);
    SenderIs(s, d, l);
    CoreFacts(s, p);
    CoreFacts(s, l);
    CoreQueueInv(s);
    CoreWithdraw(s, d, p);
    QueueHead(b.next, b.senderQueue, s.queues, d);
    Follow(b.next, b.senderQueue[d], s.queues[d], k);
    Unlink(b.next, b.senderQueue[d], s.queues[d], k);
    var n := b.next[l := b.next[p]][p := NULL];
    QueuesChange(b.next, n, b.senderQueue, s.queues, s.place, d, b.senderQueue[d], Without(s.queues[d], k));
    assert b.senderQueue[d := b.senderQueue[d]] == b.senderQueue;
    ReadySkip(b.next, b.prev, readyQueue, s.ready, l, b.next[p]);
    ReadySkip(b.next[l := b.next[p]], b.prev, readyQueue, s.ready, p, NULL);
    FreeLink(b.next, s.place, l, b.next[p]);
    FreeLink(b.next[l := b.next[p]], s.place, p, NULL);
    FreeMove(n, s.place, p, Detached);
    StateMove(b.state, s.place, p, Detached);
  }

  lemma SetsEax(s: Sys, b: Pcbs, readyQueue: int, p: int, v: int)
    requires RepAll(s, b, readyQueue)
    ensures RepAll(SetEax(s, p, v), b, readyQueue)
  {
    hide Core, RepReady, RepQueues, RepFree, RepState;
    CoreEax(s, p, v);
  }

  /** The links of a process in no list may be cleared. */
  lemma Unlinked(s: Sys, b: Pcbs, readyQueue: int, p: int)
    requires RepAll(s, b, readyQueue)
    requires p in s.place && s.place[p] != Ready && !s.place[p].SendingTo?
    ensures RepAll(s, b.(next := b.next[p := NULL], prev := b.prev[p := NULL]), readyQueue)
  {
    hide Core, Linked, BackLinked, RepReady, RepQueues, RepFree, RepState;
    CoreFacts(s, p);
    CoreQueueInv(s);
    QueuesSkip(b.next, b.senderQueue, s.queues, s.place, p, NULL);
    ReadySkip(b.next, b.prev, readyQueue, s.ready, p, NULL);
    ReadyPrevSkip(b.next[p := NULL], b.prev, readyQueue, s.ready, p, NULL);
    FreeLink(b.next, s.place, p, NULL);
  }

  /** rmBlockedRecver */
  lemma ReceiverLeaves(s: Sys, b: Pcbs, readyQueue: int, r: int)
    requires RepAll(s, b, readyQueue)
    requires r in s.place && s.place[r] in {Idle, Running, Receiving, Detached}
    ensures RepAll(StopReceiving(s, r), b, readyQueue)
  {
    hide Core, RepReady, RepQueues, RepFree, RepState;
    CoreStopReceiving(s, r);
    if r != IDLE {
      FreeIs(b.next, s.place, r);
      FreeMove(b.next, s.place, r, Detached);
      StateMove(b.state, s.place, r, Detached);
    }
  }

  /** addBlockedRecver */
  lemma ReceiverBlocks(s: Sys, b: Pcbs, readyQueue: int, p: int, from: int)
    requires RepAll(s, b, readyQueue)
    requires p in s.place && s.place[p] == Detached && p in b.state && b.state[p] == BLOCKED && from != p
    requires if from == 0 then Queue(s, p) == [] else from in s.place && from !in Queue(s, p)
    ensures RepAll(BlockRecv(s, p, from), b, readyQueue)
  {
    hide Core, RepReady, RepQueues, RepFree, RepState;
    CoreBlockRecv(s, p, from);
    FreeIs(b.next, s.place, p);
    FreeMove(b.next, s.place, p, Receiving);
    StateMove(b.state, s.place, p, Receiving);
    assert b.state[p := BLOCKED] == b.state;
  }

  lemma SleeperJoins(s: Sys, b: Pcbs, readyQueue: int, p: int, t: int)
    requires RepAll(s, b, readyQueue)
    requires p in s.place && s.place[p] == Detached && p in b.state && b.state[p] == SLEEPING
    ensures RepAll(FallAsleep(s, p, t), b, readyQueue)
  {
    hide Core, RepReady, RepQueues, RepFree, RepState;
    CoreFallAsleep(s, p, t);
    FreeIs(b.next, s.place, p);
    FreeMove(b.next, s.place, p, Asleep);
    StateMove(b.state, s.place, p, Asleep);
    assert b.state[p := SLEEPING] == b.state;
  }

  // ----- removing and adding a block

  function DropSleep(z: SleepFields, p: int): SleepFields {
    SleepFields(z.next - {p}, z.prev - {p}, z.time - {p})
  }

  function Drop(b: Pcbs, p: int): Pcbs {
    Pcbs(b.next - {p}, b.prev - {p}, b.state - {p}, b.eax - {p}, b.senderQueue - {p}, b.targetOfRecv - {p}, DropSleep(b.sleep, p))
  }

  lemma ReadyDrop(next: Field, prev: Field, readyQueue: int, ready: seq<int>, p: int)
    requires RepReady(next, prev, readyQueue, ready) && p !in ready
    ensures RepReady(next - {p}, prev - {p}, readyQueue, ready)
  {
    Members(next, readyQueue, ready);
    Frame(next, next - {p}, readyQueue, ready);
    BackMembers(prev, ready);
    BackFrame(prev, prev - {p}, ready);
  }

  lemma BackMembers(prev: Field, s: seq<int>)
    requires BackLinked(prev, s)
    ensures forall p :: p in s ==> p in prev
  {
  }

  lemma QueuesDrop(next: Field, senderQueue: Field, queues: map<int, seq<int>>, place: map<int, Place>, p: int)
    requires RepQueues(next, senderQueue, queues) && QueueInv(queues, place) && p in place && !place[p].SendingTo?
    ensures RepQueues(next - {p}, senderQueue - {p}, queues - {p})
  {
    hide Linked;
    forall d | d in queues && d != p
      ensures Linked(next - {p}, senderQueue[d], queues[d])
    {
      assert p !in queues[d];
      Members(next, senderQueue[d], queues[d]);
      Frame(next, next - {p}, senderQueue[d], queues[d]);
    }
    assert (senderQueue - {p}).Keys == (queues - {p}).Keys;
  }

  /** removeProcess */
  lemma BlockDropped(s: Sys, b: Pcbs, readyQueue: int, p: int)
    requires RepAll(s, b, readyQueue)
    requires p in s.place && s.place[p] in {Running, Detached} && p != IDLE && Forsaken(s, p)
    ensures RepAll(Remove(s, p), Drop(b, p), readyQueue)
  {
    hide Core, Linked, BackLinked, RepReady, RepQueues, Minus, Forsaken;
    CoreRemove(s, p);
    CoreFacts(s, p);
    CoreQueueInv(s);
    ReadyDrop(b.next, b.prev, readyQueue, s.ready, p);
    QueuesDrop(b.next, b.senderQueue, s.queues, s.place, p);
  }

  lemma QueuesAdd(next: Field, senderQueue: Field, queues: map<int, seq<int>>, place: map<int, Place>, p: int)
    requires RepQueues(next, senderQueue, queues) && QueueInv(queues, place) && p !in place && p !in queues
    ensures RepQueues(next[p := NULL], senderQueue[p := NULL], queues[p := []])
  {
    hide Linked;
    forall d | d in queues
      ensures Linked(next[p := NULL], senderQueue[d], queues[d])
    {
      assert p !in queues[d];
      Members(next, senderQueue[d], queues[d]);
      Frame(next, next[p := NULL], senderQueue[d], queues[d]);
    }
    Empty(next[p := NULL]);
    assert senderQueue[p := NULL].Keys == queues[p := []].Keys;
  }

  lemma Empty(next: Field)
    ensures Linked(next, NULL, [])
  {
  }

  /** What create() puts into a new block. */
  function Fresh(b: Pcbs, p: int): Pcbs {
    b.(next := b.next[p := NULL], prev := b.prev[p := NULL], state := b.state[p := 0], senderQueue := b.senderQueue[p := NULL],
       targetOfRecv := b.targetOfRecv[p := p],
       sleep := SleepFields(b.sleep.next[p := NULL], b.sleep.prev[p := NULL], b.sleep.time[p := 0]))
  }

  function Added(s: Sys, pid: int, slot: nat): Sys
    requires slot <= |s.table|
  {
    s.(table := Inserted(s.table, slot, pid), place := s.place[pid := Detached],
       queues := s.queues[pid := []], target := s.target[pid := pid])
  }

  lemma FieldsAdd(next: Field, sleepPrev: Field, state: Field, place: map<int, Place>, p: int)
    ensures RepFree(next, place) ==> RepFree(next[p := NULL], place[p := Detached])
    ensures RepBack(sleepPrev, place) ==> RepBack(sleepPrev[p := NULL], place[p := Detached])
    ensures RepState(state, place) ==> RepState(state[p := 0], place[p := Detached])
  {
    assert next.Keys == place.Keys ==> next[p := NULL].Keys == place[p := Detached].Keys;
    assert sleepPrev.Keys == place.Keys ==> sleepPrev[p := NULL].Keys == place[p := Detached].Keys;
    assert state.Keys == place.Keys ==> state[p := 0].Keys == place[p := Detached].Keys;
  }

  lemma KeysAdd(f: Field, place: map<int, Place>, p: int, v: int)
    ensures f.Keys == place.Keys ==> f[p := v].Keys == place[p := Detached].Keys
  {
    assert f.Keys == place.Keys ==> f[p := v].Keys == place[p := Detached].Keys;
  }

  lemma BlockAdded(s: Sys, b: Pcbs, readyQueue: int, pid: int, slot: nat)
    requires RepAll(s, b, readyQueue) && pid > 0 && pid !in s.place && slot <= |s.table|
    ensures RepAll(Added(s, pid, slot), Fresh(b, pid), readyQueue)
  {
    hide Core, Linked, BackLinked, RepReady, RepQueues, RepFree, RepState;
    CoreAdd(s, pid, slot);
    FieldsAdd(b.next, b.sleep.prev, b.state, s.place, pid);
    KeysAdd(b.prev, s.place, pid, NULL);
    Live(s, pid);
    NotReady(s, pid);
    CoreQueueInv(s);
    ReadySkip(b.next, b.prev, readyQueue, s.ready, pid, NULL);
    ReadyPrevSkip(b.next[pid := NULL], b.prev, readyQueue, s.ready, pid, NULL);
    QueuesAdd(b.next, b.senderQueue, s.queues, s.place, pid);
  }

  lemma NotReady(s: Sys, p: int)
    requires Core(s) && p !in s.place
    ensures p !in s.ready && p !in s.asleep
  {
    hide Shape, QueueInv, RecvInv, NoDups, SleepSorted;
  }

  // ----- the list of sleepers

  ghost predicate SleepAll(s: Sys, z: SleepFields, sleepList: int) {
    && RepSleep(z.next, z.prev, z.time, sleepList, s.asleep, s.left, s.stale)
    && RepBack(z.prev, s.place)
    && z.next.Keys == z.time.Keys == s.place.Keys
  }

  /** Awake processes that move do not matter. */
  lemma SleepKept(s: Sys, s': Sys, z: SleepFields, sleepList: int, p: int, w: Place)
    requires SleepAll(s, z, sleepList)
    requires s'.asleep == s.asleep && s'.left == s.left && s'.stale == s.stale && s'.place == s.place[p := w]
    requires p in s.place && s.place[p] != Asleep
    ensures SleepAll(s', z, sleepList)
  {
    hide RepSleep;
    BackMove(z.prev, s.place, p, w);
  }

  lemma SleepReady(s: Sys, z: SleepFields, sleepList: int, p: int)
    requires p in s.place && s.place[p] != Asleep
    ensures SleepAll(s, z, sleepList) ==> SleepAll(MakeReady(s, p), z, sleepList)
  {
    hide SleepAll;
    if p != IDLE && SleepAll(s, z, sleepList) {
      SleepKept(s, MakeReady(s, p), z, sleepList, p, Ready);
    }
  }

  lemma SleepDispatch(s: Sys, z: SleepFields, sleepList: int)
    requires Core(s)
    ensures SleepAll(s, z, sleepList) ==> SleepAll(Dispatch(s), z, sleepList)
  {
    hide SleepAll, Core;
    CoreDispatch(s);
    if SleepAll(s, z, sleepList) {
      if s.ready == [] {
        SleepSame(s, Dispatch(s), z, sleepList);
      } else {
        SleepKept(s, Dispatch(s), z, sleepList, s.ready[0], Running);
      }
    }
  }

  lemma SleepBlockSend(s: Sys, z: SleepFields, sleepList: int, d: int, p: int)
    requires p in s.place && s.place[p] != Asleep
    ensures SleepAll(s, z, sleepList) ==> SleepAll(BlockSend(s, d, p), z, sleepList)
  {
    hide SleepAll;
    if SleepAll(s, z, sleepList) {
      SleepKept(s, BlockSend(s, d, p), z, sleepList, p, SendingTo(d));
    }
  }

  lemma SleepWithdraw(s: Sys, z: SleepFields, sleepList: int, d: int, p: int)
    requires Core(s)
    ensures SleepAll(s, z, sleepList) ==> SleepAll(Withdraw(s, d, p), z, sleepList)
  {
    hide SleepAll, Core, Minus;
    CoreWithdraw(s, d, p);
    if p in Queue(s, d) && SleepAll(s, z, sleepList) {
      SleepKept(s, Withdraw(s, d, p), z, sleepList, p, Detached);
    }
  }

  lemma SleepPlace(s: Sys, z: SleepFields, sleepList: int, p: int, w: Place)
    requires p in s.place && s.place[p] != Asleep
    ensures SleepAll(s, z, sleepList) ==>
      SleepAll(s.(place := s.place[p := w]), z, sleepList)
  {
    hide SleepAll;
    if SleepAll(s, z, sleepList) {
      SleepKept(s, s.(place := s.place[p := w]), z, sleepList, p, w);
    }
  }

  lemma SleepSame(s: Sys, s': Sys, z: SleepFields, sleepList: int)
    requires SleepAll(s, z, sleepList)
    requires s'.asleep == s.asleep && s'.left == s.left && s'.stale == s.stale && s'.place == s.place
    ensures SleepAll(s', z, sleepList)
  {
    hide RepSleep, RepBack;
  }

  lemma SleepersSkip(z: SleepFields, sleepList: int, asleep: seq<int>, left: map<int, int>, stale: int, p: int, z': SleepFields)
    requires RepSleep(z.next, z.prev, z.time, sleepList, asleep, left, stale) && p !in asleep
    requires forall q :: q in z.next && q != p ==> q in z'.next && z'.next[q] == z.next[q]
    requires forall q :: q in z.prev && q != p ==> q in z'.prev && z'.prev[q] == z.prev[q]
    requires forall q :: q in z.time && q != p ==> q in z'.time && z'.time[q] == z.time[q]
    ensures RepSleep(z'.next, z'.prev, z'.time, sleepList, asleep, left, stale)
  {
    hide Linked, BackLinked;
    Members(z.next, sleepList, asleep);
    BackMembers(z.prev, asleep);
    Frame(z.next, z'.next, sleepList, asleep);
    BackFrame(z.prev, z'.prev, asleep);
  }

  lemma SleepRemoved(s: Sys, z: SleepFields, sleepList: int, p: int)
    requires Core(s) && p in s.place && s.place[p] != Asleep
    ensures SleepAll(s, z, sleepList) ==> SleepAll(Remove(s, p), DropSleep(z, p), sleepList)
  {
    hide Core, RepSleep, Minus;
    AwakeIs(s, p);
    if SleepAll(s, z, sleepList) {
      SleepersSkip(z, sleepList, s.asleep, s.left, s.stale, p, DropSleep(z, p));
    }
  }

  lemma AwakeIs(s: Sys, p: int)
    requires Core(s) && p in s.place && s.place[p] != Asleep
    ensures p !in s.asleep && p !in s.left
  {
    hide Shape, ReadyInv, QueueInv, RecvInv, NoDups, SleepSorted;
  }

  lemma SleepAdded(s: Sys, b: Pcbs, sleepList: int, pid: int, slot: nat)
    requires Core(s) && pid !in s.place && slot <= |s.table|
    ensures SleepAll(s, b.sleep, sleepList) ==> SleepAll(Added(s, pid, slot), Fresh(b, pid).sleep, sleepList)
  {
    hide Core, RepSleep, RepBack, Inserted;
    NotReady(s, pid);
    FieldsAdd(b.next, b.sleep.prev, b.state, s.place, pid);
    KeysAdd(b.sleep.next, s.place, pid, NULL);
    KeysAdd(b.sleep.time, s.place, pid, 0);
    if SleepAll(s, b.sleep, sleepList) {
      SleepersSkip(b.sleep, sleepList, s.asleep, s.left, s.stale, pid, Fresh(b, pid).sleep);
    }
  }
}
