// What the invariant means for the processes, and how long they sleep.
module KernelRuns {
  import opened Links
  import opened KernelSpec
  import opened KernelInv

  function B(b: bool): nat {
    if b then 1 else 0
  }

  ghost predicate Sends(s: Sys, p: int) {
    exists d :: d in s.queues && p in s.queues[d]
  }

  lemma InLists(s: Sys, p: int)
    requires Core(s) && p in s.place
    ensures p in s.ready <==> s.place[p] == Ready
    ensures p in s.asleep <==> s.place[p] == Asleep
  {
    hide Shape, QueueInv, RecvInv, NoDups, SleepSorted;
  }

  lemma InQueue(s: Sys, p: int)
    requires Core(s) && p in s.place
    ensures Sends(s, p) <==> s.place[p].SendingTo?
    ensures forall d :: d in s.queues && p in s.queues[d] ==> s.place[p] == SendingTo(d)
  {
    hide Shape, ReadyInv, SleepInv, RecvInv, NoDups;
    if s.place[p].SendingTo? {
      assert p in s.queues[s.place[p].dest];
    }
  }

  lemma Current(s: Sys, p: int)
    requires Inv(s) && p in s.place && p != IDLE
    ensures s.place[p] == Running <==> p == s.cur
    ensures Core(s) && s.place[p] != Detached
  {
    hide Core;
  }

  /** Running, ready, asleep, blocked receiving or in the queue of one receiver: exactly one of these. */
  lemma OnePlace(s: Sys, p: int)
    requires Inv(s) && p in s.place && p != IDLE
    ensures B(p == s.cur) + B(p in s.ready) + B(p in s.asleep) + B(Target(s, p) != p) + B(Sends(s, p)) == 1
    ensures forall d, e :: d in s.queues && e in s.queues && p in s.queues[d] && p in s.queues[e] ==> d == e
  {
    hide Inv, Core, Sends, Target;
    Current(s, p);
    NotIdle(s, p);
    ReceiverIs(s, p);
    InLists(s, p);
    InQueue(s, p);
  }

  /** A process blocked receiving has no message it could get. */
  lemma NothingToReceive(s: Sys, r: int, p: int)
    requires Inv(s) && r in s.place && p in Queue(s, r) && Target(s, r) != r
    ensures Target(s, r) != p && Target(s, r) != 0
  {
    ReceiverIs(s, r);
    Live(s, r);
    hide Shape, ReadyInv, QueueInv, SleepInv;
  }

  // ----- a process that stops

  ghost predicate Failed(s: Sys, q: int) {
    && q in s.place && s.place[q] in {Ready, Running}
    && q in s.eax && s.eax[q] == -1
  }

  lemma FailedIs(s: Sys, q: int)
    ensures Failed(s, q) ==> q in s.place && s.place[q] in {Ready, Running} && q in s.eax && s.eax[q] == -1
  {
  }

  lemma WithdrawFirst(s: Sys, d: int)
    requires Queue(s, d) != []
    ensures var s' := FailSender(s, d);
      && Queue(s', d) == Queue(s, d)[1..] && s'.target == s.target && s'.table == s.table
      && (Queue(s, d)[0] != IDLE ==> s'.place == s.place[Queue(s, d)[0] := Detached][Queue(s, d)[0] := Ready])
      && s'.eax == s.eax[Queue(s, d)[0] := -1]
  {
  }

  lemma {:induction false} SendersFail(s: Sys, d: int)
    requires NoDups(Queue(s, d)) && IDLE !in Queue(s, d)
    ensures var s' := FailSenders(s, d);
      && (forall q :: q in Queue(s, d) ==> Failed(s', q))
      && (forall q :: q !in Queue(s, d) && Failed(s, q) ==> Failed(s', q))
    decreases |Queue(s, d)|
  {
    hide FailSender, Queue;
    if Queue(s, d) == [] {
    } else {
      NoDupsPop(Queue(s, d));
      WithdrawFirst(s, d);
      SendersFail(FailSender(s, d), d);
    }
  }

  lemma {:induction false} RecversFail(s: Sys, rs: seq<int>)
    requires NoDups(rs) && IDLE !in rs
    ensures var s' := FailAll(s, rs);
      && (forall q :: q in rs ==> Failed(s', q))
      && (forall q :: q !in rs && Failed(s, q) ==> Failed(s', q))
    decreases rs
  {
    if rs == [] {
    } else {
      NoDupsPop(rs);
      FailRecverIs(s, rs[0]);
      hide FailRecver;
      RecversFail(FailRecver(s, rs[0]), rs[1..]);
    }
  }

  lemma FailRecverIs(s: Sys, r: int)
    requires r != IDLE
    ensures Failed(FailRecver(s, r), r)
    ensures forall q :: q != r && Failed(s, q) ==> Failed(FailRecver(s, r), q)
  {
  }

  lemma QueueFacts(s: Sys, d: int)
    requires Core(s)
    ensures NoDups(Queue(s, d)) && IDLE !in Queue(s, d)
    ensures forall q :: q in s.place && s.place[q] == SendingTo(d) ==> q in Queue(s, d)
  {
    CoreIdle(s);
    hide Shape, ReadyInv, SleepInv, RecvInv;
  }

  lemma RecvFacts(s: Sys, p: int)
    requires Core(s) && p != IDLE
    ensures var rs := Recvers(s.table, s.target, p);
      && NoDups(rs) && IDLE !in rs
      && (forall q :: q in s.place && q != p && Target(s, q) == p ==> q in rs)
      && (forall q :: q in rs ==> q in s.place && s.place[q] == Receiving)
  {
    CoreRecvers(s, p);
    CoreIdle(s);
    hide ReadyInv, QueueInv, SleepInv, RecvInv, Recvers;
  }

  /** After a process stops nobody is blocked on it: those who were go on with -1. */
  lemma AfterStop(s: Sys, q: int)
    requires Inv(s) && s.cur != IDLE && q in s.place && q != s.cur
    ensures var s' := Step(s, Stop);
      && s.cur !in s'.place && q in s'.place && Target(s', q) != s.cur && s'.place[q] != SendingTo(s.cur)
      && (s.place[q] == SendingTo(s.cur) || Target(s, q) == s.cur ==>
           s'.place[q] in {Ready, Running} && q in s'.eax && s'.eax[q] == -1)
  {
    hide Inv, Core, Loose, FailSenders, FailRecvers, Recvers, Remove, Queue, Forsaken, Target, Failed, Dispatch;
    var p := s.cur;
    InvLoose(s);
    LooseCore(s, {p});
    QueueFacts(s, p);
    LooseFailSenders(s, p, {p});
    SendersFail(s, p);
    var s1 := FailSenders(s, p);
    LooseCore(s1, {p});
    RecvFacts(s1, p);
    LooseFailRecvers(s1, p, {p});
    RecversFail(s1, Recvers(s1.table, s1.target, p));
    var s2 := FailRecvers(s1, p);
    FailRecversIs(s1, p);
    LooseRemove(s2, p);
    LooseDispatch(Remove(s2, p));
    StepKeeps(s, Stop);
    TargetSame(s, s1, q);
    LooseCore(s2, {p});
    StillFailed(s1, q);
    FailedIs(Step(s, Stop), q);
    AfterRemove(s2, p, q);
    ReceiverIs(s, q);
  }

  lemma FailRecversIs(s: Sys, p: int)
    ensures FailRecvers(s, p) == FailAll(s, Recvers(s.table, s.target, p))
  {
  }

  lemma TargetSame(s: Sys, s': Sys, q: int)
    requires s.target == s'.target
    ensures Target(s, q) == Target(s', q)
  {
  }

  lemma StillFailed(s: Sys, q: int)
    ensures Failed(s, q) ==> q in s.place && s.place[q] in {Ready, Running}
  {
  }

  lemma AfterRemove(s: Sys, p: int, q: int)
    requires Core(s) && Forsaken(s, p) && q != p && q in s.place
    requires p in s.place && s.place[p] in {Running, Detached} && p != IDLE
    ensures var s' := Dispatch(Remove(s, p));
      p !in s'.place && q in s'.place && Target(s', q) != p && s'.place[q] != SendingTo(p) && (Failed(s, q) ==> Failed(s', q))
  {
    hide Core, Minus, Queue;
    CoreRemove(s, p);
    CoreDispatch(Remove(s, p));
    QueueFacts(s, p);
    Live(s, q);
  }

  // ----- how long a process sleeps

  /** Sleepers sleep on, with the same time left. */
  ghost predicate Undisturbed(s: Sys, s': Sys) {
    forall q :: q in s.place && s.place[q] == Asleep && q in s.left ==>
      q in s'.place && s'.place[q] == Asleep && q in s'.left && s'.left[q] == s.left[q]
  }

  lemma UndisturbedTrans(s: Sys, t: Sys, u: Sys)
    requires Undisturbed(s, t) && Undisturbed(t, u)
    ensures Undisturbed(s, u)
  {
  }

  lemma UndisturbedReady(s: Sys, p: int)
    requires p in s.place && s.place[p] != Asleep
    ensures Undisturbed(s, MakeReady(s, p))
  {
  }

  lemma UndisturbedDispatch(s: Sys)
    requires Core(s)
    ensures Undisturbed(s, Dispatch(s))
  {
    CoreDispatch(s);
    hide Core;
  }

  lemma UndisturbedRendezvous(s: Sys, r: int, p: int, len: int)
    requires r in s.place && p in s.place && s.place[r] != Asleep && s.place[p] != Asleep
    ensures Undisturbed(s, Rendezvous(s, r, p, len))
  {
    hide Minus;
  }

  lemma UndisturbedFailSender(s: Sys, d: int)
    requires Core(s) && Queue(s, d) != []
    ensures Undisturbed(s, FailSender(s, d))
  {
    SenderIs(s, d, Queue(s, d)[0]);
    hide Core, Minus;
  }

  lemma {:induction false} UndisturbedFailSenders(s: Sys, d: int, ps: set<int>)
    requires Loose(s, ps)
    ensures Undisturbed(s, FailSenders(s, d))
    decreases |Queue(s, d)|
  {
    LooseCore(s, ps);
    hide Loose, Core, FailSender, Queue;
    if Queue(s, d) == [] {
    } else {
      LooseFailSender(s, d, ps);
      UndisturbedFailSender(s, d);
      UndisturbedFailSenders(FailSender(s, d), d, ps);
    }
  }

  lemma {:induction false} UndisturbedFailAll(s: Sys, rs: seq<int>)
    requires NoDups(rs) && forall r :: r in rs ==> r in s.place && s.place[r] == Receiving
    ensures Undisturbed(s, FailAll(s, rs))
    decreases rs
  {
    if rs == [] {
    } else {
      NoDupsPop(rs);
      var s1 := FailRecver(s, rs[0]);
      assert Undisturbed(s, s1);
      assert forall q :: q in s.place && q != rs[0] ==> q in s1.place && s1.place[q] == s.place[q];
      UndisturbedFailAll(s1, rs[1..]);
    }
  }

  lemma UndisturbedStop(s: Sys)
    requires Inv(s) && s.cur != IDLE
    ensures Undisturbed(s, DoStop(s))
  {
    hide Inv, Core, Loose, FailSenders, FailRecvers, Recvers, Queue, Minus, Forsaken, Undisturbed;
    var p := s.cur;
    InvLoose(s);
    LooseFailSenders(s, p, {p});
    UndisturbedFailSenders(s, p, {p});
    var s1 := FailSenders(s, p);
    LooseCore(s1, {p});
    CoreRecvers(s1, p);
    LooseFailRecvers(s1, p, {p});
    UndisturbedFailAll(s1, Recvers(s1.table, s1.target, p));
    FailRecversIs(s1, p);
    var s2 := FailRecvers(s1, p);
    UndisturbedRemove(s2, p);
    UndisturbedTrans(s, s1, s2);
    UndisturbedTrans(s, s2, Remove(s2, p));
  }

  lemma UndisturbedRemove(s: Sys, p: int)
    requires p in s.place ==> s.place[p] != Asleep
    ensures Undisturbed(s, Remove(s, p))
  {
    hide Minus;
  }

  lemma UndisturbedSend(s: Sys, dest: int, buffer: bool, len: int)
    requires Inv(s) && s.cur != IDLE
    ensures Undisturbed(s, DoSend(s, dest, buffer, len))
  {
    hide Inv, Core, Loose, Rendezvous, Target, MakeReady;
    InvLoose(s);
    LooseCore(s, {s.cur});
    UndisturbedReady(s, s.cur);
    if dest in s.place && dest != s.cur && (Target(s, dest) == s.cur || Target(s, dest) == 0) {
      ReceiverIs(s, dest);
      CoreIdle(s);
      UndisturbedRendezvous(s, dest, s.cur, len);
    }
  }

  lemma UndisturbedRecv(s: Sys, from: int, buffer: bool, len: int)
    requires Inv(s) && s.cur != IDLE
    ensures Undisturbed(s, DoRecv(s, from, buffer, len))
  {
    hide Inv, Core, Loose, Rendezvous, Queue, MakeReady;
    InvLoose(s);
    LooseCore(s, {s.cur});
    UndisturbedReady(s, s.cur);
    var p := s.cur;
    if (from == 0 && Queue(s, p) != []) || (from != 0 && from in Queue(s, p)) {
      var q := if from == 0 then Queue(s, p)[0] else from;
      SenderIs(s, p, q);
      UndisturbedRendezvous(s, p, q, len);
    }
  }

  lemma UndisturbedSleep(s: Sys, ms: nat)
    requires Inv(s) && s.cur != IDLE
    ensures Undisturbed(s, DoSleep(s, ms))
  {
    InvLoose(s);
    hide Inv, Core, Loose, Slot;
  }

  lemma NobodyDisturbed(s: Sys, r: Request)
    requires Inv(s) && Enabled(s, r) && !r.Timer? && !r.Kill?
    ensures Undisturbed(s, Step(s, r))
  {
    hide Inv, Loose, Core, Undisturbed, Dispatch, MakeReady, DoSend, DoRecv, DoSleep, DoStop, DoCreate;
    InvLoose(s);
    match r
    case Create(pid, slot) => UndisturbedCreate(s, pid, slot);
    case Yield =>
      UndisturbedReady(s, s.cur);
      LooseReady(s, s.cur, {s.cur});
      UndisturbedOn(s, MakeReady(s, s.cur), {s.cur} - {s.cur});
    case Stop => UndisturbedStop(s); StopArm(s); UndisturbedOn(s, DoStop(s), {});
    case Send(dest, buffer, len) =>
      UndisturbedSend(s, dest, buffer, len);
      SendArm(s, dest, buffer, len);
      UndisturbedOn(s, DoSend(s, dest, buffer, len), {});
    case Recv(from, buffer, len) =>
      UndisturbedRecv(s, from, buffer, len);
      RecvArm(s, from, buffer, len);
      UndisturbedOn(s, DoRecv(s, from, buffer, len), {});
    case Sleep(ms) => UndisturbedSleep(s, ms); SleepArm(s, ms); UndisturbedOn(s, DoSleep(s, ms), {});
  }

  lemma UndisturbedOn(s: Sys, s': Sys, ps: set<int>)
    requires Undisturbed(s, s') && Loose(s', ps)
    ensures Undisturbed(s, Dispatch(s'))
  {
    hide Undisturbed, Core, Dispatch;
    LooseCore(s', ps);
    UndisturbedDispatch(s');
    UndisturbedTrans(s, s', Dispatch(s'));
  }

  lemma UndisturbedCreate(s: Sys, pid: int, slot: nat)
    requires Enabled(s, Create(pid, slot))
    ensures Undisturbed(s, DoCreate(s, pid, slot))
  {
  }

  /** Removing one sleeper leaves everybody else asleep for as long as before. */
  lemma RemovalDisturbsNobody(s: Sys, p: int, q: int)
    requires Core(s) && p in s.asleep && p in s.left && q != p && q in s.place && s.place[q] == Asleep && q in s.left
    ensures var s' := Removed(s, p); q in s'.place && s'.place[q] == Asleep && q in s'.left && s'.left[q] == s.left[q]
  {
    hide Core;
  }

  /** What a removed process finds in eax is what was left for it only if nobody before it has
      anything left. */
  lemma RemovedEax(s: Sys, p: int)
    requires Core(s) && Positive(s.left) && p in s.asleep && p in s.left
    ensures p in Removed(s, p).eax
    ensures Removed(s, p).eax[p] == s.left[p] <==> p == s.asleep[0]
  {
    hide Shape, ReadyInv, QueueInv, RecvInv, Without;
    var k := Index(s.asleep, p);
    if k > 0 {
      assert s.asleep[k - 1] in s.left;
      assert s.asleep[k] != s.asleep[0];
    }
  }

  /** A signal makes its sleeper ready and leaves everybody else as he was. */
  lemma Killed(s: Sys, p: int, q: int)
    requires Inv(s) && Enabled(s, Kill(p)) && q in s.place
    ensures var s' := Step(s, Kill(p));
      && q in s'.place && (if q == p then s'.place[q] == Ready else s'.place[q] == s.place[q])
      && (q != p ==> (q in s.left <==> q in s'.left) && (q in s.left ==> s'.left[q] == s.left[q]))
      && p in s'.eax && p in Removed(s, p).eax && s'.eax[p] == Removed(s, p).eax[p]
      && s'.asleep == Without(s.asleep, Index(s.asleep, p)) && s'.ready == s.ready + [p] && s'.cur == s.cur
  {
    InvLoose(s);
    LooseCore(s, {s.cur});
    RemovedPlace(s, p);
    AwakeCur(s, p);
    hide Inv, Core, Loose, Index, Base, Without;
  }

  lemma AwakeCur(s: Sys, p: int)
    requires Inv(s) && s.cur != IDLE && p in s.place && s.place[p] == Asleep
    ensures p != s.cur
  {
    hide Core;
  }

  /** No request disturbs a sleeper except a signal for it; only the timer does. */
  lemma OthersSleepOn(s: Sys, r: Request, q: int)
    requires Inv(s) && Enabled(s, r) && !r.Timer? && r != Kill(q) && q in s.place && s.place[q] == Asleep
    ensures q in s.left
    ensures var s' := Step(s, r); q in s'.place && s'.place[q] == Asleep && q in s'.left && s'.left[q] == s.left[q]
  {
    hide Inv, Core, Loose, Undisturbed, Step, Enabled;
    InvLoose(s);
    LooseCore(s, {s.cur});
    AsleepIs(s, q);
    if r.Kill? {
      Killed(s, r.pid, q);
    } else {
      NobodyDisturbed(s, r);
      SleptOn(s, Step(s, r), q);
    }
  }

  // What one tick does

  lemma WakeOne(s: Sys, q: int)
    requires Core(s) && s.asleep != [] && q in s.place
    ensures var s' := Wake(s);
      && q in s'.place
      && (q == s.asleep[0] ==> s'.place[q] == Ready && q in s'.eax && s'.eax[q] == 0)
      && (q != s.asleep[0] ==> (s'.place[q] == s.place[q] && (q in s.left <==> q in s'.left)))
      && (q != s.asleep[0] && q in s.left ==> s'.left[q] == s.left[q])
      && (q != s.asleep[0] && q in s.eax ==> (q in s'.eax && s'.eax[q] == s.eax[q]))
  {
    CoreWake(s);
    NotIdle(s, s.asleep[0]);
    hide Core;
  }

  lemma AsleepIs(s: Sys, q: int)
    requires Core(s) && q in s.place
    ensures s.place[q] == Asleep <==> q in s.asleep
    ensures s.place[q] == Asleep <==> q in s.left
  {
    hide Shape, ReadyInv, QueueInv, RecvInv, SleepSorted, NoDups;
  }

  lemma {:induction false} WakeDueOne(s: Sys, q: int)
    requires Core(s) && q in s.place
    ensures var s' := WakeDue(s);
      && q in s'.place
      && (s.place[q] == Asleep && q in s.left && s.left[q] > 0 ==>
            s'.place[q] == Asleep && q in s'.left && s'.left[q] == s.left[q])
      && (s.place[q] == Asleep && q in s.left && s.left[q] <= 0 ==> s'.place[q] == Ready && q in s'.eax && s'.eax[q] == 0)
      && (s.place[q] != Asleep ==> s'.place[q] == s.place[q] && (q in s.eax ==> q in s'.eax && s'.eax[q] == s.eax[q]))
    decreases |s.asleep|
  {
    hide Core, Wake;
    AsleepIs(s, q);
    if Due(s) {
      WakeLength(s);
      CoreWake(s);
      WakeOne(s, q);
      WakeDueOne(Wake(s), q);
    } else {
      NotDue(s);
    }
  }

  /** A tick takes one time slice from every sleeper and wakes exactly those it leaves nothing. */
  lemma TickOne(s: Sys, q: int)
    requires Core(s) && q in s.place && s.place[q] == Asleep
    ensures q in s.left && q in Tick(s).place
    ensures s.left[q] > 10 ==> var s' := Tick(s);
      s'.place[q] == Asleep && q in s'.left && s'.left[q] == s.left[q] - 10
    ensures s.left[q] <= 10 ==> var s' := Tick(s); s'.place[q] == Ready && q in s'.eax && s'.eax[q] == 0
  {
    hide Core, WakeDue;
    AsleepIs(s, q);
    CoreElapse(s);
    WakeDueOne(Elapse(s), q);
  }

  function Ticks(rs: seq<Request>): nat {
    if rs == [] then 0 else (if rs[0].Timer? then 1 else 0) + Ticks(rs[1..])
  }

  /** Just woken by a timer step. */
  ghost predicate Woken(s: Sys, q: int) {
    q in s.place && s.place[q] in {Ready, Running} && q in s.eax && s.eax[q] == 0
  }

  lemma StepSleeper(s: Sys, r: Request, q: int)
    requires Inv(s) && Enabled(s, r) && r != Kill(q) && q in s.place && s.place[q] == Asleep
    ensures q in s.left && q in Step(s, r).place
    ensures var s' := Step(s, r); var l := s.left[q] - (if r.Timer? then 10 else 0);
      if l > 0 then s'.place[q] == Asleep && q in s'.left && s'.left[q] == l else r.Timer? && Woken(s', q)
  {
    hide Inv, Core, Loose, Tick, Dispatch, MakeReady, Undisturbed;
    InvLoose(s);
    LooseCore(s, {s.cur});
    AsleepIs(s, q);
    LeftPositive(s, q);
    if r.Timer? {
      TickOne(s, q);
      TickKeeps(s, {s.cur});
      TimerTail(s, q);
    } else {
      OthersSleepOn(s, r, q);
    }
  }

  lemma LeftPositive(s: Sys, q: int)
    requires Inv(s) && q in s.left
    ensures s.left[q] > 0
  {
    hide Core;
  }

  lemma SleptOn(s: Sys, s': Sys, q: int)
    requires Undisturbed(s, s') && q in s.place && s.place[q] == Asleep && q in s.left
    ensures q in s'.place && s'.place[q] == Asleep && q in s'.left && s'.left[q] == s.left[q]
  {
  }

  lemma WokenReady(s: Sys, p: int, q: int)
    requires Woken(s, q)
    ensures Woken(MakeReady(s, p), q)
  {
  }

  lemma WokenDispatch(s: Sys, q: int)
    requires Woken(s, q)
    ensures Woken(Dispatch(s), q)
  {
  }

  lemma WokenFrom(s: Sys, q: int)
    requires q in s.place && s.place[q] == Ready && q in s.eax && s.eax[q] == 0
    ensures Woken(s, q)
  {
  }

  lemma TimerTail(s: Sys, q: int)
    requires Inv(s) && q in s.place && s.place[q] == Asleep && q in Tick(s).place
    ensures var t := Tick(s); var s' := Step(s, Timer);
      && (t.place[q] == Asleep && q in t.left ==> (q in s'.place && s'.place[q] == Asleep && q in s'.left && s'.left[q] == t.left[q]))
      && (t.place[q] == Ready && q in t.eax && t.eax[q] == 0 ==> Woken(s', q))
  {
    hide Inv, Core, Loose, Tick, MakeReady, Dispatch, Undisturbed, Woken;
    InvLoose(s);
    LooseCore(s, {s.cur});
    TickKeeps(s, {s.cur});
    TickFields(s, s.cur);
    var t := Tick(s);
    if t.place[q] == Asleep {
      UndisturbedReady(t, s.cur);
      LooseReady(t, s.cur, {s.cur});
      UndisturbedOn(t, MakeReady(t, s.cur), {s.cur} - {s.cur});
      if q in t.left {
        SleptOn(t, Step(s, Timer), q);
      }
    } else if t.place[q] == Ready && q in t.eax && t.eax[q] == 0 {
      WokenFrom(t, q);
      WokenReady(t, s.cur, q);
      WokenDispatch(MakeReady(t, s.cur), q);
    }
  }

  lemma TickFields(s: Sys, p: int)
    requires Core(s) && p in s.place && s.place[p] != Asleep
    ensures Tick(s).cur == s.cur && p in Tick(s).place && Tick(s).place[p] == s.place[p]
  {
    TickCur(s);
    hide Core, WakeDue;
    CoreElapse(s);
    WakeDueOne(Elapse(s), p);
  }

  /** A sleeper with l milliseconds left that gets no signal sleeps through exactly those runs
      whose ticks do not add up to l; every other process may do what it likes: sleep, stop, be
      woken by a tick or taken from the list by a signal. */
  lemma {:induction false} SleepsThrough(s: Sys, rs: seq<Request>, q: int)
    requires Inv(s) && CanRun(s, rs) && Kill(q) !in rs && q in s.place && s.place[q] == Asleep
    ensures q in s.left
    ensures 10 * Ticks(rs) < s.left[q] ==> var s' := Run(s, rs);
      q in s'.place && s'.place[q] == Asleep && q in s'.left && s'.left[q] == s.left[q] - 10 * Ticks(rs)
    decreases |rs|
  {
    hide Inv, Core, Step, Enabled;
    if rs == [] {
      InvLoose(s);
      LooseCore(s, {s.cur});
      AsleepIs(s, q);
    } else {
      StepSleeper(s, rs[0], q);
      StepKeeps(s, rs[0]);
      if Step(s, rs[0]).place[q] == Asleep {
        SleepsThrough(Step(s, rs[0]), rs[1..], q);
      }
    }
  }

  lemma {:induction false} RunSplit(s: Sys, rs: seq<Request>, r: Request)
    requires CanRun(s, rs + [r])
    ensures CanRun(s, rs) && Enabled(Run(s, rs), r) && Run(s, rs + [r]) == Step(Run(s, rs), r)
    ensures Ticks(rs + [r]) == Ticks(rs) + if r.Timer? then 1 else 0
    decreases |rs|
  {
    hide Step, Enabled;
    if rs == [] {
      assert (rs + [r])[0] == r && (rs + [r])[1..] == [];
    } else {
      assert (rs + [r])[0] == rs[0] && (rs + [r])[1..] == rs[1..] + [r];
      RunSplit(Step(s, rs[0]), rs[1..], r);
    }
  }

  /** With t left it is the ceil(t / 10)-th tick that wakes a process, with 0 in its eax. */
  lemma WokenByTick(s: Sys, rs: seq<Request>, q: int)
    requires Inv(s) && CanRun(s, rs + [Timer]) && Kill(q) !in rs && q in s.place && s.place[q] == Asleep && q in s.left
    requires 10 * Ticks(rs) < s.left[q] <= 10 * (Ticks(rs) + 1)
    ensures Woken(Run(s, rs + [Timer]), q)
  {
    hide Inv, Step, Enabled, Run, CanRun, Ticks;
    RunSplit(s, rs, Timer);
    SleepsThrough(s, rs, q);
    RunKeeps(s, rs);
    StepSleeper(Run(s, rs), Timer, q);
  }

  /** Those a tick wakes become ready in the order in which they slept. */
  lemma {:induction false} WakeOrder(s: Sys)
    requires Core(s)
    ensures var k := Slot(s.asleep, s.left, 0);
      WakeDue(s).ready == s.ready + s.asleep[..k] && WakeDue(s).asleep == s.asleep[k..]
    decreases |s.asleep|
  {
    hide Core, Wake, Slot;
    if Due(s) {
      CoreWake(s);
      NotIdle(s, s.asleep[0]);
      SlotRest(s);
      WakeShape(s);
      WakeOrder(Wake(s));
    } else {
      SlotNone(s);
    }
  }

  lemma SlotNone(s: Sys)
    requires !Due(s)
    ensures Slot(s.asleep, s.left, 0) == 0
  {
  }

  lemma WakeShape(s: Sys)
    requires s.asleep != [] && s.asleep[0] != IDLE
    ensures Wake(s).asleep == s.asleep[1..] && Wake(s).ready == s.ready + [s.asleep[0]]
    ensures Wake(s).left == s.left - {s.asleep[0]}
  {
  }

  lemma SlotRest(s: Sys)
    requires Core(s) && Due(s)
    ensures Slot(s.asleep, s.left, 0) == 1 + Slot(s.asleep[1..], s.left - {s.asleep[0]}, 0)
  {
    hide Shape, ReadyInv, QueueInv, RecvInv;
    NoDupsPop(s.asleep);
    SlotSame(s.asleep[1..], s.left, s.left - {s.asleep[0]}, 0);
  }

  lemma SlotSame(a: seq<int>, left: map<int, int>, left': map<int, int>, t: int)
    requires forall p :: p in a ==> (p in left <==> p in left') && (p in left ==> left[p] == left'[p])
    ensures Slot(a, left, t) == Slot(a, left', t)
  {
    if a == [] {
    } else {
      var p := a[0];
      assert p in a;
      assert p in left <==> p in left';
      assert p in left ==> left[p] == left'[p];
      SlotSame(a[1..], left, left', t);
      assert Slot(a, left, t) == if p in left && left[p] <= t then 1 + Slot(a[1..], left, t) else 0;
      assert Slot(a, left', t) == if p in left' && left'[p] <= t then 1 + Slot(a[1..], left', t) else 0;
    }
  }

  // ----- sleeps that go wrong

  lemma SleepStepIs(s: Sys, ms: nat)
    ensures Enabled(s, Sleep(ms)) <==> s.cur != IDLE
    ensures s.cur != IDLE ==> Step(s, Sleep(ms)) == Dispatch(DoSleep(s, ms))
  {
    hide Dispatch, DoSleep;
  }

  lemma TimerStepIs(s: Sys)
    ensures Enabled(s, Timer) && Step(s, Timer) == Dispatch(MakeReady(Tick(s), s.cur))
  {
    hide Dispatch, MakeReady, Tick;
  }

  /** Process 1 creates process 2 and sleeps 10 ms, 2 sleeps 100 ms, and a tick wakes 1. */
  function ShortRun(): seq<Request> {
    [Create(2, 2), Sleep(10), Sleep(100), Timer]
  }

  function AfterCreate(): Sys {
    Boot(1, false).(table := [0, 1, 2], place := map[0 := Idle, 1 := Running, 2 := Ready], ready := [2],
             queues := map[0 := [], 1 := [], 2 := []], target := map[0 := 0, 1 := 1, 2 := 2], eax := map[1 := 2])
  }

  function BothAsleep(): Sys {
    AfterCreate().(cur := 0, ready := [], place := map[0 := Idle, 1 := Asleep, 2 := Asleep], asleep := [1, 2], left := map[1 := 10, 2 := 100])
  }

  function OneWoken(): Sys {
    BothAsleep().(cur := 1, place := map[0 := Idle, 1 := Running, 2 := Asleep], asleep := [2], left := map[2 := 90],
                  stale := 1, eax := map[1 := 0])
  }

  lemma FirstSteps()
    ensures Enabled(Boot(1, false), Create(2, 2)) && Step(Boot(1, false), Create(2, 2)) == AfterCreate()
  {
    hide DoSleep, DoSend, DoRecv, DoStop, DoKill, Tick;
    assert Step(Boot(1, false), Create(2, 2)).place == AfterCreate().place;
    assert Inserted([0, 1], 2, 2) == [0, 1, 2];
    assert Step(Boot(1, false), Create(2, 2)).queues == AfterCreate().queues;
    assert Step(Boot(1, false), Create(2, 2)).target == AfterCreate().target;
  }

  function OneAsleep(): Sys {
    AfterCreate().(cur := 2, ready := [], place := map[0 := Idle, 1 := Asleep, 2 := Running], asleep := [1], left := map[1 := 10])
  }

  lemma SleepSteps()
    ensures Enabled(AfterCreate(), Sleep(10)) && Step(AfterCreate(), Sleep(10)) == OneAsleep()
    ensures Enabled(OneAsleep(), Sleep(100)) && Step(OneAsleep(), Sleep(100)) == BothAsleep()
  {
    hide DoCreate, DoSend, DoRecv, DoStop, DoKill, Tick;
    assert Inserted([], 0, 1) == [1];
    assert Slot([1], map[1 := 10], 100) == 1;
    assert Inserted([1], 1, 2) == [1, 2];
    assert Step(AfterCreate(), Sleep(10)).place == OneAsleep().place;
    assert Step(OneAsleep(), Sleep(100)).place == BothAsleep().place;
    assert Step(OneAsleep(), Sleep(100)).left == BothAsleep().left;
  }

  lemma TimerStep()
    ensures Step(BothAsleep(), Timer) == OneWoken()
  {
    hide Step, Enabled, Tick;
    TimerStepIs(BothAsleep());
    OneTicked();
    assert Dispatch(OneReady()).place == OneWoken().place;
  }

  function OneReady(): Sys {
    BothAsleep().(ready := [1], place := map[0 := Idle, 1 := Ready, 2 := Asleep], asleep := [2], left := map[2 := 90],
                  stale := 1, eax := map[1 := 0])
  }

  lemma OneElapsed()
    ensures var e := Elapse(BothAsleep()); e == BothAsleep().(left := map[1 := 0, 2 := 90])
  {
  }

  lemma OneTicked()
    ensures Tick(BothAsleep()) == OneReady()
  {
    OneElapsed();
    hide Elapse;
    OneRound(BothAsleep());
    var e := Elapse(BothAsleep());
    assert e.left - {1} == map[2 := 90] && e.asleep[1..] == [2];
    var w := Wake(e);
    assert w.place == OneReady().place && w.eax == OneReady().eax;
  }

  /** A tick that wakes the first only. */
  lemma OneRound(s: Sys)
    requires s.asleep != [] && Due(Elapse(s)) && !Due(Wake(Elapse(s)))
    ensures Tick(s) == Wake(Elapse(s))
  {
    assert Elapse(s).asleep == s.asleep;
    hide Due, Elapse, Wake;
    assert WakeDue(Wake(Elapse(s))) == Wake(Elapse(s));
  }

  /** It takes four requests to reach a state in which a sleep of 5 ms goes in front of a first
      sleeper that points back to a process that is awake. */
  lemma SleepCanBeLost()
    ensures CanRun(Boot(1, false), ShortRun()) && Run(Boot(1, false), ShortRun()) == OneWoken()
    ensures !SleepOk(OneWoken(), 5) && OneWoken().stale !in OneWoken().asleep
  {
    assert Slot([2], map[2 := 90], 5) == 0;
    assert ShortRun()[0] == Create(2, 2) && ShortRun()[1..] == [Sleep(10), Sleep(100), Timer];
    assert Enabled(BothAsleep(), Timer);
    hide *;
    FirstSteps();
    SleepSteps();
    TimerStep();
    RunOne(OneWoken(), []);
    RunOne(BothAsleep(), [Timer]);
    RunOne(OneAsleep(), [Sleep(100), Timer]);
    RunOne(AfterCreate(), [Sleep(10), Sleep(100), Timer]);
    RunOne(Boot(1, false), ShortRun());
  }

  /** Process 1 creates 2 and 3 and sleeps 100 ms, 2 sleeps 10 ms, a tick wakes it, and it sleeps
      again, for 200 ms. */
  function LongRun(): seq<Request> {
    [Create(2, 2), Create(3, 3), Sleep(100), Sleep(10), Timer, Sleep(200)]
  }

  function ThreeLive(): Sys {
    AfterCreate().(table := [0, 1, 2, 3], place := map[0 := Idle, 1 := Running, 2 := Ready, 3 := Ready], ready := [2, 3],
                   queues := map[0 := [], 1 := [], 2 := [], 3 := []], target := map[0 := 0, 1 := 1, 2 := 2, 3 := 3],
                   eax := map[1 := 3])
  }

  function FirstAsleep(): Sys {
    ThreeLive().(cur := 2, ready := [3], place := map[0 := Idle, 1 := Asleep, 2 := Running, 3 := Ready],
                 asleep := [1], left := map[1 := 100])
  }

  function TwoAsleep(): Sys {
    FirstAsleep().(cur := 3, ready := [], place := map[0 := Idle, 1 := Asleep, 2 := Asleep, 3 := Running],
                   asleep := [2, 1], left := map[1 := 100, 2 := 10])
  }

  function TwoWoken(): Sys {
    TwoAsleep().(cur := 2, ready := [3], place := map[0 := Idle, 1 := Asleep, 2 := Running, 3 := Ready],
                 asleep := [1], left := map[1 := 90], stale := 2, eax := map[1 := 3, 2 := 0])
  }

  function TwoBehind(): Sys {
    TwoWoken().(cur := 3, ready := [], place := map[0 := Idle, 1 := Asleep, 2 := Asleep, 3 := Running],
                asleep := [1, 2], left := map[1 := 90, 2 := 200])
  }

  lemma SecondCreate()
    ensures Enabled(AfterCreate(), Create(3, 3)) && Step(AfterCreate(), Create(3, 3)) == ThreeLive()
  {
    hide DoSleep, DoSend, DoRecv, DoStop, DoKill, Tick;
    assert Step(AfterCreate(), Create(3, 3)).place == ThreeLive().place;
    assert Inserted([0, 1, 2], 3, 3) == [0, 1, 2, 3];
    assert Step(AfterCreate(), Create(3, 3)).queues == ThreeLive().queues;
    assert Step(AfterCreate(), Create(3, 3)).target == ThreeLive().target;
  }

  lemma OneSleeps()
    ensures Enabled(ThreeLive(), Sleep(100)) && Step(ThreeLive(), Sleep(100)) == FirstAsleep()
  {
    hide Step, Enabled;
    SleepStepIs(ThreeLive(), 100);
    assert Inserted([], 0, 1) == [1];
    assert Dispatch(DoSleep(ThreeLive(), 100)).place == FirstAsleep().place;
  }

  lemma TwoSleeps()
    ensures Enabled(FirstAsleep(), Sleep(10)) && Step(FirstAsleep(), Sleep(10)) == TwoAsleep()
  {
    hide DoCreate, DoSend, DoRecv, DoStop, DoKill, Tick;
    assert Slot([1], map[1 := 100], 10) == 0;
    assert Inserted([1], 0, 2) == [2, 1];
    assert Step(FirstAsleep(), Sleep(10)).place == TwoAsleep().place;
    assert Step(FirstAsleep(), Sleep(10)).left == TwoAsleep().left;
  }

  lemma WakesTwo()
    ensures Step(TwoAsleep(), Timer) == TwoWoken()
  {
    hide Step, Enabled, Tick;
    TimerStepIs(TwoAsleep());
    TwoTicked();
    assert Dispatch(MakeReady(TwoReady(), 3)).place == TwoWoken().place;
  }

  function TwoReady(): Sys {
    TwoAsleep().(place := map[0 := Idle, 1 := Asleep, 2 := Ready, 3 := Running], ready := [2],
                 asleep := [1], left := map[1 := 90], stale := 2, eax := map[1 := 3, 2 := 0])
  }

  lemma TwoElapsed()
    ensures var e := Elapse(TwoAsleep()); e == TwoAsleep().(left := map[1 := 90, 2 := 0])
  {
  }

  lemma TwoTicked()
    ensures Tick(TwoAsleep()) == TwoReady()
  {
    TwoElapsed();
    hide Elapse;
    OneRound(TwoAsleep());
    var e := Elapse(TwoAsleep());
    assert e.left - {2} == map[1 := 90] && e.asleep[1..] == [1];
    var w := Wake(e);
    assert w.place == TwoReady().place && w.eax == TwoReady().eax;
  }

  lemma SleepsBehind()
    ensures Enabled(TwoWoken(), Sleep(200)) && Step(TwoWoken(), Sleep(200)) == TwoBehind()
  {
    hide Step, Enabled;
    SleepStepIs(TwoWoken(), 200);
    assert Slot([1], map[1 := 90], 200) == 1;
    assert Inserted([1], 1, 2) == [1, 2];
    assert Dispatch(DoSleep(TwoWoken(), 200)).place == TwoBehind().place;
    assert Dispatch(DoSleep(TwoWoken(), 200)).left == TwoBehind().left;
  }

  /** It takes six to reach one in which it goes in front of a first sleeper that points back to a
      process that sleeps again. */
  lemma ListCanBeTied()
    ensures CanRun(Boot(1, false), LongRun()) && Run(Boot(1, false), LongRun()) == TwoBehind()
    ensures !SleepOk(TwoBehind(), 5) && TwoBehind().stale in TwoBehind().asleep
  {
    hide *;
    FirstSteps();
    SecondCreate();
    Tied();
    LastRun();
    assert [Create(3, 3), Sleep(100), Sleep(10), Timer, Sleep(200)][1..] == [Sleep(100), Sleep(10), Timer, Sleep(200)];
    RunOne(AfterCreate(), [Create(3, 3), Sleep(100), Sleep(10), Timer, Sleep(200)]);
    RunOne(Boot(1, false), LongRun());
  }

  lemma Tied()
    ensures !SleepOk(TwoBehind(), 5) && TwoBehind().stale in TwoBehind().asleep
    ensures LongRun() != [] && LongRun()[0] == Create(2, 2) && LongRun()[1..] == [Create(3, 3), Sleep(100), Sleep(10), Timer, Sleep(200)]
  {
    assert Slot([1, 2], map[1 := 90, 2 := 200], 5) == 0;
    assert TwoBehind().stale == 2 && TwoBehind().asleep[1] == 2;
  }

  lemma LastRun()
    ensures CanRun(ThreeLive(), [Sleep(100), Sleep(10), Timer, Sleep(200)])
    ensures Run(ThreeLive(), [Sleep(100), Sleep(10), Timer, Sleep(200)]) == TwoBehind()
  {
    assert Enabled(TwoAsleep(), Timer);
    hide *;
    OneSleeps();
    TwoSleeps();
    WakesTwo();
    SleepsBehind();
    RunOne(TwoBehind(), []);
    RunOne(TwoWoken(), [Sleep(200)]);
    RunOne(TwoAsleep(), [Timer, Sleep(200)]);
    RunOne(FirstAsleep(), [Sleep(10), Timer, Sleep(200)]);
    RunOne(ThreeLive(), [Sleep(100), Sleep(10), Timer, Sleep(200)]);
  }

  lemma RunOne(s: Sys, rs: seq<Request>)
    ensures rs == [] ==> CanRun(s, rs) && Run(s, rs) == s
    ensures rs != [] && Enabled(s, rs[0]) && CanRun(Step(s, rs[0]), rs[1..]) ==>
      CanRun(s, rs) && Run(s, rs) == Run(Step(s, rs[0]), rs[1..])
  {
  }

  // ----- runs that the code can follow

  /** Runs in which nothing has to be done in front of a first sleeper that still points back. */
  predicate CanServe(s: Sys, rs: seq<Request>)
    decreases |rs|
  {
    rs == [] || (Enabled(s, rs[0]) && Linkable(s, rs[0]) && CanServe(Step(s, rs[0]), rs[1..]))
  }

  lemma {:induction false} FailSendersClears(s: Sys, d: int)
    ensures FailSenders(s, d).clears == s.clears
    decreases |Queue(s, d)|
  {
    if Queue(s, d) == [] {
    } else {
      FailSenderFields(s, d);
      FailSendersClears(FailSender(s, d), d);
    }
  }

  lemma {:induction false} FailAllClears(s: Sys, rs: seq<int>)
    ensures FailAll(s, rs).clears == s.clears
    decreases rs
  {
    if rs == [] {
    } else {
      FailAllClears(FailRecver(s, rs[0]), rs[1..]);
    }
  }

  lemma {:induction false} WakeDueClears(s: Sys)
    ensures WakeDue(s).clears == s.clears
    decreases |s.asleep|
  {
    if !Due(s) {
    } else {
      WakeDueClears(Wake(s));
    }
  }

  lemma StepClears(s: Sys, r: Request)
    requires Enabled(s, r)
    ensures Step(s, r).clears == s.clears
  {
    hide Dispatch, MakeReady, DoSend, DoRecv, DoSleep, DoStop, DoCreate, DoKill, Tick;
    MovesClear();
    ArmsClear(s);
    match r
    case Stop => StopClears(s);
    case Timer => TickClears(s);
    case Create(pid, slot) => CreateClears(s, pid, slot);
    case Kill(pid) => KillClears(s, pid);
    case _ =>
  }

  lemma MovesClear()
    ensures forall s :: Dispatch(s).clears == s.clears
    ensures forall s, p :: MakeReady(s, p).clears == s.clears
  {
  }

  lemma ArmsClear(s: Sys)
    ensures forall dest, buffer, len :: DoSend(s, dest, buffer, len).clears == s.clears
    ensures forall from, buffer, len :: DoRecv(s, from, buffer, len).clears == s.clears
    ensures forall ms :: DoSleep(s, ms).clears == s.clears
  {
    hide Rendezvous, Queue, Target, Slot, MakeReady, Inserted;
    MovesClear();
    RendezvousClears(s);
  }

  lemma TickClears(s: Sys)
    ensures Tick(s).clears == s.clears
  {
    hide WakeDue;
    WakeDueClears(Elapse(s));
  }

  lemma CreateClears(s: Sys, pid: int, slot: nat)
    requires slot <= |s.table|
    ensures DoCreate(s, pid, slot).clears == s.clears
  {
  }

  lemma KillClears(s: Sys, p: int)
    requires p in s.asleep && p in s.left
    ensures DoKill(s, p).clears == s.clears
  {
    hide Index, Base, Without;
  }

  lemma RendezvousClears(s: Sys)
    ensures forall r, p, len :: Rendezvous(s, r, p, len).clears == s.clears
  {
    hide Minus, Queue;
  }

  lemma StopClears(s: Sys)
    ensures DoStop(s).clears == s.clears
  {
    hide FailSenders, FailAll, Recvers, Minus;
    FailSendersClears(s, s.cur);
    var t := FailSenders(s, s.cur);
    FailAllClears(t, Recvers(t.table, t.target, s.cur));
    FailRecversIs(t, s.cur);
  }

  lemma ClearedLinkable(s: Sys, r: Request)
    requires Core(s) && s.clears
    ensures Linkable(s, r)
  {
    hide Shape, ReadyInv, QueueInv, SleepInv, RecvInv, Slot;
  }

  /** With the pointers cleared it can follow every run. */
  lemma {:induction false} ClearedServes(s: Sys, rs: seq<Request>)
    requires Inv(s) && s.clears && CanRun(s, rs)
    ensures CanServe(s, rs)
    decreases |rs|
  {
    InvLoose(s);
    LooseCore(s, {s.cur});
    hide Inv, Core, Loose, Step, Enabled, Linkable;
    if rs == [] {
    } else {
      ClearedLinkable(s, rs[0]);
      StepKeeps(s, rs[0]);
      StepClears(s, rs[0]);
      ClearedServes(Step(s, rs[0]), rs[1..]);
    }
  }
}
