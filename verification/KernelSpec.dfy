// What the dispatcher does to the processes, on values.
module KernelSpec {
  // Where every process is, the order of every queue, who receives from whom, and what each
  // process finds in eax. The class in Kernel.dfy does the same with pointers.

  import opened Links

  const IDLE: int := 0
  const TIME_SLICE: int := 10

  /** Where a process is. Detached is a process on its way from one place to another. */
  datatype Place = Idle | Running | Ready | Asleep | Receiving | SendingTo(dest: int) | Detached

  datatype Sys = Sys(
    cur: int,                     // the process that runs
    table: seq<int>,              // the live pids in the order of their slots
    place: map<int, Place>,
    ready: seq<int>,
    queues: map<int, seq<int>>,   // the blocked senders of each process
    target: map<int, int>,        // target_of_recv; its own pid when a process does not receive
    eax: map<int, int>,
    asleep: seq<int>,
    left: map<int, int>,          // what is left of the sleep, in milliseconds
    stale: int,                   // what the first sleeper still points back to, or NULL
    clears: bool                  // whether that pointer is cleared when a sleeper becomes the first
  )

  // ----- the primitive changes

  function MakeReady(s: Sys, p: int): Sys {
    if p == IDLE then s else s.(ready := s.ready + [p], place := s.place[p := Ready])
  }

  /** next() */
  function Dispatch(s: Sys): Sys {
    if s.ready == [] then s.(cur := IDLE)
    else s.(cur := s.ready[0], ready := s.ready[1..], place := s.place[s.ready[0] := Running])
  }

  function SetEax(s: Sys, p: int, v: int): Sys {
    s.(eax := s.eax[p := v])
  }

  function Minus(q: seq<int>, p: int): seq<int> {
    if q == [] then [] else if q[0] == p then q[1..] else [q[0]] + Minus(q[1..], p)
  }

  function Queue(s: Sys, d: int): seq<int> {
    if d in s.queues then s.queues[d] else []
  }

  function Target(s: Sys, d: int): int {
    if d in s.target then s.target[d] else d
  }

  /** rmBlockedSender */
  function Withdraw(s: Sys, d: int, p: int): Sys {
    if p in Queue(s, d) then
      s.(queues := s.queues[d := Minus(s.queues[d], p)], place := s.place[p := Detached])
    else s
  }

  /** rmBlockedRecver */
  function StopReceiving(s: Sys, r: int): Sys {
    s.(target := s.target[r := r], place := if r == IDLE then s.place else s.place[r := Detached])
  }

  function BlockSend(s: Sys, d: int, p: int): Sys {
    s.(queues := s.queues[d := Queue(s, d) + [p]], place := s.place[p := SendingTo(d)])
  }

  function BlockRecv(s: Sys, p: int, from: int): Sys {
    s.(target := s.target[p := from], place := s.place[p := Receiving])
  }

  /** runSend: receiver r gets the message of sender p. */
  function Rendezvous(s: Sys, r: int, p: int, len: int): Sys {
    MakeReady(MakeReady(SetEax(SetEax(StopReceiving(Withdraw(s, r, p), r), r, len), p, len), p), r)
  }

  /** How many sleepers, from the first, have no more than t left. */
  function Slot(asleep: seq<int>, left: map<int, int>, t: int): (k: nat)
    ensures k <= |asleep|
  {
    if asleep != [] && asleep[0] in left && left[asleep[0]] <= t then 1 + Slot(asleep[1..], left, t) else 0
  }

  /** addToSleepList, where it works: behind everybody who is to wake no later. */
  function FallAsleep(s: Sys, p: int, t: int): Sys {
    var k := Slot(s.asleep, s.left, t);
    s.(asleep := Inserted(s.asleep, k, p), left := s.left[p := t],
       stale := if k > 0 then s.stale else NULL, place := s.place[p := Asleep])
  }

  /** The insertion goes wrong when it is to go before a first sleeper that still points back. */
  predicate SleepOk(s: Sys, t: int) {
    s.stale != NULL ==> Slot(s.asleep, s.left, t) > 0
  }

  /** What the first of the sleepers left points back to when p, who was first, has left. */
  function StaleAfter(s: Sys, p: int, rest: seq<int>): int {
    if s.clears || rest == [] then NULL else p
  }

  /** wake */
  function Wake(s: Sys): Sys
    requires s.asleep != []
  {
    var p := s.asleep[0];
    MakeReady(SetEax(s.(asleep := s.asleep[1..], left := s.left - {p}, stale := StaleAfter(s, p, s.asleep[1..]),
                        place := s.place[p := Detached]), p, 0), p)
  }

  predicate Due(s: Sys) {
    s.asleep != [] && s.asleep[0] in s.left && s.left[s.asleep[0]] <= 0
  }

  function WakeDue(s: Sys): Sys
    decreases |s.asleep|
  {
    if Due(s) then WakeDue(Wake(s)) else s
  }

  function Elapse(s: Sys): Sys {
    s.(left := map p | p in s.left :: s.left[p] - TIME_SLICE)
  }

  /** tick */
  function Tick(s: Sys): Sys {
    if s.asleep == [] then s else WakeDue(Elapse(s))
  }

  // Removal from the list of sleepers

  function Index(q: seq<int>, p: int): (k: nat)
    ensures k <= |q| && (k < |q| ==> q[k] == p) && (p in q ==> k < |q|)
  {
    if q == [] || q[0] == p then 0 else 1 + Index(q[1..], p)
  }

  /** What is left for the sleeper before the k-th. */
  function Base(asleep: seq<int>, left: map<int, int>, k: nat): int {
    if 0 < k <= |asleep| && asleep[k - 1] in left then left[asleep[k - 1]] else 0
  }

  /** What removeFromSleepList is to do. In eax the process finds its own time, which is what it
      would have slept longer than the one before it. */
  function Removed(s: Sys, p: int): Sys
    requires p in s.asleep && p in s.left
  {
    var k := Index(s.asleep, p);
    var v := s.left[p] - Base(s.asleep, s.left, k);
    SetEax(s.(asleep := Without(s.asleep, k), left := s.left - {p},
              stale := if k == 0 then StaleAfter(s, p, s.asleep[1..]) else s.stale, place := s.place[p := Detached]), p, v)
  }

  /** removeFromSleepList works unless the first sleeper, still pointing back, is to leave. */
  predicate RemoveOk(s: Sys, p: int) {
    s.stale != NULL && s.asleep != [] ==> s.asleep[0] != p
  }

  /** cleanUpSendersHelper on the first sender */
  function FailSender(s: Sys, d: int): Sys
    requires Queue(s, d) != []
  {
    var p := Queue(s, d)[0];
    MakeReady(SetEax(Withdraw(s, d, p), p, -1), p)
  }

  /** cleanUpSenders */
  function FailSenders(s: Sys, d: int): Sys
    decreases |Queue(s, d)|
  {
    if Queue(s, d) == [] then s else FailSenders(FailSender(s, d), d)
  }

  /** getAllRecvers */
  function Recvers(table: seq<int>, target: map<int, int>, p: int): seq<int> {
    if table == [] then [] else
    var rest := Recvers(table[1..], target, p);
    if table[0] in target && target[table[0]] == p && table[0] != p then [table[0]] + rest else rest
  }

  function FailRecver(s: Sys, r: int): Sys {
    MakeReady(SetEax(StopReceiving(s, r), r, -1), r)
  }

  function FailAll(s: Sys, rs: seq<int>): Sys
    decreases rs
  {
    if rs == [] then s else FailAll(FailRecver(s, rs[0]), rs[1..])
  }

  /** cleanUpRecvers */
  function FailRecvers(s: Sys, p: int): Sys {
    FailAll(s, Recvers(s.table, s.target, p))
  }

  /** removeProcess */
  function Remove(s: Sys, p: int): Sys {
    s.(table := Minus(s.table, p), place := s.place - {p}, queues := s.queues - {p},
       target := s.target - {p}, eax := s.eax - {p})
  }

  // ----- the arms of the dispatcher

  /** A request of the running process, or the timer. What create and the memory copy decide
      (the new pid and its slot, the length copied, whether the buffer is there) is part of it.
      Kill is a signal that ends the sleep of a sleeper. */
  datatype Request =
    | Create(pid: int, slot: nat)
    | Yield
    | Stop
    | Timer
    | Send(dest: int, buffer: bool, len: int)
    | Recv(from: int, buffer: bool, len: int)
    | Sleep(ms: nat)
    | Kill(pid: int)

  function DoCreate(s: Sys, pid: int, slot: nat): Sys
    requires slot <= |s.table|
  {
    SetEax(MakeReady(s.(table := Inserted(s.table, slot, pid), place := s.place[pid := Detached],
                        queues := s.queues[pid := []], target := s.target[pid := pid]), pid), s.cur, pid)
  }

  function Refuse(s: Sys, p: int, code: int): Sys {
    SetEax(MakeReady(s, p), p, code)
  }

  function DoSend(s: Sys, dest: int, buffer: bool, len: int): Sys {
    var p := s.cur;
    if dest == p then Refuse(s, p, -2)
    else if !buffer then Refuse(s, p, -3)
    else if dest !in s.place then Refuse(s, p, -1)
    else if Target(s, dest) == p || Target(s, dest) == 0 then SetEax(Rendezvous(s, dest, p, len), p, len)
    else SetEax(BlockSend(s, dest, p), p, 0)
  }

  function DoRecv(s: Sys, from: int, buffer: bool, len: int): Sys {
    var p := s.cur;
    if from == p then Refuse(s, p, -2)
    else if !buffer then Refuse(s, p, -3)
    else if from != 0 && from !in s.place then Refuse(s, p, -1)
    else if from == 0 && Queue(s, p) != [] then SetEax(Rendezvous(s, p, Queue(s, p)[0], len), p, len)
    else if from != 0 && from in Queue(s, p) then SetEax(Rendezvous(s, p, from, len), p, len)
    else SetEax(BlockRecv(s, p, from), p, 0)
  }

  function DoSleep(s: Sys, ms: nat): Sys {
    if ms == 0 then MakeReady(SetEax(s, s.cur, 0), s.cur) else FallAsleep(s, s.cur, ms)
  }

  function DoStop(s: Sys): Sys {
    Remove(FailRecvers(FailSenders(s, s.cur), s.cur), s.cur)
  }

  /** The arm of signal for a sleeper, and its answer to the caller, who runs on. */
  function DoKill(s: Sys, pid: int): Sys
    requires pid in s.asleep && pid in s.left
  {
    SetEax(MakeReady(Removed(s, pid), pid), s.cur, 0)
  }

  /** The idle process makes no requests; a new pid is new; the signal is for a sleeper. */
  predicate Enabled(s: Sys, r: Request) {
    match r
    case Create(pid, slot) => s.cur != IDLE && pid > 0 && pid !in s.place && slot <= |s.table|
    case Yield => true
    case Timer => true
    case Kill(pid) => s.cur != IDLE && pid in s.asleep && pid in s.left
    case _ => s.cur != IDLE
  }

  /** Nothing has to be done in front of a first sleeper that still points back. */
  predicate Linkable(s: Sys, r: Request) {
    match r
    case Sleep(ms) => ms == 0 || SleepOk(s, ms)
    case Kill(pid) => RemoveOk(s, pid)
    case _ => true
  }

  function Step(s: Sys, r: Request): Sys
    requires Enabled(s, r)
  {
    match r
    case Create(pid, slot) => DoCreate(s, pid, slot)
    case Yield => Dispatch(MakeReady(s, s.cur))
    case Stop => Dispatch(DoStop(s))
    case Timer => Dispatch(MakeReady(Tick(s), s.cur))
    case Send(dest, buffer, len) => Dispatch(DoSend(s, dest, buffer, len))
    case Recv(from, buffer, len) => Dispatch(DoRecv(s, from, buffer, len))
    case Sleep(ms) => Dispatch(DoSleep(s, ms))
    case Kill(pid) => DoKill(s, pid)
  }

  // ----- the invariant

  ghost predicate NoDups(s: seq<int>) {
    forall i, j :: 0 <= i < j < |s| ==> s[i] != s[j]
  }

  ghost predicate Shape(table: seq<int>, place: map<int, Place>, queues: map<int, seq<int>>, target: map<int, int>) {
    && NoDups(table)
    && (forall p :: p in table <==> p in place)
    && place.Keys == queues.Keys == target.Keys
    && IDLE in place && place[IDLE] == Idle && target[IDLE] == IDLE
    && (forall p :: p in place ==> p >= 0 && (place[p] == Idle ==> p == IDLE))
  }

  ghost predicate ReadyInv(ready: seq<int>, place: map<int, Place>) {
    && NoDups(ready)
    && (forall p :: p in ready <==> p in place && place[p] == Ready)
  }

  ghost predicate QueueInv(queues: map<int, seq<int>>, place: map<int, Place>) {
    && (forall d :: d in queues ==> NoDups(queues[d]))
    && (forall p :: p in place && place[p].SendingTo? ==> place[p].dest in queues && place[p].dest != p)
    && (forall d, p :: d in queues ==> (p in queues[d] <==> p in place && place[p] == SendingTo(d)))
  }

  /** Those who are to wake first come first. */
  ghost predicate SleepSorted(asleep: seq<int>, left: map<int, int>) {
    && (forall i :: 0 <= i < |asleep| ==> asleep[i] in left)
    && (forall i, j :: 0 <= i < j < |asleep| ==> left[asleep[i]] <= left[asleep[j]])
  }

  ghost predicate SleepInv(asleep: seq<int>, left: map<int, int>, stale: int, place: map<int, Place>) {
    && NoDups(asleep)
    && (forall p :: p in asleep <==> p in place && place[p] == Asleep)
    && (forall p :: p in asleep <==> p in left)
    && SleepSorted(asleep, left)
    && (stale != NULL ==> asleep != [])
  }

  /** Nobody waits for a message that is there to be received. */
  ghost predicate NoLostRendezvous(target: map<int, int>, place: map<int, Place>, queues: map<int, seq<int>>) {
    forall r :: r in place && place[r] == Receiving && r in target && r in queues ==>
      if target[r] == 0 then queues[r] == [] else target[r] in place && target[r] !in queues[r]
  }

  ghost predicate RecvInv(target: map<int, int>, place: map<int, Place>, queues: map<int, seq<int>>) {
    && (forall p :: p in place && p in target ==> (target[p] != p <==> place[p] == Receiving))
    && NoLostRendezvous(target, place, queues)
  }

  /** What also holds between the primitive changes of one arm. */
  ghost predicate Core(s: Sys) {
    && Shape(s.table, s.place, s.queues, s.target)
    && ReadyInv(s.ready, s.place)
    && QueueInv(s.queues, s.place)
    && SleepInv(s.asleep, s.left, s.stale, s.place)
    && RecvInv(s.target, s.place, s.queues)
    && (s.clears ==> s.stale == NULL)
  }

  /** Every process but the idle one is in exactly one place, and that is where its lists have it. */
  ghost predicate Inv(s: Sys) {
    && Core(s)
    && s.cur in s.place
    && (forall p :: p in s.place ==> s.place[p] != Detached && (s.place[p] == Running <==> p == s.cur && p != IDLE))
    && (forall p :: p in s.left ==> s.left[p] > 0)
  }
}
