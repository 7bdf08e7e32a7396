// What every request does, seen from outside.
module KernelArms {
  // The new process and the new queues as functions of the old ones, with the numbers of the source.

  import opened Links
  import opened KernelSpec
  import opened KernelInv
  import opened KernelRuns

  /** The first of q runs and the others wait, or idle runs. */
  ghost predicate Turn(s: Sys, q: seq<int>) {
    if q == [] then s.cur == 0 && s.ready == [] else s.cur == q[0] && s.ready == q[1..]
  }

  lemma DispatchTurns(s: Sys)
    ensures Turn(Dispatch(s), s.ready)
    ensures var s' := Dispatch(s);
      && s'.queues == s.queues && s'.target == s.target && s'.eax == s.eax && s'.table == s.table
      && s'.asleep == s.asleep && s'.left == s.left
  {
  }

  /** What is behind everybody when the running process goes on waiting. */
  function WithCurrent(s: Sys, q: seq<int>): seq<int> {
    if s.cur == 0 then q else q + [s.cur]
  }

  /** The running process goes to the end of the ready queue. */
  lemma YieldTurn(s: Sys)
    ensures var s' := Step(s, Yield);
      && Turn(s', WithCurrent(s, s.ready))
      && s'.queues == s.queues && s'.target == s.target && s'.eax == s.eax && s'.asleep == s.asleep && s'.left == s.left
  {
    DispatchTurns(MakeReady(s, s.cur));
    hide Dispatch, Turn;
  }

  /** Those with 10 ms or less are ready in list order, and then the process that was interrupted. */
  lemma TimerTurn(s: Sys, k: nat)
    requires Inv(s) && k <= |s.asleep|
    requires forall i :: 0 <= i < |s.asleep| ==> s.asleep[i] in s.left && (i < k <==> s.left[s.asleep[i]] <= 10)
    ensures var s' := Step(s, Timer);
      Turn(s', WithCurrent(s, s.ready + s.asleep[..k])) && s'.asleep == s.asleep[k..]
  {
    hide *;
    IdleIs();
    InvLoose(s);
    LooseCore(s, {s.cur});
    TimerStepIs(s);
    TickCur(s);
    TickWakes(s, k);
    DispatchTurns(MakeReady(Tick(s), s.cur));
    ReadyIs(Tick(s), s.cur);
    With(s, s.ready + s.asleep[..k]);
  }

  lemma With(s: Sys, q: seq<int>)
    ensures WithCurrent(s, q) == if s.cur == 0 then q else q + [s.cur]
  {
  }

  lemma ReadyIs(s: Sys, p: int)
    ensures MakeReady(s, p).ready == (if p == 0 then s.ready else s.ready + [p])
    ensures var s' := MakeReady(s, p);
      && s'.queues == s.queues && s'.target == s.target && s'.eax == s.eax && s'.table == s.table
      && s'.asleep == s.asleep && s'.left == s.left && s'.cur == s.cur
  {
  }

  lemma TickWakes(s: Sys, k: nat)
    requires Core(s) && k <= |s.asleep|
    requires forall i :: 0 <= i < |s.asleep| ==> s.asleep[i] in s.left && (i < k <==> s.left[s.asleep[i]] <= 10)
    ensures Tick(s).ready == s.ready + s.asleep[..k] && Tick(s).asleep == s.asleep[k..]
  {
    hide Core, WakeDue, Slot;
    var e := Elapse(s);
    CoreElapse(s);
    if s.asleep == [] {
      assert s.ready + s.asleep[..k] == s.ready;
    } else {
      SortedIs(e);
      SlotIs(e.asleep, e.left, 0);
      WakeOrder(e);
      var n := Slot(e.asleep, e.left, 0);
      var w := if n < k then n else if k < n then k else 0;
      assert s.asleep[w] in s.left;
    }
  }

  lemma SortedIs(s: Sys)
    requires Core(s)
    ensures SleepSorted(s.asleep, s.left)
  {
    hide Shape, ReadyInv, QueueInv, RecvInv;
  }

  // ----- create, sleep, signal

  lemma CreateTurn(s: Sys, pid: int, slot: nat)
    requires s.cur != 0 && pid > 0 && pid !in s.place && slot <= |s.table|
    ensures Enabled(s, Create(pid, slot))
    ensures var s' := Step(s, Create(pid, slot));
      && s'.cur == s.cur && s'.ready == s.ready + [pid] && s'.eax == s.eax[s.cur := pid]
      && s'.table == s.table[..slot] + [pid] + s.table[slot..]
      && s'.queues == s.queues[pid := []] && s'.target == s.target[pid := pid] && s'.asleep == s.asleep && s'.left == s.left
  {
    hide DoSend, DoRecv, DoStop, DoSleep, DoKill, Tick;
  }

  lemma SleepArmIs(s: Sys, ms: nat)
    ensures ms == 0 ==> DoSleep(s, ms) == MakeReady(SetEax(s, s.cur, 0), s.cur)
    ensures ms > 0 ==> var t := DoSleep(s, ms);
      && t.ready == s.ready && t.left == s.left[s.cur := ms] && t.queues == s.queues && t.target == s.target && t.eax == s.eax
      && t.asleep == Inserted(s.asleep, Slot(s.asleep, s.left, ms), s.cur) && t.cur == s.cur
  {
    hide MakeReady, Slot, Inserted;
  }

  /** A sleep of 0 ms only gives up the turn. */
  lemma NoSleepTurn(s: Sys)
    requires s.cur != 0
    ensures var s' := Step(s, Sleep(0));
      && Turn(s', s.ready + [s.cur]) && s'.eax == s.eax[s.cur := 0]
      && s'.queues == s.queues && s'.target == s.target && s'.asleep == s.asleep && s'.left == s.left
  {
    hide *;
    IdleIs();
    SleepStepIs(s, 0);
    SleepArmIs(s, 0);
    ReadyIs(SetEax(s, s.cur, 0), s.cur);
    EaxIs(s, s.cur, 0);
    DispatchTurns(DoSleep(s, 0));
  }

  lemma IdleIs()
    ensures IDLE == 0
  {
  }

  lemma EaxIs(s: Sys, p: int, v: int)
    ensures var s' := SetEax(s, p, v); s'.eax == s.eax[p := v] && s' == s.(eax := s'.eax)
  {
  }

  /** A longer one puts the process behind those who wake no later and in front of the others. */
  lemma SleepTurn(s: Sys, ms: nat, k: nat)
    requires Inv(s) && s.cur != 0 && ms > 0 && k <= |s.asleep|
    requires forall i :: 0 <= i < |s.asleep| ==> s.asleep[i] in s.left && (i < k <==> s.left[s.asleep[i]] <= ms)
    ensures var s' := Step(s, Sleep(ms));
      && Turn(s', s.ready) && s'.left == s.left[s.cur := ms]
      && s'.asleep == s.asleep[..k] + [s.cur] + s.asleep[k..]
      && s'.queues == s.queues && s'.target == s.target && s'.eax == s.eax
  {
    hide *;
    IdleIs();
    InvLoose(s);
    LooseCore(s, {s.cur});
    SleepStepIs(s, ms);
    SleepArmIs(s, ms);
    SlotHere(s, ms, k);
    InsertedIs(s.asleep, k, s.cur);
    DispatchTurns(DoSleep(s, ms));
  }

  lemma InsertedIs(q: seq<int>, k: nat, p: int)
    requires k <= |q|
    ensures Inserted(q, k, p) == q[..k] + [p] + q[k..]
  {
  }

  lemma SlotHere(s: Sys, t: int, k: nat)
    requires Core(s) && k <= |s.asleep|
    requires forall i :: 0 <= i < |s.asleep| ==> s.asleep[i] in s.left && (i < k <==> s.left[s.asleep[i]] <= t)
    ensures Slot(s.asleep, s.left, t) == k
  {
    hide Core, Slot;
    SortedIs(s);
    SlotIs(s.asleep, s.left, t);
    var n := Slot(s.asleep, s.left, t);
    if s.asleep != [] {
      var w := if n < k then n else if k < n then k else 0;
      assert s.asleep[w] in s.left;
    }
  }

  /** The caller of a signal runs on with 0. */
  lemma KillTurn(s: Sys, p: int)
    requires Inv(s) && Enabled(s, Kill(p))
    ensures var s' := Step(s, Kill(p));
      && s'.cur == s.cur && s'.ready == s.ready + [p] && s.cur in s'.eax && s'.eax[s.cur] == 0
      && p !in s'.asleep && p !in s'.left && s'.queues == s.queues && s'.target == s.target
  {
    StepKeeps(s, Kill(p));
    InvLoose(s);
    LooseCore(s, {s.cur});
    InvLoose(Step(s, Kill(p)));
    LooseCore(Step(s, Kill(p)), {s.cur});
    hide Inv, Core, Loose, Without, Index, Base;
    Killed(s, p, p);
    RemovedPlace(s, p);
    AsleepIs(Step(s, Kill(p)), p);
  }

  // ----- messages

  lemma SendStepIs(s: Sys, dest: int, buffer: bool, len: int)
    requires s.cur != 0
    ensures Step(s, Send(dest, buffer, len)) == Dispatch(DoSend(s, dest, buffer, len))
  {
    hide Dispatch, DoSend;
  }

  lemma RecvStepIs(s: Sys, from: int, buffer: bool, len: int)
    requires s.cur != 0
    ensures Step(s, Recv(from, buffer, len)) == Dispatch(DoRecv(s, from, buffer, len))
  {
    hide Dispatch, DoRecv;
  }

  /** A message to oneself, without a buffer, or to nobody. */
  lemma SendRefused(s: Sys, dest: int, buffer: bool, len: int)
    requires s.cur != 0 && (dest == s.cur || !buffer || dest !in s.place)
    ensures var s' := Step(s, Send(dest, buffer, len));
      && s'.eax == s.eax[s.cur := if dest == s.cur then -2 else if !buffer then -3 else -1]
      && Turn(s', s.ready + [s.cur]) && s'.queues == s.queues && s'.target == s.target
  {
    SendStepIs(s, dest, buffer, len);
    DispatchTurns(DoSend(s, dest, buffer, len));
    hide Step, Dispatch, Turn, Rendezvous, BlockSend;
  }

  lemma RecvRefused(s: Sys, from: int, buffer: bool, len: int)
    requires s.cur != 0 && (from == s.cur || !buffer || (from != 0 && from !in s.place))
    ensures var s' := Step(s, Recv(from, buffer, len));
      && s'.eax == s.eax[s.cur := if from == s.cur then -2 else if !buffer then -3 else -1]
      && Turn(s', s.ready + [s.cur]) && s'.queues == s.queues && s'.target == s.target
  {
    RecvStepIs(s, from, buffer, len);
    DispatchTurns(DoRecv(s, from, buffer, len));
    hide Step, Dispatch, Turn, Rendezvous, BlockRecv;
  }

  /** A sender whose message is not waited for is the last in the queue. */
  lemma SendBlocks(s: Sys, dest: int, len: int)
    requires Inv(s) && s.cur != 0 && dest in s.place && dest != s.cur
    requires dest in s.target && s.target[dest] != s.cur && s.target[dest] != 0
    ensures dest in s.queues
    ensures var s' := Step(s, Send(dest, true, len));
      && s'.queues == s.queues[dest := s.queues[dest] + [s.cur]] && s'.target == s.target
      && s'.eax == s.eax[s.cur := 0] && Turn(s', s.ready)
  {
    InvLoose(s);
    LooseCore(s, {s.cur});
    hide Inv, Core, Loose;
    Live(s, dest);
    SendStepIs(s, dest, true, len);
    DispatchTurns(DoSend(s, dest, true, len));
    hide Step, Dispatch, Turn, Rendezvous;
  }

  lemma RecvBlocks(s: Sys, from: int, len: int)
    requires Inv(s) && s.cur != 0 && from != s.cur && s.cur in s.queues
    requires if from == 0 then s.queues[s.cur] == [] else from in s.place && from !in s.queues[s.cur]
    ensures var s' := Step(s, Recv(from, true, len));
      && s'.target == s.target[s.cur := from] && s'.queues == s.queues
      && s'.eax == s.eax[s.cur := 0] && Turn(s', s.ready)
  {
    RecvStepIs(s, from, true, len);
    DispatchTurns(DoRecv(s, from, true, len));
    hide Step, Dispatch, Turn, Rendezvous, Inv;
  }

  /** What a rendezvous of receiver r with p leaves, p being the k-th in its queue or not in it. */
  lemma MeetIs(s: Sys, r: int, p: int, len: int)
    requires p != 0
    ensures var t := Rendezvous(s, r, p, len);
      && t.ready == s.ready + [p] + (if r == 0 then [] else [r]) && t.eax == s.eax[r := len][p := len]
      && t.target == s.target[r := r] && t.cur == s.cur
      && t.queues == (if p in Queue(s, r) && r in s.queues then s.queues[r := Minus(s.queues[r], p)] else s.queues)
  {
    hide *;
    IdleIs();
    MeetSteps(s, r, p, len);
    var t1 := Withdraw(s, r, p);
    var t2 := StopReceiving(t1, r);
    var t4 := SetEax(SetEax(t2, r, len), p, len);
    EaxIs(t2, r, len);
    EaxIs(SetEax(t2, r, len), p, len);
    ReadyIs(t4, p);
    ReadyIs(MakeReady(t4, p), r);
    assert s.ready + [p] + [] == s.ready + [p];
  }

  lemma MeetSteps(s: Sys, r: int, p: int, len: int)
    ensures Rendezvous(s, r, p, len) ==
      MakeReady(MakeReady(SetEax(SetEax(StopReceiving(Withdraw(s, r, p), r), r, len), p, len), p), r)
    ensures var t := Withdraw(s, r, p);
      && t.ready == s.ready && t.eax == s.eax && t.target == s.target && t.cur == s.cur
      && t.queues == (if p in Queue(s, r) && r in s.queues then s.queues[r := Minus(s.queues[r], p)] else s.queues)
    ensures var t := StopReceiving(Withdraw(s, r, p), r);
      t.ready == s.ready && t.eax == s.eax && t.target == s.target[r := r] && t.cur == s.cur && t.queues == Withdraw(s, r, p).queues
  {
    hide Minus, MakeReady, SetEax;
  }

  /** Sender and receiver get the length and are ready, the sender first. */
  lemma SendMeets(s: Sys, dest: int, len: int)
    requires Inv(s) && s.cur != 0 && dest in s.place && dest != s.cur
    requires dest in s.target && (s.target[dest] == s.cur || s.target[dest] == 0)
    ensures var s' := Step(s, Send(dest, true, len));
      && Turn(s', s.ready + [s.cur] + (if dest == 0 then [] else [dest]))
      && s'.eax == s.eax[dest := len][s.cur := len] && s'.target == s.target[dest := dest] && s'.queues == s.queues
  {
    hide *;
    IdleIs();
    InvLoose(s);
    LooseCore(s, {s.cur});
    RunningIn(s, dest);
    SendStepIs(s, dest, true, len);
    SendMeetIs(s, dest, len);
    MeetIs(s, dest, s.cur, len);
    EaxIs(Rendezvous(s, dest, s.cur, len), s.cur, len);
    DispatchTurns(DoSend(s, dest, true, len));
  }

  lemma RunningIn(s: Sys, d: int)
    requires Inv(s) && s.cur != 0
    ensures s.cur !in Queue(s, d)
  {
    InvLoose(s);
    LooseCore(s, {s.cur});
    if s.cur in Queue(s, d) {
      SenderIs(s, d, s.cur);
    }
    hide Inv, Core, Loose;
  }

  lemma SendMeetIs(s: Sys, dest: int, len: int)
    requires dest in s.place && dest != s.cur && dest in s.target && (s.target[dest] == s.cur || s.target[dest] == 0)
    ensures DoSend(s, dest, true, len) == SetEax(Rendezvous(s, dest, s.cur, len), s.cur, len)
  {
    hide Rendezvous;
  }

  /** The i-th sender leaves the queue: the one asked for, or the first for 0. */
  lemma RecvMeets(s: Sys, from: int, len: int, i: nat)
    requires Inv(s) && s.cur != 0 && s.cur in s.queues && i < |s.queues[s.cur]| && from != s.cur
    requires from == s.queues[s.cur][i] || (from == 0 && i == 0)
    ensures var s' := Step(s, Recv(from, true, len)); var q := s.queues[s.cur];
      && Turn(s', s.ready + [q[i], s.cur]) && s'.queues == s.queues[s.cur := q[..i] + q[i + 1..]]
      && s'.eax == s.eax[s.cur := len][q[i] := len][s.cur := len] && s'.target == s.target[s.cur := s.cur]
  {
    hide *;
    IdleIs();
    InvLoose(s);
    LooseCore(s, {s.cur});
    QueueFacts(s, s.cur);
    QueueIs(s, s.cur);
    var q := s.queues[s.cur];
    assert q[i] in q;
    SenderIs(s, s.cur, q[i]);
    MinusAt(q, i);
    WithoutIs(q, i);
    RecvStepIs(s, from, true, len);
    RecvMeetIs(s, from, len, q[i]);
    MeetIs(s, s.cur, q[i], len);
    assert s.ready + [q[i]] + [s.cur] == s.ready + [q[i], s.cur];
    EaxIs(Rendezvous(s, s.cur, q[i], len), s.cur, len);
    DispatchTurns(DoRecv(s, from, true, len));
  }

  lemma QueueIs(s: Sys, d: int)
    ensures d in s.queues ==> Queue(s, d) == s.queues[d]
  {
  }

  lemma WithoutIs(q: seq<int>, k: nat)
    requires k < |q|
    ensures Without(q, k) == q[..k] + q[k + 1..]
  {
  }

  lemma RecvMeetIs(s: Sys, from: int, len: int, p: int)
    requires Core(s) && s.cur in s.queues && p in s.queues[s.cur] && from != s.cur
    requires from == p || (from == 0 && p == s.queues[s.cur][0])
    ensures DoRecv(s, from, true, len) == SetEax(Rendezvous(s, s.cur, p, len), s.cur, len)
  {
    SenderIs(s, s.cur, p);
    hide Rendezvous, Core, BlockRecv, Refuse;
  }

  // ----- a process stops

  ghost predicate InOrder(q: seq<int>, x: int, y: int) {
    exists a, b :: 0 <= a < b < |q| && q[a] == x && q[b] == y
  }

  /** The receivers stand in the order of the table. */
  lemma {:induction false} RecversOrder(table: seq<int>, target: map<int, int>, p: int, i: nat, j: nat)
    requires i < j < |table|
    requires table[i] in target && target[table[i]] == p && table[i] != p
    requires table[j] in target && target[table[j]] == p && table[j] != p
    ensures InOrder(Recvers(table, target, p), table[i], table[j])
  {
    var rs, rest := Recvers(table, target, p), Recvers(table[1..], target, p);
    if i == 0 {
      RecversHas(table[1..], target, p, j - 1);
      var b :| 0 <= b < |rest| && rest[b] == table[j];
      var first, second := 0, b + 1;
      assert 0 <= first < second < |rs| && rs[first] == table[i] && rs[second] == table[j];
    } else {
      RecversOrder(table[1..], target, p, i - 1, j - 1);
      assert table[1..][i - 1] == table[i] && table[1..][j - 1] == table[j];
      var a, b :| 0 <= a < b < |rest| && rest[a] == table[i] && rest[b] == table[j];
      var d := |rs| - |rest|;
      var first, second := a + d, b + d;
      assert 0 <= first < second < |rs| && rs[first] == table[i] && rs[second] == table[j];
    }
  }

  lemma OrderIs(q: seq<int>, x: int, y: int)
    requires InOrder(q, x, y)
    ensures exists a, b :: 0 <= a < b < |q| && q[a] == x && q[b] == y
  {
  }

  lemma {:induction false} RecversHas(table: seq<int>, target: map<int, int>, p: int, j: nat)
    requires j < |table| && table[j] in target && target[table[j]] == p && table[j] != p
    ensures exists b :: 0 <= b < |Recvers(table, target, p)| && Recvers(table, target, p)[b] == table[j]
  {
    var rs, rest := Recvers(table, target, p), Recvers(table[1..], target, p);
    if j == 0 {
      assert rs[0] == table[j];
    } else {
      RecversHas(table[1..], target, p, j - 1);
      var b :| 0 <= b < |rest| && rest[b] == table[j];
      assert rs[b + |rs| - |rest|] == table[j];
    }
  }

  lemma {:induction false} FailSendersReady(s: Sys, d: int)
    requires IDLE !in Queue(s, d)
    ensures FailSenders(s, d).ready == s.ready + Queue(s, d) && FailSenders(s, d).table == s.table
    ensures FailSenders(s, d).target == s.target && FailSenders(s, d).cur == s.cur
    decreases |Queue(s, d)|
  {
    hide FailSender, Queue;
    if Queue(s, d) == [] {
      assert s.ready + Queue(s, d) == s.ready;
    } else {
      FailSenderFields(s, d);
      OneSender(s, d);
      var t := FailSender(s, d);
      FailSendersReady(t, d);
      assert s.ready + [Queue(s, d)[0]] + Queue(s, d)[1..] == s.ready + Queue(s, d);
    }
  }

  lemma OneSender(s: Sys, d: int)
    requires Queue(s, d) != [] && Queue(s, d)[0] != IDLE
    ensures FailSender(s, d).ready == s.ready + [Queue(s, d)[0]] && FailSender(s, d).cur == s.cur
  {
    hide Minus;
  }

  lemma {:induction false} FailAllReady(s: Sys, rs: seq<int>)
    requires IDLE !in rs
    ensures FailAll(s, rs).ready == s.ready + rs
    decreases rs
  {
    if rs == [] {
      assert s.ready + rs == s.ready;
    } else {
      FailAllReady(FailRecver(s, rs[0]), rs[1..]);
      assert s.ready + [rs[0]] + rs[1..] == s.ready + rs;
    }
  }

  /** Those who were ready go first, then the senders in the order of the queue, then the receivers. */
  lemma StopReady(s: Sys)
    requires Inv(s) && s.cur != 0
    ensures DoStop(s).ready == s.ready + Queue(s, s.cur) + Recvers(s.table, s.target, s.cur)
  {
    hide *;
    IdleIs();
    InvLoose(s);
    LooseCore(s, {s.cur});
    var p := s.cur;
    QueueFacts(s, p);
    FailSendersReady(s, p);
    RecvFacts(s, p);
    var t := FailSenders(s, p);
    FailAllReady(t, Recvers(t.table, t.target, p));
    FailRecversIs(t, p);
    StopIs(s);
  }

  lemma StopIs(s: Sys)
    ensures DoStop(s).ready == FailRecvers(FailSenders(s, s.cur), s.cur).ready
  {
    hide FailRecvers, FailSenders, Minus;
  }

  /** The k-th process of the table waits for a message of the running process. */
  predicate WaitsForCurrent(s: Sys, k: nat) {
    k < |s.table| && s.table[k] in s.target && s.target[s.table[k]] == s.cur && s.table[k] != s.cur
  }

  /** When a process stops, those that were ready go first, then its senders in the order of its
      queue, and behind them its receivers in the order of the table. */
  lemma StopOrder(s: Sys, i: nat, j: nat)
    requires Inv(s) && s.cur != 0 && s.cur in s.queues && i < j && WaitsForCurrent(s, i) && WaitsForCurrent(s, j)
    ensures var s' := Step(s, Stop); var q := [s'.cur] + s'.ready; var first := s.ready + s.queues[s.cur];
      && first <= q
      && exists a, b :: |first| <= a < b < |q| && q[a] == s.table[i] && q[b] == s.table[j]
  {
    hide *;
    IdleIs();
    StopReady(s);
    StopStepIs(s);
    QueueIs(s, s.cur);
    WaitsIs(s, i);
    WaitsIs(s, j);
    RecversOrder(s.table, s.target, s.cur, i, j);
    var rs := Recvers(s.table, s.target, s.cur);
    OrderIs(rs, s.table[i], s.table[j]);
    var a, b :| 0 <= a < b < |rs| && rs[a] == s.table[i] && rs[b] == s.table[j];
    var first := s.ready + s.queues[s.cur];
    var s' := Step(s, Stop);
    DispatchTurns(DoStop(s));
    TurnIs(s', DoStop(s).ready);
    var q := [s'.cur] + s'.ready;
    assert q == first + rs;
    assert q[|first| + a] == s.table[i] && q[|first| + b] == s.table[j];
  }

  lemma TurnIs(s: Sys, q: seq<int>)
    requires Turn(s, q) && q != []
    ensures [s.cur] + s.ready == q
  {
  }

  lemma WaitsIs(s: Sys, k: nat)
    requires WaitsForCurrent(s, k)
    ensures k < |s.table| && s.table[k] in s.target && s.target[s.table[k]] == s.cur && s.table[k] != s.cur
  {
  }

  lemma StopStepIs(s: Sys)
    requires s.cur != 0
    ensures Enabled(s, Stop) && Step(s, Stop) == Dispatch(DoStop(s))
  {
    hide Dispatch, DoStop;
  }

  // ----- what stays when a process stops

  /** What belongs to q, and what belongs to nobody, is the same. */
  ghost predicate Untouched(s: Sys, t: Sys, q: int) {
    && t.table == s.table && t.asleep == s.asleep && t.left == s.left && t.cur == s.cur
    && (q in s.eax ==> q in t.eax && t.eax[q] == s.eax[q])
    && (q in s.target ==> q in t.target && t.target[q] == s.target[q])
    && (q in s.queues ==> q in t.queues && t.queues[q] == s.queues[q])
  }

  lemma UntouchedSame(s: Sys, q: int)
    ensures Untouched(s, s, q)
  {
  }

  lemma UntouchedTwice(s: Sys, t: Sys, u: Sys, q: int)
    requires Untouched(s, t, q) && Untouched(t, u, q)
    ensures Untouched(s, u, q)
  {
  }

  lemma OneSenderLeaves(s: Sys, d: int, q: int)
    requires Queue(s, d) != [] && q != d && q !in Queue(s, d)
    ensures Untouched(s, FailSender(s, d), q)
  {
    hide Minus;
  }

  lemma {:induction false} SendersLeave(s: Sys, d: int, q: int)
    requires q != d && q !in Queue(s, d)
    ensures Untouched(s, FailSenders(s, d), q)
    decreases |Queue(s, d)|
  {
    hide Untouched, FailSender, Queue;
    if Queue(s, d) == [] {
      UntouchedSame(s, q);
    } else {
      OneSenderLeaves(s, d, q);
      FailSenderFields(s, d);
      SendersLeave(FailSender(s, d), d, q);
      UntouchedTwice(s, FailSender(s, d), FailSenders(s, d), q);
    }
  }

  lemma {:induction false} ReceiversLeave(s: Sys, rs: seq<int>, q: int)
    requires q !in rs
    ensures Untouched(s, FailAll(s, rs), q)
    decreases rs
  {
    if rs == [] {
    } else {
      ReceiversLeave(FailRecver(s, rs[0]), rs[1..], q);
    }
  }

  lemma {:induction false} RecversWait(table: seq<int>, target: map<int, int>, p: int, q: int)
    requires q in Recvers(table, target, p)
    ensures q in target && target[q] == p
  {
    if table == [] {
    } else if q in Recvers(table[1..], target, p) {
      RecversWait(table[1..], target, p, q);
    }
  }

  lemma RemoveIs(s: Sys, q: int)
    ensures var t := Remove(s, s.cur); t.table == Minus(s.table, s.cur) && t.asleep == s.asleep && t.left == s.left
    ensures q != s.cur ==> Untouched(s.(table := Minus(s.table, s.cur)), Remove(s, s.cur), q)
  {
    hide Minus;
  }

  lemma StopSteps(s: Sys)
    ensures DoStop(s) == Remove(FailRecvers(FailSenders(s, s.cur), s.cur), s.cur)
  {
    hide FailRecvers, FailSenders, Remove;
  }

  lemma UntouchedIs(s: Sys, t: Sys, q: int)
    requires Untouched(s, t, q)
    ensures t.table == s.table && t.asleep == s.asleep && t.left == s.left && t.cur == s.cur
    ensures q in s.eax ==> q in t.eax && t.eax[q] == s.eax[q]
    ensures q in s.target ==> q in t.target && t.target[q] == s.target[q]
    ensures q in s.queues ==> q in t.queues && t.queues[q] == s.queues[q]
  {
  }

  lemma TableOnce(s: Sys)
    requires Core(s)
    ensures NoDups(s.table)
  {
    hide ReadyInv, QueueInv, SleepInv, RecvInv, NoDups;
  }

  /** The process leaves the table, the sleepers sleep on, and nothing changes for a process that is
      not blocked on it. */
  lemma StopLeaves(s: Sys, k: nat, q: int)
    requires Inv(s) && s.cur != 0 && k < |s.table| && s.table[k] == s.cur && q != s.cur
    requires s.cur in s.queues && q !in s.queues[s.cur] && q in s.target && s.target[q] != s.cur && q in s.eax && q in s.queues
    ensures var s' := Step(s, Stop);
      && s'.table == s.table[..k] + s.table[k + 1..] && s'.asleep == s.asleep && s'.left == s.left
      && q in s'.target && s'.target[q] == s.target[q] && q in s'.eax && s'.eax[q] == s.eax[q]
      && q in s'.queues && s'.queues[q] == s.queues[q]
  {
    hide *;
    IdleIs();
    InvLoose(s);
    LooseCore(s, {s.cur});
    TableOnce(s);
    MinusAt(s.table, k);
    WithoutIs(s.table, k);
    var p := s.cur;
    QueueIs(s, p);
    SendersLeave(s, p, q);
    var t := FailSenders(s, p);
    UntouchedIs(s, t, q);
    var rs := Recvers(t.table, t.target, p);
    if q in rs {
      RecversWait(t.table, t.target, p, q);
    }
    ReceiversLeave(t, rs, q);
    FailRecversIs(t, p);
    var u := FailRecvers(t, p);
    UntouchedTwice(s, t, u, q);
    UntouchedIs(s, u, q);
    RemoveIs(u, q);
    UntouchedIs(u.(table := Minus(u.table, u.cur)), Remove(u, u.cur), q);
    StopSteps(s);
    StopStepIs(s);
    DispatchTurns(DoStop(s));
  }
}
