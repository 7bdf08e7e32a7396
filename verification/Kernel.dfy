// The dispatcher of c/disp.c with the queues of c/msg.c, c/msgQueues.c and c/sleep.c. The process
// control blocks are one map per field of `struct pcb`, from pid to value; pointers are pids.
module Kernel {
  import opened Links
  import opened KernelSpec
  import opened KernelInv
  import opened KernelRuns
  import opened KernelRep
  import opened KernelSleep

  class Kernel {
    const clears: bool    // whether the pointer back of a new first sleeper is cleared; the code does not
    var process: int
    var readyQueue: int
    var sleepList: int
    var table: seq<int>
    var pcbs: Pcbs
    ghost var sys: Sys

    /** Everything but the list of sleepers. */
    ghost predicate QueuesValid()
      reads this
    {
      && RepAll(sys, pcbs, readyQueue)
      && pcbs.targetOfRecv == sys.target && pcbs.eax == sys.eax && table == sys.table && process == sys.cur
      && clears == sys.clears
    }

    ghost predicate SleepValid()
      reads this
    {
      SleepAll(sys, pcbs.sleep, sleepList)
    }

    ghost predicate Valid()
      reads this
    {
      QueuesValid() && SleepValid()
    }

    lemma Meaning()
      ensures QueuesValid() <==>
        (RepAll(sys, pcbs, readyQueue) && pcbs.targetOfRecv == sys.target && pcbs.eax == sys.eax
        && table == sys.table && process == sys.cur && clears == sys.clears)
      ensures SleepValid() <==> SleepAll(sys, pcbs.sleep, sleepList)
      ensures Valid() <==> (QueuesValid() && SleepValid())
      ensures IDLE == 0
    {
    }

    // ----- c/disp.c: the ready queue

    /** ready */
    method Ready(p: int)
      requires QueuesValid() && p in sys.place
      requires sys.place[p] in {Idle, Running, Detached} && (sys.place[p] == Idle ==> p == IDLE)
      modifies `pcbs, `readyQueue, `sys
      ensures QueuesValid() && (old(SleepValid()) ==> SleepValid())
      ensures sys == MakeReady(old(sys), p) && pcbs.sleep == old(pcbs).sleep
    {
      hide *;
      Meaning();
      ReadyFields(sys, p);
      SleepReady(sys, pcbs.sleep, sleepList, p);
      if p == 0 {
        return;
      }
      ReadyFacts(sys, pcbs, readyQueue);
      if readyQueue == NULL {
        ReadyEmpty(sys, pcbs, readyQueue, p);
        readyQueue := p;
        pcbs := pcbs.(prev := pcbs.prev[p := NULL]);
        pcbs := pcbs.(next := pcbs.next[p := NULL]);
        pcbs := pcbs.(state := pcbs.state[p := READY]);
      } else {
        ReadyLists(sys, pcbs, readyQueue);
        var tail := Tail(pcbs.next, readyQueue, sys.ready);
        ReadyBehind(sys, pcbs, readyQueue, p);
        pcbs := pcbs.(next := pcbs.next[tail := p]);
        pcbs := pcbs.(prev := pcbs.prev[p := tail]);
        pcbs := pcbs.(next := pcbs.next[p := NULL]);
        pcbs := pcbs.(state := pcbs.state[p := READY]);
      }
      sys := MakeReady(sys, p);
      Meaning();
    }

    /** next, whose result becomes the running process */
    method Next()
      requires QueuesValid()
      modifies `pcbs, `readyQueue, `process, `sys
      ensures QueuesValid() && (old(SleepValid()) ==> SleepValid())
      ensures sys == Dispatch(old(sys)) && pcbs.sleep == old(pcbs).sleep
    {
      hide *;
      Meaning();
      ReadyFacts(sys, pcbs, readyQueue);
      RepCore(sys, pcbs, readyQueue);
      SleepDispatch(sys, pcbs.sleep, sleepList);
      DispatchFields(sys);
      if readyQueue == NULL {
        DispatchIdle(sys, pcbs, readyQueue);
        process := 0;
        sys := Dispatch(sys);
        Meaning();
        return;
      }
      var nextProcess := readyQueue;
      ghost var prev' := if pcbs.next[readyQueue] != NULL then pcbs.prev[pcbs.next[readyQueue] := NULL][readyQueue := NULL] else pcbs.prev[readyQueue := NULL];
      DispatchFirst(sys, pcbs, readyQueue, prev');
      if pcbs.next[readyQueue] != NULL {
        readyQueue := pcbs.next[readyQueue];
        pcbs := pcbs.(prev := pcbs.prev[readyQueue := NULL]);
      } else {
        readyQueue := NULL;
      }
      pcbs := pcbs.(next := pcbs.next[nextProcess := NULL]);
      pcbs := pcbs.(prev := pcbs.prev[nextProcess := NULL]);
      pcbs := pcbs.(state := pcbs.state[nextProcess := RUNNING]);
      process := nextProcess;
      sys := Dispatch(sys);
      Meaning();
    }

    // ----- c/msgQueues.c

    /** isProcReceiving */
    predicate IsProcReceiving(recver: int, sender: int)
      requires recver in pcbs.targetOfRecv
      reads this
    {
      pcbs.targetOfRecv[recver] == sender || pcbs.targetOfRecv[recver] == 0
    }

    lemma ReceivingIs(recver: int, sender: int)
      ensures recver in pcbs.targetOfRecv ==>
        (IsProcReceiving(recver, sender) <==> pcbs.targetOfRecv[recver] == sender || pcbs.targetOfRecv[recver] == 0)
    {
    }

    /** addBlockedSender */
    method AddBlockedSender(recver: int, sender: int)
      requires QueuesValid() && recver in sys.place && sender in sys.place && sys.place[sender] == Detached
      requires sender in pcbs.state && pcbs.state[sender] == BLOCKED && sender != IDLE && sender != recver
      requires Target(sys, recver) != sender && Target(sys, recver) != 0
      modifies `pcbs, `sys
      ensures QueuesValid() && (old(SleepValid()) ==> SleepValid())
      ensures sys == BlockSend(old(sys), recver, sender)
    {
      hide *;
      Meaning();
      var b := pcbs;
      ghost var s := sys;
      BlockSendFields(s, recver, sender);
      SleepBlockSend(s, b.sleep, sleepList, recver, sender);
      SenderFacts(s, b, readyQueue, recver);
      var node := b.senderQueue[recver];
      if node == NULL {
        SenderFirst(s, b, readyQueue, recver, sender);
        pcbs := b.(senderQueue := b.senderQueue[recver := sender]);
      } else {
        node := Tail(b.next, node, Queue(s, recver));
        SenderBehind(s, b, readyQueue, recver, sender);
        pcbs := b.(next := b.next[node := sender][sender := NULL]);
      }
      sys := BlockSend(s, recver, sender);
      Meaning();
    }

    /** rmBlockedSender */
    method RmBlockedSender(recver: int, sender: int) returns (ok: bool)
      requires QueuesValid() && recver in sys.place
      modifies `pcbs, `sys
      ensures QueuesValid() && (old(SleepValid()) ==> SleepValid())
      ensures sys == Withdraw(old(sys), recver, sender) && ok == (sender in Queue(old(sys), recver))
    {
      hide *;
      Meaning();
      var b := pcbs;
      ghost var s := sys;
      ghost var q := Queue(s, recver);
      SenderFacts(s, b, readyQueue, recver);
      RepCore(s, b, readyQueue);
      WithdrawFields(s, recver, sender);
      SleepWithdraw(s, b.sleep, sleepList, recver, sender);
      var node := b.senderQueue[recver];
      if node == NULL {
        return false;
      }
      if node == sender {
        SenderLeavesFirst(s, b, readyQueue, recver);
        pcbs := b.(senderQueue := b.senderQueue[recver := b.next[sender]], next := b.next[sender := NULL]);
        sys := Withdraw(s, recver, sender);
        Meaning();
        return true;
      }
      ghost var k: nat;
      node, k := Before(b.next, node, sender, q);
      if b.next[node] != NULL {
        SenderLeaves(s, b, readyQueue, recver, k + 1);
        pcbs := b.(next := b.next[node := b.next[sender]][sender := NULL]);
        sys := Withdraw(s, recver, sender);
        Meaning();
        return true;
      }
      return false;
    }

    /** isProcSending */
    method IsProcSending(sender: int, recver: int) returns (sending: bool)
      requires QueuesValid() && recver in sys.place
      ensures sending == if sender == 0 then Queue(sys, recver) != [] else sender in Queue(sys, recver)
    {
      hide RepAll, Linked;
      ghost var q := Queue(sys, recver);
      SenderFacts(sys, pcbs, readyQueue, recver);
      var node := pcbs.senderQueue[recver];
      if sender == 0 && node != NULL {
        return true;
      }
      sending := InList(pcbs.next, node, sender, q);
    }

    /** rmBlockedRecver */
    method RmBlockedRecver(recver: int)
      requires QueuesValid() && recver in sys.place && sys.place[recver] in {Idle, Running, Receiving, Detached}
      modifies `pcbs, `sys
      ensures QueuesValid() && (old(SleepValid()) ==> SleepValid())
      ensures sys == StopReceiving(old(sys), recver)
    {
      hide *;
      Meaning();
      ReceiverLeaves(sys, pcbs, readyQueue, recver);
      StopReceivingFields(sys, recver);
      SleepStopReceiving(sys, pcbs.sleep, sleepList, recver);
      TargetOnly(StopReceiving(sys, recver), pcbs, readyQueue, pcbs.targetOfRecv[recver := recver]);
      pcbs := pcbs.(targetOfRecv := pcbs.targetOfRecv[recver := recver]);
      sys := StopReceiving(sys, recver);
      Meaning();
    }

    /** The register in which a process finds what its system call returns. */
    method ReturnTo(p: int, v: int)
      requires QueuesValid()
      modifies `pcbs, `sys
      ensures QueuesValid() && (old(SleepValid()) ==> SleepValid())
      ensures sys == SetEax(old(sys), p, v) && pcbs.sleep == old(pcbs).sleep
    {
      hide *;
      Meaning();
      SetsEax(sys, pcbs, readyQueue, p, v);
      EaxFields(sys, p, v);
      SleepEax(sys, pcbs.sleep, sleepList, p, v);
      EaxOnly(SetEax(sys, p, v), pcbs, readyQueue, pcbs.eax[p := v]);
      pcbs := pcbs.(eax := pcbs.eax[p := v]);
      sys := SetEax(sys, p, v);
      Meaning();
    }

    /** Clears the links of a process that is in no list. */
    method ClearLinks(p: int)
      requires QueuesValid() && p in sys.place && sys.place[p] != KernelSpec.Ready && !sys.place[p].SendingTo?
      modifies `pcbs
      ensures QueuesValid() && (old(SleepValid()) ==> SleepValid())
    {
      hide *;
      Meaning();
      Unlinked(sys, pcbs, readyQueue, p);
      pcbs := pcbs.(next := pcbs.next[p := NULL], prev := pcbs.prev[p := NULL]);
      Meaning();
    }

    // ----- c/msg.c

    /** runSend, the copied length being len */
    method RunSend(dest: int, sender: int, len: int)
      requires QueuesValid() && MayMeet(sys, dest, sender)
      modifies `readyQueue, `pcbs, `sys
      ensures QueuesValid() && (old(SleepValid()) ==> SleepValid())
      ensures sys == Rendezvous(old(sys), dest, sender, len)
    {
      hide *;
      ghost var s := sys;
      Meeting(s, dest, sender, len);
      var _ := RmBlockedSender(dest, sender);
      RmBlockedRecver(dest);
      ReturnTo(dest, len);
      ReturnTo(sender, len);
      ClearLinks(dest);
      ClearLinks(sender);
      Ready(sender);
      Ready(dest);
    }

    /** send */
    method Send(dest: int, buffer: bool, len: int) returns (r: int)
      requires QueuesValid() && Inv(sys) && sys.cur != IDLE
      modifies `readyQueue, `pcbs, `sys
      ensures QueuesValid() && (old(SleepValid()) ==> SleepValid())
      ensures SetEax(sys, process, r) == DoSend(old(sys), dest, buffer, len)
    {
      hide *;
      ghost var s := sys;
      var p := process;
      Meaning();
      Caller(s);
      ReceivingIs(dest, p);
      SendIs(s, p, dest, buffer, len);
      GetPcb(s, dest);
      if dest == p {
        Ready(p);
        return -2;
      }
      if !buffer {
        Ready(p);
        return -3;
      }
      if dest !in table {
        Ready(p);
        return -1;
      }
      TargetIs(s, dest);
      if IsProcReceiving(dest, p) {
        SendMeets(s, dest, p);
        RunSend(dest, p, len);
        return len;
      }
      Block(p, BLOCKED);
      DetachedIs(s, p, dest);
      AddBlockedSender(dest, p);
      return 0;
    }

    /** A process leaves the running state for the given one. */
    method Block(p: int, v: int)
      requires QueuesValid() && p in sys.place && sys.place[p] in {Running, Detached} && p != IDLE
      modifies `pcbs, `sys
      ensures QueuesValid() && (old(SleepValid()) ==> SleepValid())
      ensures sys == old(sys).(place := old(sys).place[p := Detached]) && p in pcbs.state && pcbs.state[p] == v
      ensures pcbs == old(pcbs).(state := old(pcbs).state[p := v])
    {
      hide *;
      Meaning();
      Detach(sys, pcbs, readyQueue, p, v);
      SleepPlace(sys, pcbs.sleep, sleepList, p, Detached);
      pcbs := pcbs.(state := pcbs.state[p := v]);
      sys := sys.(place := sys.place[p := Detached]);
      Meaning();
    }

    /** recv */
    method Recv(from: int, buffer: bool, len: int) returns (r: int)
      requires QueuesValid() && Inv(sys) && sys.cur != IDLE
      modifies `readyQueue, `pcbs, `sys
      ensures QueuesValid() && (old(SleepValid()) ==> SleepValid())
      ensures SetEax(sys, process, r) == DoRecv(old(sys), from, buffer, len)
    {
      hide *;
      ghost var s := sys;
      var p := process;
      Meaning();
      Caller(s);
      RecvIs(s, p, from, buffer, len);
      GetPcb(s, from);
      if from == p {
        Ready(p);
        return -2;
      }
      if !buffer {
        Ready(p);
        return -3;
      }
      if from != 0 && from !in table {
        Ready(p);
        return -1;
      }
      var sending := IsProcSending(from, p);
      if sending {
        var sender := from;
        SenderFacts(s, pcbs, readyQueue, p);
        if from == 0 {
          sender := pcbs.senderQueue[p];
        }
        RecvMeets(s, p, sender);
        RunSend(p, sender, len);
        return len;
      }
      Block(p, BLOCKED);
      DetachedIs(s, p, from);
      AddBlockedRecver(from, p);
      return 0;
    }

    /** addBlockedRecver */
    method AddBlockedRecver(sender: int, recver: int)
      requires QueuesValid() && recver in sys.place && sys.place[recver] == Detached && sender != recver
      requires recver in pcbs.state && pcbs.state[recver] == BLOCKED
      requires if sender == 0 then Queue(sys, recver) == [] else sender in sys.place && sender !in Queue(sys, recver)
      modifies `pcbs, `sys
      ensures QueuesValid() && (old(SleepValid()) ==> SleepValid())
      ensures sys == BlockRecv(old(sys), recver, sender)
    {
      hide *;
      Meaning();
      ReceiverBlocks(sys, pcbs, readyQueue, recver, sender);
      BlockRecvFields(sys, recver, sender);
      SleepBlockRecv(sys, pcbs.sleep, sleepList, recver, sender);
      TargetOnly(BlockRecv(sys, recver, sender), pcbs, readyQueue, pcbs.targetOfRecv[recver := sender]);
      pcbs := pcbs.(targetOfRecv := pcbs.targetOfRecv[recver := sender]);
      sys := BlockRecv(sys, recver, sender);
      Meaning();
    }

    // ----- a process ends

    /** cleanUpSendersHelper */
    method CleanUpSendersHelper(p: int, sender: int) returns (node: int)
      requires QueuesValid() && p in sys.place && Queue(sys, p) != [] && sender == Queue(sys, p)[0]
      modifies `readyQueue, `pcbs, `sys
      ensures QueuesValid() && (old(SleepValid()) ==> SleepValid())
      ensures sys == FailSender(old(sys), p) && p in sys.place
      ensures node == First(Queue(sys, p))
    {
      hide *;
      ghost var s := sys;
      Meaning();
      SenderFacts(s, pcbs, readyQueue, p);
      RepCore(s, pcbs, readyQueue);
      FollowTo(pcbs.next, pcbs.senderQueue[p], Queue(s, p), 0);
      FailSenderSteps(s, p);
      node := pcbs.next[sender];
      var _ := RmBlockedSender(p, sender);
      ReturnTo(sender, -1);
      Ready(sender);
    }

    /** cleanUpSenders */
    method CleanUpSenders(p: int)
      requires QueuesValid() && p in sys.place
      modifies `readyQueue, `pcbs, `sys
      ensures QueuesValid() && (old(SleepValid()) ==> SleepValid())
      ensures sys == FailSenders(old(sys), p)
    {
      hide *;
      Meaning();
      SenderFacts(sys, pcbs, readyQueue, p);
      FirstIs(Queue(sys, p));
      var node := pcbs.senderQueue[p];
      while node != NULL
        invariant QueuesValid() && (old(SleepValid()) ==> SleepValid()) && p in sys.place
        invariant node == First(Queue(sys, p))
        invariant FailSenders(sys, p) == FailSenders(old(sys), p)
        decreases |Queue(sys, p)|
      {
        Meaning();
        SenderNode(sys, pcbs, readyQueue, p);
        FailSendersStep(sys, p);
        node := CleanUpSendersHelper(p, node);
      }
      Meaning();
      SenderNode(sys, pcbs, readyQueue, p);
      FailSendersStep(sys, p);
    }

    /** getAllRecvers, which looks at every slot of the table */
    method GetAllRecvers(p: int) returns (pids: seq<int>)
      requires forall q :: q in table ==> q in pcbs.targetOfRecv
      ensures pids == Recvers(table, pcbs.targetOfRecv, p)
    {
      pids := [];
      var j := 0;
      while j < |table|
        invariant 0 <= j <= |table|
        invariant pids + Recvers(table[j..], pcbs.targetOfRecv, p) == Recvers(table, pcbs.targetOfRecv, p)
      {
        assert table[j] in table;
        assert table[j..][0] == table[j] && table[j..][1..] == table[j + 1..];
        if pcbs.targetOfRecv[table[j]] == p && table[j] != p {
          assert pids + ([table[j]] + Recvers(table[j + 1..], pcbs.targetOfRecv, p)) ==
            pids + [table[j]] + Recvers(table[j + 1..], pcbs.targetOfRecv, p);
          pids := pids + [table[j]];
        }
        j := j + 1;
      }
    }

    /** cleanUpRecversHelper */
    method CleanUpRecversHelper(recver: int)
      requires QueuesValid() && recver in sys.place && sys.place[recver] == Receiving
      modifies `readyQueue, `pcbs, `sys
      ensures QueuesValid() && (old(SleepValid()) ==> SleepValid())
      ensures sys == FailRecver(old(sys), recver)
    {
      hide *;
      Meaning();
      RepCore(sys, pcbs, readyQueue);
      FailRecverSteps(sys, recver);
      RmBlockedRecver(recver);
      ReturnTo(recver, -1);
      Ready(recver);
    }

    /** cleanUpRecvers; the list of receivers ends at pid 0 */
    method CleanUpRecvers(p: int)
      requires QueuesValid() && p != IDLE
      modifies `readyQueue, `pcbs, `sys
      ensures QueuesValid() && (old(SleepValid()) ==> SleepValid())
      ensures sys == FailRecvers(old(sys), p)
    {
      hide *;
      Meaning();
      RepCore(sys, pcbs, readyQueue);
      AllLive(sys);
      RecversWait(sys, p);
      FailRecversIs(sys, p);
      var recvers := GetAllRecvers(p);
      var i := 0;
      assert recvers[0..] == recvers;
      while i < |recvers| && recvers[i] != 0
        invariant 0 <= i <= |recvers|
        invariant QueuesValid() && (old(SleepValid()) ==> SleepValid())
        invariant Waiting(sys, recvers[i..]) && FailAll(sys, recvers[i..]) == FailAll(old(sys), recvers)
        decreases |recvers| - i
      {
        Meaning();
        RepCore(sys, pcbs, readyQueue);
        assert recvers[i..][0] == recvers[i] && recvers[i..][1..] == recvers[i + 1..];
        OneRecver(sys, recvers[i..]);
        CleanUpRecversHelper(recvers[i]);
        i := i + 1;
      }
      if i < |recvers| {
        Meaning();
        RepCore(sys, pcbs, readyQueue);
        assert recvers[i..][0] == recvers[i];
        OneRecver(sys, recvers[i..]);
        assert false;
      }
      assert recvers[i..] == [];
      NoRecver(sys);
    }

    /** removeProcess */
    method RemoveProcess(p: int)
      requires QueuesValid() && p in sys.place && sys.place[p] in {Running, Detached} && p != IDLE && Forsaken(sys, p)
      modifies `table, `pcbs, `sys, `process
      ensures QueuesValid() && (old(SleepValid()) ==> SleepValid())
      ensures sys == Remove(old(sys), p)
    {
      hide *;
      Meaning();
      var b := pcbs;
      ghost var s := sys;
      RepCore(s, b, readyQueue);
      BlockDropped(s, b, readyQueue, p);
      SleepRemoved(s, b.sleep, sleepList, p);
      RemoveFields(s, b, p);
      table := Minus(table, p);
      pcbs := Drop(b, p);
      sys := Remove(s, p);
      Meaning();
    }

    /** cleanup of the running process, which is in no list but the table */
    method Cleanup(p: int)
      requires QueuesValid() && Inv(sys) && p == sys.cur && p != IDLE
      modifies `readyQueue, `pcbs, `sys, `table, `process
      ensures QueuesValid() && (old(SleepValid()) ==> SleepValid())
      ensures sys == DoStop(old(sys))
    {
      hide *;
      Stopping(sys);
      CleanUpSenders(p);
      CleanUpRecvers(p);
      RemoveProcess(p);
    }

    // ----- c/sleep.c

    /** The loop of addToSleepList, down to the place of p in the list or to its end. */
    method FindSlot(p: int, t: int) returns (z: SleepFields, current: int, atEnd: bool, ghost k: nat)
      requires Valid() && sys.asleep != [] && p !in sys.asleep
      ensures z.next == pcbs.sleep.next && z.prev == pcbs.sleep.prev
      ensures k == Slot(sys.asleep, sys.left, t) && atEnd == (k == |sys.asleep|)
      ensures z.time == pcbs.sleep.time[p := t - Base(sys.asleep, sys.left, k)]
      ensures current == if atEnd then Last(sys.asleep) else sys.asleep[k]
    {
      hide *;
      Meaning();
      z := pcbs.sleep;
      ghost var y := z;
      RepCore(sys, pcbs, readyQueue);
      SleeperFacts(sys, y, sleepList);
      z := z.(time := z.time[p := t]);
      current := sleepList;
      k := 0;
      BaseIs(sys, 0);
      SleeperAt(sys, y, sleepList, 0);
      while z.time[current] <= z.time[p]
        invariant k < |sys.asleep| && current == sys.asleep[k] && current in y.next && current in y.time && current != p
        invariant z.next == y.next && z.prev == y.prev && z.time == y.time[p := t - Base(sys.asleep, sys.left, k)]
        invariant forall i :: 0 <= i < k ==> sys.asleep[i] in sys.left && sys.left[sys.asleep[i]] <= t
        decreases |sys.asleep| - k
      {
        SleeperAt(sys, y, sleepList, k);
        BaseIs(sys, k + 1);
        z := z.(time := z.time[p := z.time[p] - z.time[current]]);
        if z.next[current] == NULL {
          k := k + 1;
          SlotHere(sys, k, t);
          return z, current, true, k;
        }
        current := z.next[current];
        k := k + 1;
        SleeperAt(sys, y, sleepList, k);
      }
      SleeperAt(sys, y, sleepList, k);
      SlotHere(sys, k, t);
      return z, current, false, k;
    }

    /** addToSleepList. The list is right exactly unless the process would have to become the first
        of a list whose first sleeper still points back. */
    method AddToSleepList(p: int, t: int)
      requires Valid() && p in sys.place && sys.place[p] == Detached && p in pcbs.state && pcbs.state[p] == SLEEPING
      modifies `pcbs, `sleepList, `sys
      ensures QueuesValid() && sys == FallAsleep(old(sys), p, t)
      ensures SleepValid() <==> SleepOk(old(sys), t)
      ensures !SleepOk(old(sys), t) ==>
        && sleepList == old(sleepList) && HasFields(old(pcbs).sleep, sleepList)
        && pcbs.sleep == Misplaced(old(pcbs).sleep, sleepList, p, t)
    {
      hide *;
      Meaning();
      var b := pcbs;
      ghost var s := sys;
      RepCore(s, b, readyQueue);
      SleeperFacts(s, b.sleep, sleepList);
      AwakeKeys(s, b.sleep, sleepList, p);
      SleeperJoins(s, b, readyQueue, p, t);
      FallAsleepFields(s, p, t);
      OkIs(s, t);
      var z := b.sleep;
      var first := sleepList;
      if sleepList == NULL {
        JoinsEmpty(s, b.sleep, sleepList, p, t);
        z := SleepFields(z.next[p := NULL], z.prev[p := NULL], z.time[p := t]);
        first := p;
      } else {
        var current, atEnd;
        ghost var k;
        z, current, atEnd, k := FindSlot(p, t);
        if atEnd {
          JoinsLast(s, b.sleep, sleepList, p, t);
          z := SleepFields(z.next[current := p][p := NULL], z.prev[p := current], z.time);
        } else {
          SleeperAt(s, b.sleep, sleepList, k);
          JoinsInside(s, b.sleep, sleepList, k, p, t);
          FieldsOf(b.sleep, sleepList);
          if z.prev[current] != NULL {
            var before := z.prev[current];
            z := SleepFields(z.next[p := current][before := p], z.prev[p := before][current := p],
                             z.time[current := z.time[current] - z.time[p]]);
          } else {
            z := SleepFields(z.next[p := current], z.prev[current := p], z.time[current := z.time[current] - z.time[p]]);
            first := p;
          }
        }
      }
      SleepOnly(FallAsleep(s, p, t), b, readyQueue, z);
      pcbs := b.(sleep := z);
      sleepList := first;
      sys := FallAsleep(s, p, t);
      Meaning();
    }

    /** wake, for a first sleeper that is due now */
    method Wake()
      requires Valid() && sys.asleep != [] && sleepList in pcbs.sleep.time && pcbs.sleep.time[sleepList] == 0
      modifies `pcbs, `sleepList, `readyQueue, `sys
      ensures Valid() && sys == KernelSpec.Wake(old(sys))
    {
      hide *;
      Meaning();
      var b := pcbs;
      ghost var s := sys;
      var popped := sleepList;
      RepCore(s, b, readyQueue);
      SleeperFacts(s, b.sleep, sleepList);
      CorePopped(s);
      PopSleeper(s, b.sleep, sleepList);
      SleeperPops(s, b, readyQueue);
      PoppedFields(s);
      var z := b.sleep.(next := b.sleep.next[popped := NULL], prev := b.sleep.prev[popped := NULL]);
      sleepList := b.sleep.next[popped];
      ClearedIs(z.prev, clears, sleepList);
      if clears && sleepList != NULL {
        z := z.(prev := z.prev[sleepList := NULL]);    // not in the code
      }
      SleepOnly(Popped(s), b, readyQueue, z);
      pcbs := b.(sleep := z);
      sys := Popped(s);
      Meaning();
      ReturnTo(popped, b.sleep.time[popped]);
      PoppedPlace(s, popped, 0);
      Ready(popped);
      Meaning();
    }

    /** Changes the time of the first sleeper, and with it what everybody has left. */
    method SetFirstTime(v: int)
      requires Valid() && sys.asleep != [] && sleepList in pcbs.sleep.time
      modifies `pcbs, `sys
      ensures Valid() && sys == Shift(old(sys), v - old(pcbs).sleep.time[sleepList])
      ensures sleepList in pcbs.sleep.time && pcbs.sleep.time[sleepList] == v
    {
      hide *;
      Meaning();
      ghost var d := v - pcbs.sleep.time[sleepList];
      Retime(sys, pcbs.sleep, sleepList, v);
      ShiftFields(sys, d);
      Shifts(sys, pcbs, readyQueue, d);
      SleepOnly(Shift(sys, d), pcbs, readyQueue, pcbs.sleep.(time := pcbs.sleep.time[sleepList := v]));
      pcbs := pcbs.(sleep := pcbs.sleep.(time := pcbs.sleep.time[sleepList := v]));
      sys := Shift(sys, d);
      Meaning();
    }

    /** tick */
    method Tick()
      requires Valid()
      modifies `pcbs, `sleepList, `readyQueue, `sys
      ensures Valid() && sys == KernelSpec.Tick(old(sys))
    {
      hide *;
      Meaning();
      SleeperFacts(sys, pcbs.sleep, sleepList);
      TickIs(sys);
      if sleepList == NULL {
        return;
      }
      ShiftElapse(sys);
      SetFirstTime(pcbs.sleep.time[sleepList] - TIME_SLICE);
      Meaning();
      SleeperFacts(sys, pcbs.sleep, sleepList);
      while sleepList != NULL && pcbs.sleep.time[sleepList] <= 0
        invariant Valid() && WakeDue(sys) == KernelSpec.Tick(old(sys))
        invariant sleepList == NULL <==> sys.asleep == []
        invariant sleepList != NULL ==> sleepList in pcbs.sleep.time
        decreases |sys.asleep|
      {
        ghost var s := sys;
        Meaning();
        SleeperAt(sys, pcbs.sleep, sleepList, 0);
        SleeperFacts(sys, pcbs.sleep, sleepList);
        RepCore(sys, pcbs, readyQueue);
        BaseIs(s, 0);
        OneDue(s);
        if pcbs.sleep.time[sleepList] == 0 {
          Wake();
        } else {
          var timeDiff := -pcbs.sleep.time[sleepList];
          SetFirstTime(0);
          ShiftFields(s, timeDiff);
          Wake();
          Meaning();
          SleeperFacts(sys, pcbs.sleep, sleepList);
          ShiftFields(KernelSpec.Wake(Shift(s, timeDiff)), -timeDiff);
          ShiftWake(s, timeDiff);
          OneWaking(s, timeDiff);
          if sleepList != NULL {
            SetFirstTime(pcbs.sleep.time[sleepList] - timeDiff);
          } else {
            ShiftWakeLast(s, timeDiff);
          }
        }
        Meaning();
        SleeperFacts(sys, pcbs.sleep, sleepList);
      }
      Meaning();
      NoneDue(sys, pcbs.sleep, sleepList);
    }

    /** The links of removeFromSleepList. */
    method TakeOut(sleepers: SleepFields, head: int, p: int) returns (z: SleepFields, sleepList: int)
      requires CanTake(sleepers, p)
      ensures z == if sleepers.prev[p] != NULL then TakeLater(sleepers, p) else TakeFirst(sleepers, p, clears)
      ensures sleepList == if sleepers.prev[p] != NULL then head else sleepers.next[p]
    {
      hide *;
      z := sleepers;
      FieldsOf(z, p);
      TakeIs(z, p, clears);
      if z.prev[p] != NULL {
        sleepList := head;
        if z.next[p] == NULL {
          z := z.(next := z.next[z.prev[p] := NULL]);
        } else {
          z := SleepFields(z.next[z.prev[p] := z.next[p]], z.prev[z.next[p] := z.prev[p]],
                           z.time[z.next[p] := z.time[z.next[p]] + z.time[p]]);
        }
        z := z.(next := z.next[p := NULL], prev := z.prev[p := NULL]);
      } else {
        if z.next[p] == NULL {
          sleepList := NULL;
        } else {
          z := z.(time := z.time[z.next[p] := z.time[z.next[p]] + z.time[p]]);
          sleepList := z.next[p];
        }
        z := z.(next := z.next[p := NULL], prev := z.prev[p := NULL]);
        ClearedIs(z.prev, clears, sleepList);
        if clears && sleepList != NULL {
          z := z.(prev := z.prev[sleepList := NULL]);    // not in the code
        }
      }
    }

    /** removeFromSleepList. The list is right exactly unless the first sleeper, still pointing back,
        leaves. */
    method RemoveFromSleepList(p: int) returns (ok: bool)
      requires Valid() && p in sys.place && sys.place[p] != Idle && sys.place[p] != Detached
      modifies `pcbs, `sleepList, `sys
      ensures ok == (old(sys).place[p] == Asleep)
      ensures !ok ==> Valid() && sys == old(sys)
      ensures ok ==> QueuesValid() && p in old(sys).asleep && p in old(sys).left && sys == Removed(old(sys), p)
      ensures ok ==> (SleepValid() <==> RemoveOk(old(sys), p))
      ensures ok && !RemoveOk(old(sys), p) ==>
        && sleepList == old(sleepList) == p && CanTake(old(pcbs).sleep, p)
        && pcbs.sleep == TakeLater(old(pcbs).sleep, p)
    {
      hide *;
      Meaning();
      var b := pcbs;
      ghost var s := sys;
      RepCore(s, b, readyQueue);
      StateIs(s, b, readyQueue, p);
      if b.state[p] != SLEEPING {
        return false;
      }
      IsAsleep(s, p);
      SleeperLeaves(s, b.sleep, sleepList, p);
      FieldsOf(b.sleep, p);
      var z, head := TakeOut(b.sleep, sleepList, p);
      sleepList := head;
      pcbs := b.(sleep := z, state := b.state[p := 0], eax := b.eax[p := b.sleep.time[p]]);
      SleeperGone(s, b, readyQueue, p, z);
      RemovedFields(s, p);
      sys := Removed(s, p);
      Meaning();
      return true;
    }

    /** sleep */
    method Sleep(ms: nat)
      requires Valid() && Inv(sys) && sys.cur != IDLE
      modifies `pcbs, `sleepList, `readyQueue, `sys
      ensures QueuesValid() && sys == DoSleep(old(sys), ms)
      ensures SleepValid() <==> ms == 0 || SleepOk(old(sys), ms)
      ensures !(ms == 0 || SleepOk(old(sys), ms)) ==>
        && sleepList == old(sleepList) && HasFields(old(pcbs).sleep, sleepList)
        && pcbs.sleep == Misplaced(old(pcbs).sleep, sleepList, process, ms)
    {
      hide *;
      Meaning();
      ghost var s := sys;
      var p := process;
      Caller(s);
      SleepIs(s, p, ms);
      if ms == 0 {
        ReturnTo(p, 0);
        Ready(p);
        Meaning();
        return;
      }
      Block(p, SLEEPING);
      DetachedIs(s, p, ms);
      Meaning();
      AddToSleepList(p, ms);
    }

    // ----- the arms of dispatch

    /** The arm of signal for a sleeper, and the answer to the caller */
    method Kill(pid: int)
      requires Valid() && Inv(sys) && Enabled(sys, Request.Kill(pid))
      modifies `pcbs, `sleepList, `readyQueue, `sys
      ensures QueuesValid() && pid in old(sys).asleep && pid in old(sys).left && sys == DoKill(old(sys), pid)
      ensures RemoveOk(old(sys), pid) ==> SleepValid()
      ensures !RemoveOk(old(sys), pid) ==>
        && sleepList == old(sleepList) == pid && CanTake(old(pcbs).sleep, pid)
        && pcbs.sleep == TakeLater(old(pcbs).sleep, pid)
    {
      hide *;
      Killing(sys, pid);
      var _ := RemoveFromSleepList(pid);
      Ready(pid);
      Meaning();
      ReturnTo(process, 0);
    }

    /** create, with the pid and the slot that findFreePcb chose */
    method Create(pid: int, slot: nat)
      requires Valid() && Inv(sys) && Enabled(sys, Request.Create(pid, slot))
      modifies this
      ensures Valid() && sys == DoCreate(old(sys), pid, slot)
    {
      hide *;
      Meaning();
      var b := pcbs;
      ghost var s := sys;
      RepCore(s, b, readyQueue);
      Creating(s, b, pid, slot);
      BlockAdded(s, b, readyQueue, pid, slot);
      SleepAdded(s, b, sleepList, pid, slot);
      table := Inserted(table, slot, pid);
      pcbs := Fresh(b, pid);
      sys := Added(s, pid, slot);
      Meaning();
      Ready(pid);
      Meaning();
      ReturnTo(process, pid);
      Meaning();
    }

    /** One turn of the loop of dispatch. */
    method Serve(r: Request)
      requires Valid() && Inv(sys) && Enabled(sys, r)
      modifies this
      ensures QueuesValid() && Inv(sys) && sys == Step(old(sys), r)
      ensures SleepValid() <==> Linkable(old(sys), r)
      ensures r.Sleep? && !Linkable(old(sys), r) ==>
        && sleepList == old(sleepList) && HasFields(old(pcbs).sleep, sleepList)
        && pcbs.sleep == Misplaced(old(pcbs).sleep, sleepList, old(process), r.ms)
      ensures r.Kill? && !Linkable(old(sys), r) ==>
        && sleepList == old(sleepList) == r.pid && CanTake(old(pcbs).sleep, r.pid)
        && pcbs.sleep == TakeLater(old(pcbs).sleep, r.pid)
    {
      hide *;
      Meaning();
      ghost var s := sys;
      ghost var z := pcbs.sleep;
      StepIs(s, r);
      CurIs(s);
      match r {
        case Create(pid, slot) =>
          Create(pid, slot);
        case Yield =>
          Ready(process);
          Next();
        case Stop =>
          Cleanup(process);
          Next();
        case Timer =>
          Tick();
          Meaning();
          TickCurIs(s);
          Ready(process);
          Next();
        case Send(dest, buffer, len) =>
          var v := Send(dest, buffer, len);
          ReturnTo(process, v);
          Next();
        case Recv(from, buffer, len) =>
          var v := Recv(from, buffer, len);
          ReturnTo(process, v);
          Next();
        case Sleep(ms) =>
          Sleep(ms);
          Meaning();
          Next();
        case Kill(pid) =>
          Kill(pid);
      }
      Meaning();
      StepKeeps(s, r);
      if !Linkable(s, r) {
        WronglyLinked(s, z, sleepList, r, pcbs.sleep);
      }
    }

    /** The loop of dispatch over the requests that come. */
    method DispatchLoop(rs: seq<Request>)
      requires Valid() && Inv(sys) && CanServe(sys, rs)
      modifies this
      ensures Valid() && Inv(sys) && CanRun(old(sys), rs) && sys == Run(old(sys), rs)
    {
      hide QueuesValid, SleepValid, Inv, Step, Enabled, Linkable;
      ServedRuns(sys, rs);
      var i := 0;
      assert rs[0..] == rs;
      while i < |rs|
        invariant 0 <= i <= |rs|
        invariant Valid() && Inv(sys) && CanServe(sys, rs[i..]) && CanRun(sys, rs[i..]) && Run(sys, rs[i..]) == Run(old(sys), rs)
      {
        assert rs[i..][0] == rs[i] && rs[i..][1..] == rs[i + 1..];
        Serve(rs[i]);
        i := i + 1;
      }
    }

    /** initproc up to the first process: the idle and the root process, which runs. */
    constructor (root: int, clears: bool)
      requires root > 0
      ensures Valid() && sys == Boot(root, clears) && Inv(sys)
    {
      this.clears := clears;
      process := root;
      readyQueue := NULL;
      sleepList := NULL;
      table := [IDLE, root];
      var none := map[IDLE := NULL, root := NULL];
      pcbs := Pcbs(none, none, map[IDLE := 0, root := RUNNING], map[], none, map[IDLE := IDLE, root := root],
                   SleepFields(none, none, map[IDLE := 0, root := 0]));
      sys := Boot(root, clears);
      new;
      BootInv(root, clears);
      BootRep(root, clears);
    }
  }

  function First(q: seq<int>): int {
    if q == [] then NULL else q[0]
  }

  lemma FirstIs(q: seq<int>)
    ensures q == [] ==> First(q) == NULL
    ensures q != [] ==> First(q) == q[0]
  {
  }

  lemma SenderNode(s: Sys, b: Pcbs, readyQueue: int, d: int)
    requires RepAll(s, b, readyQueue) && d in s.place
    ensures First(Queue(s, d)) == NULL <==> Queue(s, d) == []
    ensures Queue(s, d) != [] ==> First(Queue(s, d)) == Queue(s, d)[0]
  {
    hide RepAll, Linked;
    SenderFacts(s, b, readyQueue, d);
  }

  lemma FailSenderSteps(s: Sys, d: int)
    requires Core(s) && d in s.place && Queue(s, d) != []
    ensures var p := Queue(s, d)[0]; var s1 := Withdraw(s, d, p); var s2 := SetEax(s1, p, -1);
      && p in s2.place && s2.place[p] == Detached && d in MakeReady(s2, p).place
      && MakeReady(s2, p) == FailSender(s, d) && Queue(FailSender(s, d), d) == Queue(s, d)[1..]
      && First(Queue(s, d)[1..]) == if |Queue(s, d)| > 1 then Queue(s, d)[1] else NULL
  {
    SenderIs(s, d, Queue(s, d)[0]);
    hide Core;
  }

  lemma FailSendersStep(s: Sys, d: int)
    ensures Queue(s, d) == [] ==> FailSenders(s, d) == s
    ensures Queue(s, d) != [] ==> FailSenders(s, d) == FailSenders(FailSender(s, d), d) && |Queue(FailSender(s, d), d)| < |Queue(s, d)|
  {
    if Queue(s, d) != [] {
      FailSenderFields(s, d);
    }
    hide FailSender;
  }

  lemma FailRecverSteps(s: Sys, r: int)
    requires Core(s) && r in s.place && s.place[r] == Receiving
    ensures var s1 := SetEax(StopReceiving(s, r), r, -1);
      r in s1.place && s1.place[r] == Detached && MakeReady(s1, r) == FailRecver(s, r)
  {
    CoreIdle(s);
    hide Core;
  }

  lemma AllLive(s: Sys)
    requires Core(s)
    ensures forall q :: q in s.table ==> q in s.target
  {
    hide ReadyInv, QueueInv, SleepInv, RecvInv;
  }

  /** Processes blocked receiving, each once. */
  ghost predicate Waiting(s: Sys, rs: seq<int>) {
    NoDups(rs) && forall r :: r in rs ==> r in s.place && s.place[r] == Receiving
  }

  lemma RecversWait(s: Sys, p: int)
    requires Core(s)
    ensures Waiting(s, Recvers(s.table, s.target, p))
  {
    hide Core, Recvers, NoDups;
    CoreRecvers(s, p);
  }

  lemma OneRecver(s: Sys, rs: seq<int>)
    requires Core(s) && Waiting(s, rs) && rs != []
    ensures rs[0] in s.place && s.place[rs[0]] == Receiving && rs[0] != 0
    ensures Waiting(FailRecver(s, rs[0]), rs[1..]) && FailAll(s, rs) == FailAll(FailRecver(s, rs[0]), rs[1..])
  {
    CoreIdle(s);
    hide Core;
    NoDupsPop(rs);
    assert rs[0] in rs;
  }

  lemma NoRecver(s: Sys)
    ensures FailAll(s, []) == s
  {
  }

  lemma RemoveFields(s: Sys, b: Pcbs, p: int)
    ensures var s' := Remove(s, p); var b' := Drop(b, p);
      && s'.cur == s.cur && s'.clears == s.clears && s'.table == Minus(s.table, p) && s'.target == s.target - {p} && s'.eax == s.eax - {p}
      && b'.targetOfRecv == b.targetOfRecv - {p} && b'.eax == b.eax - {p} && b'.sleep == DropSleep(b.sleep, p)
  {
  }

  lemma Stopping(s: Sys)
    requires Inv(s) && s.cur != IDLE
    ensures var p := s.cur; var s1 := FailSenders(s, p); var s2 := FailRecvers(s1, p);
      && p in s.place && p in s2.place && s2.place[p] == Running && Forsaken(s2, p) && Remove(s2, p) == DoStop(s)
  {
    hide Inv, Loose, FailSenders, FailRecvers, Remove, Queue, Forsaken;
    var p := s.cur;
    InvLoose(s);
    LooseFailSenders(s, p, {p});
    LooseFailRecvers(FailSenders(s, p), p, {p});
  }

  // ----- what the steps need of each other

  lemma StopReceivingFields(s: Sys, r: int)
    ensures var s' := StopReceiving(s, r); s'.cur == s.cur && s'.clears == s.clears && s'.table == s.table && s'.target == s.target[r := r] && s'.eax == s.eax
  {
  }

  lemma BlockRecvFields(s: Sys, p: int, from: int)
    ensures var s' := BlockRecv(s, p, from); s'.cur == s.cur && s'.clears == s.clears && s'.table == s.table && s'.target == s.target[p := from] && s'.eax == s.eax
  {
  }

  lemma EaxFields(s: Sys, p: int, v: int)
    ensures var s' := SetEax(s, p, v); s'.cur == s.cur && s'.clears == s.clears && s'.table == s.table && s'.target == s.target && s'.eax == s.eax[p := v]
  {
  }

  lemma TargetOnly(s: Sys, b: Pcbs, readyQueue: int, f: Field)
    requires RepAll(s, b, readyQueue)
    ensures RepAll(s, b.(targetOfRecv := f), readyQueue)
  {
    hide Core, RepReady, RepQueues, RepFree, RepState;
  }

  lemma EaxOnly(s: Sys, b: Pcbs, readyQueue: int, f: Field)
    requires RepAll(s, b, readyQueue)
    ensures RepAll(s, b.(eax := f), readyQueue)
  {
    hide Core, RepReady, RepQueues, RepFree, RepState;
  }

  lemma SleepStopReceiving(s: Sys, z: SleepFields, sleepList: int, r: int)
    requires r in s.place && s.place[r] != Asleep
    ensures SleepAll(s, z, sleepList) ==> SleepAll(StopReceiving(s, r), z, sleepList)
  {
    hide SleepAll;
    if SleepAll(s, z, sleepList) {
      if r == IDLE {
        SleepSame(s, StopReceiving(s, r), z, sleepList);
      } else {
        SleepKept(s, StopReceiving(s, r), z, sleepList, r, Detached);
      }
    }
  }

  lemma SleepBlockRecv(s: Sys, z: SleepFields, sleepList: int, p: int, from: int)
    requires p in s.place && s.place[p] != Asleep
    ensures SleepAll(s, z, sleepList) ==> SleepAll(BlockRecv(s, p, from), z, sleepList)
  {
    hide SleepAll;
    if SleepAll(s, z, sleepList) {
      SleepKept(s, BlockRecv(s, p, from), z, sleepList, p, Receiving);
    }
  }

  lemma SleepEax(s: Sys, z: SleepFields, sleepList: int, p: int, v: int)
    ensures SleepAll(s, z, sleepList) ==> SleepAll(SetEax(s, p, v), z, sleepList)
  {
    hide SleepAll;
    if SleepAll(s, z, sleepList) {
      SleepSame(s, SetEax(s, p, v), z, sleepList);
    }
  }

  /** A receiver and a sender that runSend can bring together. */
  ghost predicate MayMeet(s: Sys, r: int, p: int) {
    && Core(s) && r in s.place && p in s.place && p != r && p != IDLE
    && s.place[r] in {Idle, Running, Receiving, Detached}
    && (p in Queue(s, r) || s.place[p] in {Running, Detached})
  }

  lemma WithdrawPlace(s: Sys, r: int, p: int)
    requires MayMeet(s, r, p)
    ensures Core(s) && r in s.place && p in s.place && r != p && p != IDLE
    ensures var s1 := Withdraw(s, r, p);
      && r in s1.place && s1.place[r] == s.place[r] && s.place[r] in {Idle, Running, Receiving, Detached}
      && p in s1.place && s1.place[p] in {Running, Detached}
  {
    hide Core, Minus;
    CoreWithdraw(s, r, p);
  }

  lemma StopPlace(s: Sys, r: int, p: int, len: int)
    requires r in s.place && p in s.place && r != p
    ensures var s4 := SetEax(SetEax(StopReceiving(s, r), r, len), p, len);
      && r in s4.place && s4.place[r] == (if r == IDLE then s.place[r] else Detached)
      && p in s4.place && s4.place[p] == s.place[p]
  {
  }

  lemma ReadyPlace(s: Sys, p: int, r: int)
    requires r in s.place && r != p
    ensures r in MakeReady(s, p).place && MakeReady(s, p).place[r] == s.place[r]
  {
  }

  lemma MeetIs(s: Sys, r: int, p: int, len: int)
    ensures Rendezvous(s, r, p, len) ==
      MakeReady(MakeReady(SetEax(SetEax(StopReceiving(Withdraw(s, r, p), r), r, len), p, len), p), r)
  {
    hide MakeReady, Withdraw, StopReceiving, SetEax;
  }

  /** The states runSend goes through. */
  lemma Meeting(s: Sys, r: int, p: int, len: int)
    requires MayMeet(s, r, p)
    ensures r in s.place
    ensures var s1 := Withdraw(s, r, p); var s2 := StopReceiving(s1, r);
      var s4 := SetEax(SetEax(s2, r, len), p, len); var s5 := MakeReady(s4, p);
      && r in s1.place && s1.place[r] in {Idle, Running, Receiving, Detached}
      && r in s4.place && s4.place[r] in {Idle, Detached} && s4.place[r] != KernelSpec.Ready && !s4.place[r].SendingTo?
      && p in s4.place && s4.place[p] in {Running, Detached} && s4.place[p] != KernelSpec.Ready && !s4.place[p].SendingTo?
      && r in s5.place && s5.place[r] in {Idle, Detached} && (s5.place[r] == Idle ==> r == IDLE)
      && MakeReady(s5, r) == Rendezvous(s, r, p, len)
  {
    hide *;
    WithdrawPlace(s, r, p);
    NotIdle(s, r);
    var s1 := Withdraw(s, r, p);
    StopPlace(s1, r, p, len);
    var s4 := SetEax(SetEax(StopReceiving(s1, r), r, len), p, len);
    ReadyPlace(s4, p, r);
    MeetIs(s, r, p, len);
  }

  lemma Caller(s: Sys)
    requires Inv(s) && s.cur != IDLE
    ensures s.cur in s.place && s.place[s.cur] == Running && Core(s)
  {
    hide Core;
  }

  lemma GetPcb(s: Sys, p: int)
    requires Core(s)
    ensures p in s.table <==> p in s.place
  {
    Live(s, p);
  }

  lemma SendIs(s: Sys, p: int, dest: int, buffer: bool, len: int)
    requires p == s.cur
    ensures DoSend(s, dest, buffer, len) ==
      if dest == p then SetEax(MakeReady(s, p), p, -2)
      else if !buffer then SetEax(MakeReady(s, p), p, -3)
      else if dest !in s.place then SetEax(MakeReady(s, p), p, -1)
      else if Target(s, dest) == p || Target(s, dest) == 0 then SetEax(Rendezvous(s, dest, p, len), p, len)
      else SetEax(BlockSend(s, dest, p), p, 0)
  {
    hide Rendezvous, MakeReady, BlockSend, Target;
  }

  lemma RecvIs(s: Sys, p: int, from: int, buffer: bool, len: int)
    requires p == s.cur
    ensures DoRecv(s, from, buffer, len) ==
      if from == p then SetEax(MakeReady(s, p), p, -2)
      else if !buffer then SetEax(MakeReady(s, p), p, -3)
      else if from != 0 && from !in s.place then SetEax(MakeReady(s, p), p, -1)
      else if from == 0 && Queue(s, p) != [] then SetEax(Rendezvous(s, p, Queue(s, p)[0], len), p, len)
      else if from != 0 && from in Queue(s, p) then SetEax(Rendezvous(s, p, from, len), p, len)
      else SetEax(BlockRecv(s, p, from), p, 0)
  {
    hide Rendezvous, MakeReady, BlockRecv, Queue;
  }

  lemma TargetIs(s: Sys, d: int)
    requires Core(s) && d in s.place
    ensures d in s.target && Target(s, d) == s.target[d]
  {
    Live(s, d);
    hide Core;
  }

  lemma SendMeets(s: Sys, dest: int, p: int)
    requires Core(s) && dest in s.place && p in s.place && s.place[p] == Running && dest != p && p != IDLE
    requires Target(s, dest) == p || Target(s, dest) == 0
    ensures MayMeet(s, dest, p)
  {
    ReceiverIs(s, dest);
    CoreIdle(s);
    hide Core;
  }

  lemma RecvMeets(s: Sys, p: int, q: int)
    requires Core(s) && p in s.place && s.place[p] == Running && q in Queue(s, p)
    ensures MayMeet(s, p, q)
  {
    SenderIs(s, p, q);
    hide Core;
  }

  /** Blocking a process that is on its way is the same as blocking it where it runs. */
  lemma DetachedIs(s: Sys, p: int, d: int)
    ensures var s' := s.(place := s.place[p := Detached]);
      && p in s'.place && s'.place[p] == Detached && (d in s.place ==> d in s'.place)
      && BlockSend(s', d, p) == BlockSend(s, d, p) && BlockRecv(s', p, d) == BlockRecv(s, p, d)
      && FallAsleep(s', p, d) == FallAsleep(s, p, d)
      && Target(s', d) == Target(s, d) && Queue(s', d) == Queue(s, d) && Queue(s', p) == Queue(s, p)
  {
    Override(s.place, p, Detached, SendingTo(d));
    Override(s.place, p, Detached, Receiving);
    Override(s.place, p, Detached, Asleep);
  }

  lemma Override(m: map<int, Place>, p: int, v: Place, w: Place)
    ensures m[p := v][p := w] == m[p := w]
  {
  }

  // ----- what the list of sleepers needs

  lemma BaseIs(s: Sys, k: nat)
    ensures k == 0 ==> Base(s.asleep, s.left, k) == 0
    ensures 0 < k <= |s.asleep| && s.asleep[k - 1] in s.left ==> Base(s.asleep, s.left, k) == s.left[s.asleep[k - 1]]
  {
  }

  lemma FallAsleepFields(s: Sys, p: int, t: int)
    ensures var s' := FallAsleep(s, p, t); s'.cur == s.cur && s'.clears == s.clears && s'.table == s.table && s'.target == s.target && s'.eax == s.eax
  {
  }

  lemma OkIs(s: Sys, t: int)
    ensures SleepOk(s, t) <==> (s.stale != NULL ==> Slot(s.asleep, s.left, t) > 0)
    ensures s.asleep == [] ==> Slot(s.asleep, s.left, t) == 0
    ensures Core(s) && s.asleep == [] ==> SleepOk(s, t)
  {
    if Core(s) && s.asleep == [] {
      NotStale(s);
    }
  }

  lemma SleepOnly(s: Sys, b: Pcbs, readyQueue: int, z: SleepFields)
    requires RepAll(s, b, readyQueue)
    ensures RepAll(s, b.(sleep := z), readyQueue)
  {
    hide Core, RepReady, RepQueues, RepFree, RepState;
  }

  lemma SleeperPops(s: Sys, b: Pcbs, readyQueue: int)
    requires RepAll(s, b, readyQueue) && s.asleep != []
    ensures RepAll(Popped(s), b, readyQueue)
  {
    hide Core, RepReady, RepQueues, RepFree, RepState;
    var p := s.asleep[0];
    AsleepAt(s, 0);
    CorePopped(s);
    FreeIs(b.next, s.place, p);
    FreeMove(b.next, s.place, p, Detached);
    StateMove(b.state, s.place, p, Detached);
    PlaceKeys(s.place, p);
  }

  lemma PoppedFields(s: Sys)
    requires s.asleep != []
    ensures var s' := Popped(s); s'.cur == s.cur && s'.clears == s.clears && s'.table == s.table && s'.target == s.target && s'.eax == s.eax
  {
  }

  lemma PoppedPlace(s: Sys, p: int, v: int)
    requires s.asleep != [] && p == s.asleep[0]
    ensures var s' := SetEax(Popped(s), p, v); p in s'.place && s'.place[p] == Detached
  {
  }

  lemma ShiftFields(s: Sys, d: int)
    ensures var s' := Shift(s, d);
      && s'.cur == s.cur && s'.clears == s.clears && s'.table == s.table && s'.target == s.target && s'.eax == s.eax
      && s'.asleep == s.asleep && s'.place == s.place
  {
  }

  lemma Shifts(s: Sys, b: Pcbs, readyQueue: int, d: int)
    requires RepAll(s, b, readyQueue)
    ensures RepAll(Shift(s, d), b, readyQueue)
  {
    hide Core, RepReady, RepQueues, RepFree, RepState;
    CoreShift(s, d);
  }

  lemma TickIs(s: Sys)
    ensures KernelSpec.Tick(s) == if s.asleep == [] then s else WakeDue(Elapse(s))
  {
    hide WakeDue;
  }

  lemma OneDue(s: Sys)
    ensures s.asleep != [] ==> |KernelSpec.Wake(s).asleep| < |s.asleep|
    ensures s.asleep != [] && s.asleep[0] in s.left && s.left[s.asleep[0]] <= 0 ==> WakeDue(s) == WakeDue(KernelSpec.Wake(s))
  {
  }

  lemma NoneDue(s: Sys, z: SleepFields, sleepList: int)
    requires SleepAll(s, z, sleepList) && (sleepList != NULL ==> sleepList in z.time && z.time[sleepList] > 0)
    ensures WakeDue(s) == s
  {
    SleeperFacts(s, z, sleepList);
    if s.asleep != [] {
      SleeperAt(s, z, sleepList, 0);
    }
    hide SleepAll;
  }

  lemma OneWaking(s: Sys, d: int)
    requires s.asleep != []
    ensures KernelSpec.Wake(Shift(s, d)).asleep == s.asleep[1..]
  {
  }

  lemma StateIs(s: Sys, b: Pcbs, readyQueue: int, p: int)
    requires RepAll(s, b, readyQueue) && p in s.place && s.place[p] != Idle && s.place[p] != Detached
    ensures p in b.state && (b.state[p] == SLEEPING <==> s.place[p] == Asleep)
  {
    hide Core, RepReady, RepQueues, RepFree;
  }

  lemma IsAsleep(s: Sys, p: int)
    requires Core(s) && p in s.place && s.place[p] == Asleep
    ensures p in s.asleep && p in s.left && Index(s.asleep, p) < |s.asleep| && s.asleep[Index(s.asleep, p)] == p
  {
    AsleepIs(s, p);
  }

  lemma RemoveOkIs(s: Sys, p: int)
    ensures RemoveOk(s, p) <==> !(s.stale != NULL && s.asleep != [] && s.asleep[0] == p)
    ensures s.asleep != [] && s.asleep[0] == p ==> Index(s.asleep, p) == 0
  {
  }

  lemma SleeperGone(s: Sys, b: Pcbs, readyQueue: int, p: int, z: SleepFields)
    requires RepAll(s, b, readyQueue) && p in s.asleep && p in s.left
    ensures p in b.sleep.time ==>
      RepAll(Removed(s, p), b.(sleep := z, state := b.state[p := 0], eax := b.eax[p := b.sleep.time[p]]), readyQueue)
  {
    hide Core, RepReady, RepQueues, RepFree, RepState, Without, Index, Base;
    CoreRemoved(s, p);
    FreeIs(b.next, s.place, p);
    FreeMove(b.next, s.place, p, Detached);
    StateAny(b.state, s.place, p, 0);
    PlaceKeys(s.place, p);
  }

  lemma RemovedFields(s: Sys, p: int)
    requires p in s.asleep && p in s.left
    ensures var s' := Removed(s, p);
      && s'.cur == s.cur && s'.clears == s.clears && s'.table == s.table && s'.target == s.target
      && s'.eax == s.eax[p := s.left[p] - Base(s.asleep, s.left, Index(s.asleep, p))]
  {
    hide Without, Index, Base;
  }

  lemma FieldsOf(z: SleepFields, h: int)
    ensures HasFields(z, h) <==> h in z.next && h in z.prev && h in z.time
    ensures CanTake(z, h) <==> h in z.next && h in z.prev && h in z.time && (z.next[h] != NULL ==> z.next[h] in z.time)
  {
  }

  /** addToSleepList in front of the k-th sleeper */
  lemma JoinsInside(s: Sys, z: SleepFields, sleepList: int, k: nat, p: int, t: int)
    requires Core(s) && SleepAll(s, z, sleepList) && p in s.place && s.place[p] != Asleep
    requires k < |s.asleep| && Slot(s.asleep, s.left, t) == k
    ensures var c := s.asleep[k]; c in z.next && c in z.prev && c in z.time && c != p
    ensures sleepList in z.next && sleepList in z.prev && sleepList in z.time
    ensures var c := s.asleep[k]; var a := z.prev[c]; var time := z.time[p := t - Base(s.asleep, s.left, k)];
      var z' := if a != NULL then SleepFields(z.next[p := c][a := p], z.prev[p := a][c := p], time[c := time[c] - time[p]])
                else SleepFields(z.next[p := c], z.prev[c := p], time[c := time[c] - time[p]]);
      && (SleepAll(FallAsleep(s, p, t), z', if a != NULL then sleepList else p) <==> SleepOk(s, t))
      && (!SleepOk(s, t) ==> c == sleepList && a != NULL && z' == Misplaced(z, sleepList, p, t))
  {
    hide *;
    OkIs(s, t);
    BaseIs(s, k);
    SleeperAt(s, z, sleepList, k);
    SleeperFacts(s, z, sleepList);
    AwakeKeys(s, z, sleepList, p);
    SleeperIn(s, k);
    if k > 0 {
      JoinsMiddle(s, z, sleepList, k, p, t);
    } else if s.stale == NULL {
      JoinsBefore(s, z, sleepList, p, t);
    } else {
      MisplacedIs(z, sleepList, p, t);
      NotJoined(s, z, sleepList, FallAsleep(s, p, t), Misplaced(z, sleepList, p, t), p, t);
    }
  }

  lemma SleeperIn(s: Sys, k: nat)
    requires k < |s.asleep|
    ensures s.asleep[k] in s.asleep && s.asleep != []
  {
  }

  lemma MisplacedIs(z: SleepFields, h: int, p: int, t: int)
    requires h in z.prev && h in z.time
    ensures Misplaced(z, h, p, t) ==
      SleepFields(z.next[p := h][z.prev[h] := p], z.prev[p := z.prev[h]][h := p], z.time[p := t][h := z.time[h] - t])
  {
  }

  /** removeFromSleepList */
  lemma SleeperLeaves(s: Sys, z: SleepFields, sleepList: int, p: int)
    requires Core(s) && SleepAll(s, z, sleepList) && p in s.asleep && p in s.left
    ensures CanTake(z, p) && z.time[p] == s.left[p] - Base(s.asleep, s.left, Index(s.asleep, p))
    ensures var z' := if z.prev[p] != NULL then TakeLater(z, p) else TakeFirst(z, p, s.clears);
      && (SleepAll(Removed(s, p), z', if z.prev[p] != NULL then sleepList else z.next[p]) <==> RemoveOk(s, p))
      && (!RemoveOk(s, p) ==> sleepList == p && z.prev[p] != NULL)
  {
    var k := Index(s.asleep, p);
    RemoveOkIs(s, p);
    SleeperAt(s, z, sleepList, k);
    if k + 1 < |s.asleep| {
      SleeperAt(s, z, sleepList, k + 1);
    }
    SleeperFacts(s, z, sleepList);
    RemovedAsleep(s, p);
    if k > 0 {
      LaterLeaves(s, z, sleepList, k);
      SleeperFirst(s, p);
    } else if s.stale == NULL {
      FirstLeaves(s, z, sleepList);
    } else {
      StillFirst(s, z, sleepList, Removed(s, p), p);
    }
    hide Core, SleepAll, Removed, Index, Base, Linked, Deltas, Without;
  }

  lemma SleeperFirst(s: Sys, p: int)
    requires p in s.asleep && Index(s.asleep, p) > 0
    ensures s.asleep[0] != p
  {
  }

  lemma ClearedIs(prev: Field, clears: bool, head: int)
    ensures FirstCleared(prev, clears, head) == if clears && head != NULL then prev[head := NULL] else prev
  {
  }

  lemma RemovedAsleep(s: Sys, p: int)
    requires p in s.asleep && p in s.left
    ensures Removed(s, p).asleep == Without(s.asleep, Index(s.asleep, p))
  {
    hide Without, Index, Base;
  }

  lemma TakeIs(z: SleepFields, p: int, clears: bool)
    requires p in z.next && p in z.time && p in z.prev && (z.next[p] != NULL ==> z.next[p] in z.time)
    ensures z.next[p] == NULL ==> TakeFirst(z, p, clears) == z.(next := z.next[p := NULL], prev := FirstCleared(z.prev[p := NULL], clears, NULL))
    ensures z.next[p] != NULL ==> (
      TakeFirst(z, p, clears) ==
        SleepFields(z.next[p := NULL], FirstCleared(z.prev[p := NULL], clears, z.next[p]), z.time[z.next[p] := z.time[z.next[p]] + z.time[p]]))
    ensures z.next[p] == NULL ==> TakeLater(z, p) == z.(next := z.next[z.prev[p] := NULL][p := NULL], prev := z.prev[p := NULL])
    ensures z.next[p] != NULL ==> (
      TakeLater(z, p) ==
        SleepFields(z.next[z.prev[p] := z.next[p]][p := NULL], z.prev[z.next[p] := z.prev[p]][p := NULL],
                    z.time[z.next[p] := z.time[z.next[p]] + z.time[p]]))
  {
  }

  // ----- what the arms need

  lemma Killing(s: Sys, p: int)
    requires Inv(s) && Enabled(s, Request.Kill(p))
    ensures p in s.asleep && p in s.left && p in s.place && s.place[p] == Asleep
    ensures var s1 := Removed(s, p);
      && p in s1.place && s1.place[p] == Detached && s1.cur == s.cur && MakeReady(s1, p).cur == s.cur
      && DoKill(s, p) == SetEax(MakeReady(s1, p), s.cur, 0)
  {
    InvLoose(s);
    LooseCore(s, {s.cur});
    hide Inv, Core, Loose, Index, Base, Without;
    RemovedPlace(s, p);
  }

  /** Where the step could not be linked the list of sleepers is not the one of the state machine. */
  lemma WronglyLinked(s: Sys, z: SleepFields, sleepList: int, r: Request, z': SleepFields)
    requires Inv(s) && Enabled(s, r) && !Linkable(s, r) && SleepAll(s, z, sleepList)
    ensures !SleepAll(Step(s, r), z', sleepList)
  {
    hide *;
    InvLoose(s);
    LooseCore(s, {s.cur});
    StepIs(s, r);
    if r.Sleep? {
      OkIs(s, r.ms);
      CurIs(s);
      AwakeIs(s, s.cur);
      SleepAsleep(s, r.ms);
      NotJoined(s, z, sleepList, Step(s, r), z', s.cur, r.ms);
    } else {
      RemoveOkIs(s, r.pid);
      SleeperAt(s, z, sleepList, 0);
      if |s.asleep| > 1 {
        SleeperAt(s, z, sleepList, 1);
      }
      FieldsOf(z, r.pid);
      KillAsleep(s, r.pid);
      StillFirst(s, z, sleepList, Step(s, r), r.pid);
    }
  }

  lemma SleepAsleep(s: Sys, ms: nat)
    ensures ms > 0 ==> KernelSpec.Dispatch(DoSleep(s, ms)).asleep == FallAsleep(s, s.cur, ms).asleep
  {
    hide Slot, Inserted;
  }

  lemma KillAsleep(s: Sys, p: int)
    requires p in s.asleep && p in s.left
    ensures DoKill(s, p).asleep == Without(s.asleep, Index(s.asleep, p))
  {
    hide Index, Base, Without;
  }

  lemma {:induction false} ServedRuns(s: Sys, rs: seq<Request>)
    requires CanServe(s, rs)
    ensures CanRun(s, rs)
    decreases |rs|
  {
    hide Enabled, Step, Linkable;
    if rs == [] {
    } else {
      ServedRuns(Step(s, rs[0]), rs[1..]);
    }
  }

  lemma SleepIs(s: Sys, p: int, ms: nat)
    requires p == s.cur
    ensures DoSleep(s, ms) == if ms == 0 then MakeReady(SetEax(s, p, 0), p) else FallAsleep(s, p, ms)
    ensures SleepOk(s.(place := s.place[p := Detached]), ms) <==> SleepOk(s, ms)
    ensures p in s.place ==> p in SetEax(s, p, 0).place && SetEax(s, p, 0).place[p] == s.place[p]
  {
    hide MakeReady, FallAsleep, Slot;
  }

  lemma Creating(s: Sys, b: Pcbs, pid: int, slot: nat)
    requires Inv(s) && Enabled(s, Request.Create(pid, slot))
    ensures slot <= |s.table| && pid > 0 && pid !in s.place
    ensures var s' := Added(s, pid, slot);
      && s'.cur == s.cur && s'.clears == s.clears && s'.table == Inserted(s.table, slot, pid) && s'.target == s.target[pid := pid] && s'.eax == s.eax
      && pid in s'.place && s'.place[pid] == Detached
      && SetEax(MakeReady(s', pid), s.cur, pid) == DoCreate(s, pid, slot) && MakeReady(s', pid).cur == s.cur
    ensures Fresh(b, pid).targetOfRecv == b.targetOfRecv[pid := pid] && Fresh(b, pid).eax == b.eax
  {
    hide Inv, Inserted;
  }

  lemma StepIs(s: Sys, r: Request)
    requires Inv(s) && Enabled(s, r)
    ensures !r.Yield? && !r.Timer? ==> s.cur != IDLE
    ensures Linkable(s, r) <==> (r.Sleep? ==> r.ms == 0 || SleepOk(s, r.ms)) && (r.Kill? ==> RemoveOk(s, r.pid))
    ensures r.Kill? ==> r.pid in s.asleep && r.pid in s.left
    ensures
      Step(s, r) == match r
        case Create(pid, slot) => DoCreate(s, pid, slot)
        case Yield => KernelSpec.Dispatch(MakeReady(s, s.cur))
        case Stop => KernelSpec.Dispatch(DoStop(s))
        case Timer => KernelSpec.Dispatch(MakeReady(KernelSpec.Tick(s), s.cur))
        case Send(dest, buffer, len) => KernelSpec.Dispatch(DoSend(s, dest, buffer, len))
        case Recv(from, buffer, len) => KernelSpec.Dispatch(DoRecv(s, from, buffer, len))
        case Sleep(ms) => KernelSpec.Dispatch(DoSleep(s, ms))
        case Kill(pid) => DoKill(s, pid)
  {
    hide Inv, Core, KernelSpec.Dispatch, MakeReady, DoSend, DoRecv, DoSleep, DoStop, DoCreate, DoKill, KernelSpec.Tick, SleepOk, RemoveOk;
  }

  lemma CurIs(s: Sys)
    requires Inv(s)
    ensures s.cur in s.place && s.place[s.cur] in {Idle, Running} && (s.place[s.cur] == Idle ==> s.cur == IDLE)
  {
    hide Core;
    InvLoose(s);
  }

  lemma TickCurIs(s: Sys)
    requires Inv(s)
    ensures var t := KernelSpec.Tick(s); t.cur == s.cur && s.cur in t.place && t.place[s.cur] == s.place[s.cur]
  {
    InvLoose(s);
    LooseCore(s, {s.cur});
    hide Inv, Core, Loose, KernelSpec.Tick;
    TickFields(s, s.cur);
  }

  lemma BootRep(root: int, clears: bool)
    requires root > 0
    ensures var s := Boot(root, clears); var none := map[IDLE := NULL, root := NULL];
      var z := SleepFields(none, none, map[IDLE := 0, root := 0]);
      && RepAll(s, Pcbs(none, none, map[IDLE := 0, root := RUNNING], map[], none, map[IDLE := IDLE, root := root], z), NULL)
      && SleepAll(s, z, NULL)
  {
    BootInv(root, clears);
    hide Inv, Core;
    InvLoose(Boot(root, clears));
    BootCore(root, clears);
  }

  lemma BootCore(root: int, clears: bool)
    requires root > 0
    ensures Core(Boot(root, clears))
  {
    BootInv(root, clears);
    hide Core;
  }

  // ----- walks along a list

  /** The loops of ready and addBlockedSender: to the last block. */
  method Tail(next: Field, head: int, ghost s: seq<int>) returns (tail: int)
    requires Linked(next, head, s) && s != []
    ensures tail == Last(s) && tail in next
  {
    hide Linked;
    HeadOf(next, head, s);
    tail := head;
    ghost var k: nat := 0;
    FollowTo(next, head, s, k);
    while next[tail] != NULL
      invariant k < |s| && tail == s[k] && tail in next
      invariant k + 1 < |s| ==> next[tail] == s[k + 1]
      invariant k + 1 == |s| ==> next[tail] == NULL
      decreases |s| - k
    {
      tail := next[tail];
      k := k + 1;
      FollowTo(next, head, s, k);
    }
    FollowTo(next, head, s, k);
  }

  /** The loop of rmBlockedSender: to the block before p, or to the last. */
  method Before(next: Field, head: int, p: int, ghost s: seq<int>) returns (node: int, ghost k: nat)
    requires Linked(next, head, s) && s != [] && head != p
    ensures k < |s| && node == s[k] && node in next && (forall i :: 0 <= i <= k ==> s[i] != p)
    ensures if k + 1 < |s| then next[node] == s[k + 1] == p && p != NULL else next[node] == NULL
  {
    hide Linked;
    HeadOf(next, head, s);
    node := head;
    k := 0;
    FollowTo(next, head, s, k);
    while next[node] != NULL
      invariant k < |s| && node == s[k] && node in next && forall i :: 0 <= i <= k ==> s[i] != p
      invariant if k + 1 < |s| then next[node] == s[k + 1] && s[k + 1] != NULL else next[node] == NULL
      decreases |s| - k
    {
      if next[node] == p {
        return;
      }
      node := next[node];
      k := k + 1;
      FollowTo(next, head, s, k);
    }
  }

  /** The loop of isProcSending. */
  method InList(next: Field, head: int, p: int, ghost s: seq<int>) returns (found: bool)
    requires Linked(next, head, s)
    ensures found == (p in s)
  {
    hide Linked;
    HeadOf(next, head, s);
    var node := head;
    ghost var k: nat := 0;
    while node != NULL
      invariant k <= |s| && (node != NULL ==> node in next)
      invariant if k < |s| then node == s[k] && node != NULL else node == NULL
      invariant forall i :: 0 <= i < k ==> s[i] != p
      decreases |s| - k
    {
      FollowTo(next, head, s, k);
      if node == p {
        return true;
      }
      node := next[node];
      k := k + 1;
    }
    return false;
  }

  // ----- facts for the loops

  lemma SenderFacts(s: Sys, b: Pcbs, readyQueue: int, d: int)
    requires RepAll(s, b, readyQueue) && d in s.place
    ensures d in b.senderQueue && d in s.queues && Linked(b.next, b.senderQueue[d], Queue(s, d))
    ensures Queue(s, d) == s.queues[d] && (b.senderQueue[d] == NULL <==> Queue(s, d) == [])
    ensures Queue(s, d) != [] ==> b.senderQueue[d] == Queue(s, d)[0] && b.senderQueue[d] in b.next
  {
    hide Core, Linked, RepReady, RepFree, RepState;
    CoreFacts(s, d);
    QueueHead(b.next, b.senderQueue, s.queues, d);
    HeadOf(b.next, b.senderQueue[d], s.queues[d]);
  }

  lemma FollowTo(next: Field, head: int, s: seq<int>, k: nat)
    requires Linked(next, head, s) && k < |s|
    ensures s[k] in next && s[k] != NULL
    ensures if k + 1 < |s| then next[s[k]] == s[k + 1] && s[k + 1] in next && s[k + 1] != NULL
            else next[s[k]] == NULL && s[k] == Last(s)
  {
    Follow(next, head, s, k);
    if k + 1 < |s| {
      Follow(next, head, s, k + 1);
    }
  }

  lemma RepCore(s: Sys, b: Pcbs, readyQueue: int)
    requires RepAll(s, b, readyQueue)
    ensures Core(s)
  {
  }

  lemma ReadyFields(s: Sys, p: int)
    ensures var s' := MakeReady(s, p);
      s'.cur == s.cur && s'.clears == s.clears && s'.table == s.table && s'.target == s.target && s'.eax == s.eax && (p == IDLE ==> s' == s)
  {
  }

  lemma DispatchFields(s: Sys)
    ensures var s' := Dispatch(s);
      && s'.cur == (if s.ready == [] then IDLE else s.ready[0]) && s'.clears == s.clears
      && s'.table == s.table && s'.target == s.target && s'.eax == s.eax
  {
  }

  lemma BlockSendFields(s: Sys, d: int, p: int)
    ensures var s' := BlockSend(s, d, p); s'.cur == s.cur && s'.clears == s.clears && s'.table == s.table && s'.target == s.target && s'.eax == s.eax
  {
  }

  lemma WithdrawFields(s: Sys, d: int, p: int)
    ensures var s' := Withdraw(s, d, p); s'.cur == s.cur && s'.clears == s.clears && s'.table == s.table && s'.target == s.target && s'.eax == s.eax
    ensures p !in Queue(s, d) ==> Withdraw(s, d, p) == s
    ensures d in s.queues ==> Queue(s, d) == s.queues[d]
  {
  }

  lemma DispatchIdle(s: Sys, b: Pcbs, readyQueue: int)
    requires RepAll(s, b, readyQueue) && s.ready == []
    ensures RepAll(Dispatch(s), b, readyQueue)
  {
    hide RepReady, RepQueues, RepFree, RepState, Core;
    CoreDispatch(s);
  }
}
