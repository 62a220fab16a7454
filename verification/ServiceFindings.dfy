/** Where the service does not do what its design asks for, with the exact condition of each. */
module ServiceFindings {
  import opened CommandQueue
  import opened ServiceTable
  import opened ServiceSystem
  import opened ServiceInvariant
  import opened ServiceRequests
  import opened ServiceGuarantees

  // ---- reachability ------------------------------------------------------------------------------

  ghost predicate Reachable(s: State) {
    exists labels :: AllLegal(labels) && Run(Init(), labels) == s
  }

  lemma ReachInit()
    ensures Reachable(Init())
  {
    assert AllLegal([]) && Run(Init(), []) == Init();
  }

  lemma ReachStep(s: State, l: Label)
    requires Reachable(s) && Legal(l)
    ensures |s.entries| == |s.slots| == LIMIT
    ensures Reachable(Step(s, l))
  {
    var labels :| AllLegal(labels) && Run(Init(), labels) == s;
    RunAppend(Init(), labels, [l]);
    assert Run(s, [l]) == Run(Step(s, l), [l][1..]) == Step(s, l);
    assert AllLegal(labels + [l]);
  }

  /** The accept thread takes in a checkpoint request for a process that has no slot. */
  lemma Enqueue(s: State, pid: int) returns (t: State)
    requires Reachable(s) && pid > 0 && s.accept.Idle? && s.lock == Free && |s.queue| < CAPACITY
    requires !InUse(s.slots, pid)
    ensures Reachable(t) && |s.entries| == |s.slots| == LIMIT
    ensures var r := Request(Checkpoint, pid, s.next);
            t == Push(RegisterStep(s.(next := s.next + 1), r), r)
  {
    var r := Request(Checkpoint, pid, s.next);
    ReachStep(s, Arrive(Checkpoint, pid));
    var s1 := Step(s, Arrive(Checkpoint, pid));
    assert s1 == s.(next := s.next + 1, accept := CanCheckpoint(r));
    ReachStep(s1, Accept);
    var s2 := Step(s1, Accept);
    assert s2 == s1.(accept := Register(r));
    ReachStep(s2, Accept);
    var s3 := Step(s2, Accept);
    assert s3 == RegisterStep(s2, r);
    ReachStep(s3, Accept);
    t := Step(s3, Accept);
  }

  // ---- a checkpoint under way that another thread clears -----------------------------------------

  /**
   * Besides the command thread, only the accept thread frees a slot whose checkpoint is under way: exactly when it
   * rolls back, on a full queue, a registration of that process. The checkpoint then runs for another request.
   */
  lemma UnderwayFreedIff(labels: seq<Label>, l: Label, i: nat)
    requires AllLegal(labels) && Legal(l) && i < LIMIT && !l.Command?
    ensures var s := Run(Init(), labels);
            Underway(s.slots[i]) ==>
              && (Step(s, l).slots[i].pid == NO_PID <==>
                    l == Accept && s.lock == Free && s.accept.RollBack? && s.accept.r.pid == s.slots[i].pid)
              && (Step(s, l).slots[i].pid == NO_PID ==>
                    && s.entries[i].owner == s.accept.r.cd
                    && Handling(s.command) && s.command.r.pid == s.accept.r.pid && s.command.r.cd != s.accept.r.cd)
  {
    ReachableInv(labels);
    var s := Run(Init(), labels);
    LifeCycle(labels, l, i);
    if Underway(s.slots[i]) && l == Accept && s.accept.RollBack? {
      OtherRequest(s);
    }
  }

  /** The command thread and the accept thread never hold the same request. */
  lemma OtherRequest(s: State)
    requires Inv(s) && CommandHas(s.command) && AcceptHas(s.accept)
    ensures s.command.r.cd != s.accept.r.cd
  {
    assert Reached(s, s.handled[|s.handled| - 1].cd) >= 1;
    assert Places(s, s.accept.r.cd) <= 1;
  }

  /** Waiting for a fork on behalf of process 1, which has no slot; k other processes are registered and queued. */
  predicate Ready(s: State, k: nat) {
    && k <= CAPACITY
    && s.accept.Idle? && s.lock == Free && |s.slots| == |s.entries| == LIMIT
    && s.command.Starting? && s.command.r.pid == 1
    && |s.queue| == k
    && (forall i :: 0 <= i < k ==> s.slots[i].pid == i + 2)
    && (forall i :: k <= i < LIMIT ==> s.slots[i].pid == NO_PID)
  }

  lemma FreeAt(t: Table, k: nat)
    requires k < |t| && (forall i :: 0 <= i < k ==> t[i].pid == i + 2) && t[k].pid == NO_PID
    ensures FindPid(t, NO_PID) == k
  {
    FoundPid(t, NO_PID, k);
  }

  lemma {:induction false} Fill(s: State, k: nat) returns (t: State)
    requires Reachable(s) && Ready(s, k)
    ensures Reachable(t) && Ready(t, CAPACITY)
    decreases CAPACITY - k
  {
    hide Reachable, FindPid, FindStatus;
    if k == CAPACITY {
      t := s;
    } else {
      FreeAt(s.slots, k);
      var u := Enqueue(s, k + 2);
      t := Fill(u, k + 1);
    }
  }

  /**
   * With a full queue, process 1 is registered again, its slot is taken for the older request, and then rolled back.
   */
  lemma Clash(s: State) returns (t: State)
    requires Reachable(s) && Ready(s, CAPACITY)
    ensures Reachable(t) && t.accept.RollBack? && t.lock == Free && |t.slots| == |t.entries| == LIMIT
    ensures Underway(t.slots[CAPACITY]) && t.slots[CAPACITY].pid == t.accept.r.pid
  {
    FreeAt(s.slots, CAPACITY);
    var r := Request(Checkpoint, 1, s.next);
    ReachStep(s, Arrive(Checkpoint, 1));
    var s1 := Step(s, Arrive(Checkpoint, 1));
    ReachStep(s1, Accept);
    var s2 := Step(s1, Accept);
    assert s2 == s.(next := s.next + 1, accept := Register(r));
    ReachStep(s2, Accept);
    var s3 := Step(s2, Accept);
    assert s3 == RegisterStep(s2, r);
    ClashEnds(s3, r);
    t := Step(Step(Step(s3, Command(Worker(101))), Command(NoFork)), Accept);
  }

  lemma ClashEnds(s: State, r: Request)
    requires Reachable(s) && s.accept == PushCheckpoint(r) && s.lock == Free && |s.queue| == CAPACITY
    requires s.command.Starting? && s.command.r.pid == r.pid == 1 && |s.slots| == |s.entries| == LIMIT
    requires forall i :: 0 <= i < CAPACITY ==> s.slots[i].pid != 1
    requires s.slots[CAPACITY].pid == 1 && s.slots[CAPACITY].status == Restored
    ensures var t := Step(Step(Step(s, Command(Worker(101))), Command(NoFork)), Accept);
            && Reachable(t) && t.accept == RollBack(r) && t.lock == Free
            && Underway(t.slots[CAPACITY]) && t.slots[CAPACITY].pid == 1
  {
    ReachStep(s, Command(Worker(101)));
    var s1 := Step(s, Command(Worker(101)));
    ReachStep(s1, Command(NoFork));
    FoundStatus(s1.slots, 1, Restored, CAPACITY);
    var s2 := Step(s1, Command(NoFork));
    assert s2.slots[CAPACITY] == s1.slots[CAPACITY].(status := Checkpointing, sd := s1.command.run);
    ReachStep(s2, Accept);
  }

  /** Both threads at rest, with process 1 the only one in the table, in the first slot. */
  predicate Alone(s: State) {
    && s.accept.Idle? && s.lock == Free && |s.slots| == |s.entries| == LIMIT
    && (forall i :: 0 < i < LIMIT ==> s.slots[i].pid == NO_PID)
  }

  /** A checkpoint request for process 1 is accepted and popped; no fork yet. */
  lemma Begin() returns (t: State)
    ensures Reachable(t) && Alone(t) && t.queue == [] && t.runs == [] && t.aborts == {}
    ensures t.slots[0] == Slot(1, NO_PID, Restored, false, NO_SOCKET)
    ensures t.command == Starting(Request(Checkpoint, 1, 0)) && t.next == 1
  {
    hide Reachable, FindPid, FindStatus, ClearPid;
    ReachInit();
    assert forall i :: 0 <= i < LIMIT ==> Init().slots[i].pid == NO_PID;
    FoundPid(Init().slots, NO_PID, 0);
    var s := Enqueue(Init(), 1);
    t := Pop(s);
  }

  /** A worker is forked for process 1 and entered in the table. */
  lemma Take(s: State) returns (t: State)
    requires Reachable(s) && Alone(s) && s.queue == [] && s.runs == []
    requires s.slots[0] == Slot(1, NO_PID, Restored, false, NO_SOCKET)
    requires s.command == Starting(Request(Checkpoint, 1, 0))
    ensures Reachable(t) && Alone(t) && t.queue == [] && t.command == InCheckpoint(s.command.r, 0)
    ensures t.runs == [Started(1, 100, 0)] && t.slots[0] == Slot(1, NO_PID, Checkpointing, false, 0)
  {
    hide Reachable, FindPid, FindStatus;
    ReachStep(s, Command(Worker(100)));
    var s1 := Step(s, Command(Worker(100)));
    assert s1.command == Forked(s.command.r, 0) && s1.runs == [Started(1, 100, 0)] && s1.slots == s.slots;
    ReachStep(s1, Command(NoFork));
    FoundStatus(s1.slots, 1, Restored, 0);
    t := Step(s1, Command(NoFork));
  }

  /** The checkpoint of process 1 succeeds. */
  lemma Complete(s: State) returns (t: State)
    requires Reachable(s) && Alone(s) && s.queue == [] && s.runs == [Started(1, 100, 0)]
    requires s.command == InCheckpoint(Request(Checkpoint, 1, 0), 0)
    requires s.slots[0] == Slot(1, NO_PID, Checkpointing, false, 0)
    ensures Reachable(t) && Alone(t) && t.queue == [] && t.command.Waiting?
    ensures t.slots[0] == Slot(1, 100, Checkpointed, false, NO_SOCKET)
  {
    hide Reachable, FindPid, FindStatus;
    ReachStep(s, Command(Says(true)));
    var s1 := Step(s, Command(Says(true)));
    assert s1.command == Succeeded(s.command.r, 0) && s1.slots == s.slots && s1.runs == s.runs;
    ReachStep(s1, Command(NoFork));
    FoundStatus(s1.slots, 1, Checkpointing, 0);
    t := Step(s1, Command(NoFork));
  }

  /** A restore request passes the first look at the table. */
  lemma AskBegin(s: State, pid: int) returns (t: State)
    requires Reachable(s) && pid > 0 && s.accept.Idle? && s.lock == Free && InUse(s.slots, pid)
    ensures Reachable(t) && |s.entries| == |s.slots| == LIMIT
    ensures t == s.(next := s.next + 1, accept := FindAbort(Request(Restore, pid, s.next)))
  {
    ReachStep(s, Arrive(Restore, pid));
    var s1 := Step(s, Arrive(Restore, pid));
    ReachStep(s1, Accept);
    t := Step(s1, Accept);
  }

  /** The accept thread takes in a restore request for a process in the table. */
  lemma Ask(s: State, pid: int) returns (t: State)
    requires Reachable(s) && pid > 0 && s.accept.Idle? && s.lock == Free && |s.queue| < CAPACITY
    requires InUse(s.slots, pid)
    ensures Reachable(t) && |s.entries| == |s.slots| == LIMIT
    ensures var r := Request(Restore, pid, s.next);
            t == Push(AbortStep(s.(next := s.next + 1), r, FindPid(s.slots, pid)), r)
  {
    hide FindPid, FindStatus, Reachable, ClearPid, InitPid;
    var r := Request(Restore, pid, s.next);
    var i := FindPid(s.slots, pid);
    var s1 := AskBegin(s, pid);
    ReachStep(s1, Accept);
    var s2 := Step(s1, Accept);
    assert s2 == s1.(lock := Held, accept := DoAbort(r, i));
    t := AskEnd(s2, r, i);
  }

  lemma AskEnd(s: State, r: Request, i: nat) returns (t: State)
    requires Reachable(s) && s.accept == DoAbort(r, i) && |s.queue| < CAPACITY && i < |s.slots|
    ensures |s.entries| == |s.slots| == LIMIT
    ensures Reachable(t) && t == Push(AbortStep(s, r, i), r)
  {
    hide FindPid, FindStatus, Reachable, ClearPid, InitPid;
    ReachStep(s, Accept);
    var s1 := Step(s, Accept);
    ReachStep(s1, Accept);
    t := Step(s1, Accept);
  }

  /** A restore of process 1 is accepted, popped and forwarded; the answer is still to come. */
  lemma Forward(s: State) returns (t: State)
    requires Reachable(s) && Alone(s) && s.queue == [] && s.command.Waiting?
    requires s.slots[0] == Slot(1, 100, Checkpointed, false, NO_SOCKET)
    ensures Reachable(t) && Alone(t) && t.queue == [] && t.slots == s.slots
    ensures t.command.InRestore? && t.command.r.pid == 1
  {
    hide Reachable, FindPid, FindStatus;
    var r := Request(Restore, 1, s.next);
    FoundPid(s.slots, 1, 0);
    var s1 := Ask(s, 1);
    assert s1.queue == [r] && s1.slots == s.slots;
    var s2 := Pop(s1);
    assert s2.command == LookUp(r) && s2.slots == s.slots && s2.queue == [];
    ReachStep(s2, Command(NoFork));
    t := Step(s2, Command(NoFork));
  }

  /** The worker exits, and process 1 is registered anew before the restore is over. */
  lemma Reregister(s: State) returns (t: State)
    requires Reachable(s) && Alone(s) && s.queue == [] && s.slots[0] == Slot(1, 100, Checkpointed, false, NO_SOCKET)
    ensures Reachable(t) && Alone(t) && t.command == s.command && t.queue == [Request(Checkpoint, 1, s.next)]
    ensures t.slots[0].pid == 1
  {
    hide Reachable, FindPid, FindStatus;
    ReachableWorkers(s);
    ReachStep(s, Exited(100));
    var s1 := Step(s, Exited(100));
    assert s1.slots[0].pid == NO_PID && s1 == s.(slots := s1.slots);
    FoundPid(s1.slots, NO_PID, 0);
    t := Enqueue(s1, 1);
  }

  /** The restore is answered and the slot of its process cleared. */
  lemma FinishRestore(s: State) returns (t: State)
    requires Reachable(s) && s.command.InRestore? && s.lock == Free
    ensures Reachable(t)
    ensures t == Respond(s, s.command.r.cd).(slots := ClearPid(s.slots, s.command.r.pid), command := Waiting)
  {
    hide FindPid, FindStatus, Reachable, InitPid;
    ReachStep(s, Command(Says(true)));
    var s1 := Step(s, Command(Says(true)));
    ReachStep(s1, Command(NoFork));
    t := Step(s1, Command(NoFork));
  }

  lemma Pop(s: State) returns (t: State)
    requires Reachable(s) && s.command.Waiting? && s.queue != [] && s.queue[0].kind != Unknown
    ensures Reachable(t)
    ensures var r := s.queue[0];
            t == s.(queue := s.queue[1..], handled := s.handled + [r],
                    command := if r.kind == Checkpoint then Starting(r) else LookUp(r))
  {
    ReachStep(s, Command(NoFork));
    t := Step(s, Command(NoFork));
  }

  /** The late clear of the restore removes the new registration; its checkpoint starts without a slot. */
  lemma LateClear(s: State, cd: nat) returns (t: State)
    requires Reachable(s) && Alone(s) && s.queue == [Request(Checkpoint, 1, cd)]
    requires s.command.InRestore? && s.command.r.pid == 1 && s.slots[0].pid == 1
    ensures Reachable(t) && Ready(t, 0)
  {
    hide Reachable, FindPid, FindStatus;
    var u := FinishRestore(s);
    t := Pop(u);
  }

  lemma ReachableWorkers(s: State)
    requires Reachable(s) && Alone(s)
    ensures forall i :: 0 < i < LIMIT ==> s.slots[i].worker == NO_PID
  {
    var labels :| AllLegal(labels) && Run(Init(), labels) == s;
    ReachableInv(labels);
    forall i | 0 < i < LIMIT ensures s.slots[i].worker == NO_PID {
      assert SlotOk(s.slots[i]);
    }
  }

  /** The accept thread frees a slot whose checkpoint is under way. */
  lemma UnderwayFreed() returns (s: State)
    ensures Reachable(s) && |s.slots| == |s.entries| == LIMIT
    ensures Underway(s.slots[CAPACITY]) && Step(s, Accept).slots[CAPACITY].pid == NO_PID
  {
    hide Reachable, FindPid, FindStatus;
    s := Begin();
    s := Take(s);
    s := Complete(s);
    s := Forward(s);
    var cd := s.next;
    s := Reregister(s);
    s := LateClear(s, cd);
    s := Fill(s, 0);
    s := Clash(s);
  }

  // ---- the lock that is not given back -----------------------------------------------------------

  /**
   * The lock is lost exactly when the slot of an accepted restore is cleared before try_to_abort_checkpoint looks for
   * it.
   */
  lemma LockLostIff(s: State, l: Label)
    requires |s.entries| == |s.slots| && s.lock != Leaked
    ensures Step(s, l).lock == Leaked <==>
              l == Accept && s.lock == Free && s.accept.FindAbort? && !InUse(s.slots, s.accept.r.pid)
  {
    match l
    case Accept =>
      match s.accept {
        case Register(r) =>
        case DoAbort(r, i) =>
        case _ =>
      }
    case Command(o) =>
      match s.command {
        case Forked(r, run) =>
        case _ =>
      }
    case _ =>
  }

  /**
   * Only the SIGCHLD handler gets at the table any more: slots are freed or stay, nothing is registered or forwarded.
   */
  predicate Frozen(s: State, s': State) {
    && s'.lock == Leaked && s'.entries == s.entries && s'.forwards == s.forwards
    && |s'.slots| == |s.slots|
    && forall i :: 0 <= i < |s.slots| ==> s'.slots[i] == s.slots[i] || s'.slots[i] == Freed(s.slots[i])
  }

  lemma FrozenStep(s: State, l: Label)
    requires |s.entries| == |s.slots| && s.lock == Leaked && !s.accept.DoAbort?
    ensures Frozen(s, Step(s, l)) && !Step(s, l).accept.DoAbort?
  {
    match l
    case Accept =>
    case Command(o) =>
    case _ =>
  }

  lemma {:induction false} LockLostForever(s: State, labels: seq<Label>)
    requires |s.entries| == |s.slots| && s.lock == Leaked && !s.accept.DoAbort?
    ensures Frozen(s, Run(s, labels))
    decreases labels
  {
    if labels != [] {
      FrozenStep(s, labels[0]);
      LockLostForever(Step(s, labels[0]), labels[1..]);
    }
  }

  /** A fork that fails between the two looks of the accept thread at the table loses the lock. */
  lemma LockLost() returns (s: State)
    ensures Reachable(s) && s.lock == Leaked
  {
    hide Reachable, FindPid, FindStatus;
    s := Begin();
    FoundPid(s.slots, 1, 0);
    var s1 := AskBegin(s, 1);
    var s2 := FailFork(s1);
    assert !InUse(s2.slots, 1);
    ReachStep(s2, Accept);
    s := Step(s2, Accept);
  }

  // ---- the mark that is not taken back -----------------------------------------------------------

  /**
   * A checkpoint is aborted although no restore was accepted for it: its slot still carried the mark of an earlier
   * process.
   */
  lemma AbortedUnasked() returns (s: State)
    ensures Reachable(s) && |s.slots| == |s.entries| == LIMIT
    ensures Underway(s.slots[0]) && !s.entries[0].asked && s.entries[0].run in s.aborts
  {
    hide Reachable, FindPid, FindStatus;
    s := MarkLeft();
    FoundPid(s.slots, NO_PID, 0);
    var s1 := Enqueue(s, 2);
    assert s1.slots[0] == Slot(2, NO_PID, Restored, true, NO_SOCKET) && !s1.entries[0].asked;
    ReachStep(s1, Command(NoFork));
    var s2 := Step(s1, Command(NoFork));
    var r := Request(Checkpoint, 2, s.next);
    assert s2 == s1.(queue := [], handled := s1.handled + [r], command := Starting(r));
    ReachStep(s2, Command(Worker(100)));
    var s3 := Step(s2, Command(Worker(100)));
    ReachStep(s3, Command(NoFork));
    FoundStatus(s3.slots, 2, Restored, 0);
    s := Step(s3, Command(NoFork));
  }

  lemma FailFork(s: State) returns (t: State)
    requires Reachable(s) && s.command.Starting? && s.lock == Free
    ensures Reachable(t)
    ensures t == s.(slots := ClearPid(s.slots, s.command.r.pid),
                    dropped := s.dropped + multiset{s.command.r.cd}, command := Waiting)
  {
    ReachStep(s, Command(NoFork));
    var s1 := Step(s, Command(NoFork));
    ReachStep(s1, Command(NoFork));
    t := Step(s1, Command(NoFork));
  }

  /** A restore of process 1 arrives before its fork fails; slot and queue are empty again, the mark is still set. */
  lemma MarkLeft() returns (s: State)
    ensures Reachable(s) && Alone(s) && s.queue == [] && s.command.Waiting?
    ensures s.slots[0].pid == NO_PID && s.slots[0].abort
  {
    hide Reachable, FindPid, FindStatus;
    s := Begin();
    FoundPid(s.slots, 1, 0);
    var s1 := Ask(s, 1);
    var r := Request(Restore, 1, s.next);
    assert s1.slots[0].abort && s1.queue == [r];
    var s2 := FailFork(s1);
    var s3 := Pop(s2);
    assert WorkerOf(s3.slots, 1) == NO_PID;
    ReachStep(s3, Command(NoFork));
    s := Step(s3, Command(NoFork));
  }
}
