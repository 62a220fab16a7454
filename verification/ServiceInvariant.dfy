/** The table, the lock and the command thread: what every step of the service keeps. */
module ServiceInvariant {
  import opened CommandQueue
  import opened ServiceTable
  import opened ServiceSystem

  predicate AcceptHas(a: AcceptPc) { !a.Idle? }

  predicate CommandHas(c: CommandPc) { !c.Waiting? && !c.Dead? }

  /** The command thread is inside a checkpoint that it has entered in the table. */
  predicate Handling(c: CommandPc) {
    c.InCheckpoint? || c.Succeeded? || c.Failed?
  }

  predicate HasRun(c: CommandPc) { c.Forked? || Handling(c) }

  /** A checkpoint of this slot is under way. */
  predicate Underway(slot: Slot) {
    slot.pid != NO_PID && slot.status == Checkpointing
  }

  // ---- process ids -------------------------------------------------------------------------------

  predicate Positive(s: State) {
    && (AcceptHas(s.accept) ==> s.accept.r.pid > 0)
    && (CommandHas(s.command) ==> s.command.r.pid > 0)
    && (forall k :: 0 <= k < |s.queue| ==> s.queue[k].pid > 0)
    && (forall k :: 0 <= k < |s.runs| ==> s.runs[k].worker > 0)
  }

  lemma AcceptPositive(s: State)
    requires |s.entries| == |s.slots| && Positive(s)
    ensures Positive(AcceptStep(s))
  {
    match s.accept
    case Register(r) =>
    case RollBack(r) =>
    case DoAbort(r, i) =>
    case _ =>
  }

  lemma CommandPositive(s: State, o: Outcome)
    requires |s.entries| == |s.slots| && Positive(s) && (o.Worker? ==> o.pid > 0)
    ensures Positive(CommandStep(s, o))
  {
    hide FindPid, FindStatus, ClearPid;
    match s.command
    case Waiting =>
    case Starting(r) =>
    case Forked(r, run) =>
    case _ =>
  }

  // ---- the table ---------------------------------------------------------------------------------

  predicate TableInv(s: State) {
    && |s.slots| == |s.entries| == LIMIT
    && TableOk(s.slots)
    && (s.accept.Register? ==> !InUse(s.slots, s.accept.r.pid))
  }

  /** The accept thread holds the lock exactly while it aborts; its slot is then the pid's, or was freed by SIGCHLD. */
  predicate LockInv(s: State) {
    && (s.lock == Held <==> s.accept.DoAbort?)
    && (s.accept.DoAbort? ==>
          && s.accept.i < |s.slots|
          && (s.slots[s.accept.i].pid == s.accept.r.pid || s.slots[s.accept.i].pid == NO_PID))
  }

  lemma AcceptTable(s: State)
    requires TableInv(s) && Positive(s)
    ensures TableInv(AcceptStep(s))
  {
    hide FindStatus;
    match s.accept
    case Register(r) => InitKeeps(s.slots, r.pid);
    case RollBack(r) => ClearPidKeeps(s.slots, r.pid);
    case _ =>
  }

  lemma CommandTable(s: State, o: Outcome)
    requires TableInv(s) && Positive(s)
    ensures TableInv(CommandStep(s, o))
  {
    hide FindPid, FindStatus, TableOk;
    match s.command
    case Forked(r, run) => CheckpointingKeeps(s.slots, r.pid, run); SameUse(s, CommandStep(s, o));
    case Succeeded(r, run) => DoneTable(s, o);
    case ForkFailed(r) => ClearTable(s, o);
    case Failed(r, _) => ClearTable(s, o);
    case Clearing(r) => ClearTable(s, o);
    case _ => IdleTable(s, o);
  }

  /** A pid that is not in the table does not get there unless a slot is given to it. */
  lemma SameUse(s: State, s': State)
    requires TableInv(s) && s'.accept == s.accept && |s'.slots| == |s.slots|
    requires forall i :: 0 <= i < |s.slots| ==> s'.slots[i].pid == s.slots[i].pid || s'.slots[i].pid == NO_PID
    requires Positive(s)
    ensures s'.accept.Register? ==> !InUse(s'.slots, s'.accept.r.pid)
  {
  }

  lemma DoneTable(s: State, o: Outcome)
    requires TableInv(s) && Positive(s) && s.command.Succeeded?
    ensures TableInv(CommandStep(s, o))
  {
    hide FindPid, FindStatus, TableOk;
    if s.command.run < |s.runs| {
      CheckpointedKeeps(s.slots, s.command.r.pid, s.runs[s.command.run].worker);
    }
    SameUse(s, CommandStep(s, o));
  }

  lemma ClearTable(s: State, o: Outcome)
    requires TableInv(s) && Positive(s) && (s.command.ForkFailed? || s.command.Failed? || s.command.Clearing?)
    ensures TableInv(CommandStep(s, o))
  {
    hide FindPid, FindStatus, TableOk;
    ClearPidKeeps(s.slots, s.command.r.pid);
    SameUse(s, CommandStep(s, o));
  }

  lemma IdleTable(s: State, o: Outcome)
    requires TableInv(s) && !s.command.Forked? && !s.command.Succeeded?
    requires !s.command.ForkFailed? && !s.command.Failed? && !s.command.Clearing?
    ensures TableInv(CommandStep(s, o))
  {
    hide FindPid, FindStatus, TableOk;
  }

  lemma LockKept(s: State, l: Label)
    requires |s.entries| == |s.slots| && LockInv(s)
    ensures LockInv(Step(s, l))
  {
    match l
    case Accept =>
    case Command(o) =>
    case _ =>
  }

  // ---- checkpoints under way ---------------------------------------------------------------------

  /** The command thread works for the latest run. */
  predicate RunInv(s: State) {
    HasRun(s.command) ==>
      && s.command.run + 1 == |s.runs|
      && s.runs[s.command.run].pid == s.command.r.pid
      && s.runs[s.command.run].cd == s.command.r.cd
  }

  lemma RunKept(s: State, l: Label)
    requires |s.entries| == |s.slots| && RunInv(s)
    ensures RunInv(Step(s, l))
  {
    hide FindPid, FindStatus, ClearPid;
    match l
    case Command(o) => CommandRun(s, o);
    case _ =>
  }

  lemma CommandRun(s: State, o: Outcome)
    requires |s.entries| == |s.slots| && RunInv(s)
    ensures RunInv(CommandStep(s, o))
  {
    hide FindPid, FindStatus, ClearPid;
    match s.command
    case Starting(r) =>
    case Forked(r, run) =>
    case InCheckpoint(r, run) =>
    case _ =>
  }

  /** Only the checkpoint that the command thread is handling is under way in the table. */
  predicate HandlerInv(s: State) {
    forall i :: 0 <= i < |s.slots| && Underway(s.slots[i]) ==>
      Handling(s.command) && s.command.r.pid == s.slots[i].pid && s.slots[i].sd == s.command.run
  }

  /** No checkpoint is entered in the table, none moves. */
  predicate NoneStarts(t: Table, t': Table) {
    && |t'| == |t|
    && forall i :: 0 <= i < |t| && Underway(t'[i]) ==> t'[i].pid == t[i].pid && t'[i].sd == t[i].sd && Underway(t[i])
  }

  lemma AcceptStarts(s: State)
    requires |s.entries| == |s.slots|
    ensures NoneStarts(s.slots, AcceptStep(s).slots)
  {
    match s.accept
    case Register(r) =>
    case RollBack(r) =>
    case DoAbort(r, i) =>
    case _ =>
  }

  lemma AcceptHandler(s: State)
    requires |s.entries| == |s.slots| && HandlerInv(s)
    ensures HandlerInv(AcceptStep(s))
  {
    AcceptStarts(s);
    assert AcceptStep(s).command == s.command by {
      match s.accept
      case DoAbort(r, i) =>
      case _ =>
    }
  }

  /** Clearing, or completing, the pid of the only checkpoint under way leaves none. */
  lemma NoneLeft(t: Table, t': Table, pid: int, worker: int)
    requires TableOk(t) && pid != NO_PID
    requires t' == ClearPid(t, pid) || t' == SetCheckpointed(t, pid, worker)
    requires forall i :: 0 <= i < |t| && Underway(t[i]) ==> t[i].pid == pid
    ensures forall i :: 0 <= i < |t'| ==> !Underway(t'[i])
  {
  }

  /** With no checkpoint being handled none is under way, and freeing slots starts none. */
  lemma QuietHandler(s: State, s': State)
    requires HandlerInv(s) && !Handling(s.command) && |s'.slots| == |s.slots|
    requires forall i :: 0 <= i < |s.slots| ==> s'.slots[i] == s.slots[i] || s'.slots[i].pid == NO_PID
    ensures HandlerInv(s')
  {
  }

  lemma TakeOverHandler(s: State, r: Request, run: nat)
    requires TableInv(s) && HandlerInv(s) && s.command == Forked(r, run)
    ensures HandlerInv(TakeOver(s, r, run))
  {
    hide FindPid, FindStatus, TableOk;
  }

  lemma CommandHandler(s: State, o: Outcome)
    requires TableInv(s) && Positive(s) && RunInv(s) && HandlerInv(s)
    ensures HandlerInv(CommandStep(s, o))
  {
    hide FindPid, FindStatus, TableOk, SetCheckpointing;
    match s.command
    case Forked(r, run) =>
      TakeOverHandler(s, r, run);
    case InCheckpoint(r, run) =>
    case Succeeded(r, run) =>
      var w := s.runs[run].worker;
      NoneLeft(s.slots, SetCheckpointed(s.slots, r.pid, w), r.pid, w);
    case Failed(r, _) =>
      NoneLeft(s.slots, ClearPid(s.slots, r.pid), r.pid, 0);
    case _ =>
      QuietHandler(s, CommandStep(s, o));
  }

  // ---- all of it ---------------------------------------------------------------------------------

  predicate CoreInv(s: State) {
    Positive(s) && TableInv(s) && LockInv(s) && RunInv(s) && HandlerInv(s)
  }

  lemma CoreInit()
    ensures CoreInv(Init())
  {
  }

  lemma ExitCore(s: State, w: int)
    requires CoreInv(s) && w > 0
    ensures CoreInv(Step(s, Exited(w)))
  {
    ClearWorkerKeeps(s.slots, w);
  }

  lemma CoreKept(s: State, l: Label)
    requires CoreInv(s) && Legal(l)
    ensures CoreInv(Step(s, l))
  {
    LockKept(s, l);
    RunKept(s, l);
    match l
    case Arrive(_, _) =>
    case Accept =>
      AcceptPositive(s);
      AcceptTable(s);
      AcceptHandler(s);
    case Command(o) =>
      CommandPositive(s, o);
      CommandTable(s, o);
      CommandHandler(s, o);
    case Exited(w) =>
      ExitCore(s, w);
  }
}
