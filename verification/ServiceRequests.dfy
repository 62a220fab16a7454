/** Where each client request is: with the accept thread, queued, with the command thread, answered or dropped. */
module ServiceRequests {
  import opened CommandQueue
  import opened ServiceTable
  import opened ServiceSystem
  import opened ServiceInvariant
  import opened ServiceAborts

  // ---- each request is in one place --------------------------------------------------------------

  /** How often a connection is in the queue. */
  function Queued(q: seq<Request>, cd: nat): nat {
    if q == [] then 0 else (if q[0].cd == cd then 1 else 0) + Queued(q[1..], cd)
  }

  lemma {:induction false} QueuedPush(q: seq<Request>, r: Request, cd: nat)
    ensures Queued(q + [r], cd) == Queued(q, cd) + if r.cd == cd then 1 else 0
    decreases q
  {
    if q == [] {
      assert q + [r] == [r] && [r][1..] == [];
    } else {
      QueuedPush(q[1..], r, cd);
      assert (q + [r])[0] == q[0] && (q + [r])[1..] == q[1..] + [r];
    }
  }

  function AtAccept(a: AcceptPc, cd: nat): nat {
    if !a.Idle? && a.r.cd == cd then 1 else 0
  }

  /** The response of a checkpoint is sent before the table is brought up to date, that of a restore before clearing. */
  predicate Owes(c: CommandPc) {
    c.Starting? || c.ForkFailed? || c.Forked? || c.InCheckpoint? || c.LookUp? || c.InRestore?
  }

  function AtCommand(c: CommandPc, cd: nat): nat {
    if Owes(c) && c.r.cd == cd then 1 else 0
  }

  /** In how many places a connection is: being accepted, queued, being handled, answered, or dropped. */
  function Places(s: State, cd: nat): nat {
    AtAccept(s.accept, cd) + Queued(s.queue, cd) + AtCommand(s.command, cd) + s.answered[cd] + s.dropped[cd]
  }

  ghost predicate Accounts(s: State) {
    forall cd: nat :: Places(s, cd) == if cd < s.next then 1 else 0
  }

  lemma AcceptPlaces(s: State, cd: nat)
    requires |s.entries| == |s.slots|
    ensures Places(AcceptStep(s), cd) == Places(s, cd)
    ensures AcceptStep(s).next == s.next
  {
    hide FindPid, FindStatus, ClearPid, InitPid;
    match s.accept
    case PushCheckpoint(r) => QueuedPush(s.queue, r, cd);
    case PushRestore(r) => QueuedPush(s.queue, r, cd);
    case Register(r) =>
    case DoAbort(r, i) =>
    case _ =>
  }

  lemma PopPlaces(s: State, o: Outcome, cd: nat)
    requires |s.entries| == |s.slots| && s.command.Waiting?
    ensures Places(CommandStep(s, o), cd) == Places(s, cd)
    ensures CommandStep(s, o).next == s.next
  {
    hide FindPid, FindStatus, ClearPid;
  }

  lemma StartPlaces(s: State, o: Outcome, cd: nat)
    requires |s.entries| == |s.slots| && (s.command.Starting? || s.command.ForkFailed?)
    ensures Places(CommandStep(s, o), cd) == Places(s, cd)
    ensures CommandStep(s, o).next == s.next
  {
    hide FindPid, FindStatus, ClearPid, SetCheckpointed, SetCheckpointing;
  }

  lemma CheckpointPlaces(s: State, o: Outcome, cd: nat)
    requires |s.entries| == |s.slots| && (s.command.Forked? || s.command.InCheckpoint?)
    ensures Places(CommandStep(s, o), cd) == Places(s, cd)
    ensures CommandStep(s, o).next == s.next
  {
    hide FindPid, FindStatus, ClearPid, SetCheckpointed, SetCheckpointing;
  }

  lemma DonePlaces(s: State, o: Outcome, cd: nat)
    requires |s.entries| == |s.slots|
    requires s.command.Succeeded? || s.command.Failed? || s.command.Clearing? || s.command.Dead?
    ensures Places(CommandStep(s, o), cd) == Places(s, cd)
    ensures CommandStep(s, o).next == s.next
  {
    hide FindPid, FindStatus, ClearPid, SetCheckpointed, SetCheckpointing;
  }

  lemma RestorePlaces(s: State, o: Outcome, cd: nat)
    requires |s.entries| == |s.slots| && (s.command.LookUp? || s.command.InRestore?)
    ensures Places(CommandStep(s, o), cd) == Places(s, cd)
    ensures CommandStep(s, o).next == s.next
  {
    hide FindPid, FindStatus, ClearPid, SetCheckpointed, SetCheckpointing;
  }

  lemma CommandPlaces(s: State, o: Outcome, cd: nat)
    requires |s.entries| == |s.slots|
    ensures Places(CommandStep(s, o), cd) == Places(s, cd)
    ensures CommandStep(s, o).next == s.next
  {
    hide CommandStep, Places;
    match s.command
    case Waiting => PopPlaces(s, o, cd);
    case Starting(r) => StartPlaces(s, o, cd);
    case ForkFailed(r) => StartPlaces(s, o, cd);
    case Forked(r, run) => CheckpointPlaces(s, o, cd);
    case InCheckpoint(r, run) => CheckpointPlaces(s, o, cd);
    case LookUp(r) => RestorePlaces(s, o, cd);
    case InRestore(r) => RestorePlaces(s, o, cd);
    case _ => DonePlaces(s, o, cd);
  }

  lemma AccountsKept(s: State, l: Label)
    requires |s.entries| == |s.slots| && Accounts(s)
    ensures Accounts(Step(s, l))
  {
    forall cd: nat
      ensures Places(Step(s, l), cd) == if cd < Step(s, l).next then 1 else 0
    {
      assert Places(s, cd) == if cd < s.next then 1 else 0;
      match l
      case Arrive(_, _) =>
      case Accept => AcceptPlaces(s, cd);
      case Command(o) => CommandPlaces(s, o, cd);
      case Exited(w) =>
    }
  }

  // ---- first come, first handled -----------------------------------------------------------------

  predicate Fifo(s: State) {
    && s.pushed == s.handled + s.queue
    && |s.queue| <= CAPACITY
    && (CommandHas(s.command) ==> s.handled != [] && s.handled[|s.handled| - 1] == s.command.r)
  }

  lemma AcceptFifo(s: State)
    requires |s.entries| == |s.slots| && Fifo(s)
    ensures Fifo(AcceptStep(s))
  {
    match s.accept
    case PushCheckpoint(r) =>
    case PushRestore(r) =>
    case Register(r) =>
    case DoAbort(r, i) =>
    case _ =>
  }

  lemma CommandFifo(s: State, o: Outcome)
    requires |s.entries| == |s.slots| && Fifo(s)
    ensures Fifo(CommandStep(s, o))
  {
    hide FindPid, FindStatus, ClearPid, SetCheckpointed, SetCheckpointing;
    match s.command
    case Waiting => assert s.queue != [] ==> s.queue == [s.queue[0]] + s.queue[1..];
    case Starting(r) =>
    case Forked(r, run) =>
    case _ =>
  }

  lemma FifoKept(s: State, l: Label)
    requires |s.entries| == |s.slots| && Fifo(s)
    ensures Fifo(Step(s, l))
  {
    match l
    case Arrive(_, _) =>
    case Accept => AcceptFifo(s);
    case Command(o) => CommandFifo(s, o);
    case Exited(w) =>
  }

  // ---- what has been handled was answered --------------------------------------------------------

  /** The command thread has this connection, or is done with it. */
  function Reached(s: State, cd: nat): nat {
    AtCommand(s.command, cd) + s.answered[cd] + s.dropped[cd]
  }

  ghost predicate HandledReached(s: State) {
    forall k :: 0 <= k < |s.handled| ==> Reached(s, s.handled[k].cd) >= 1
  }

  lemma CommandReached(s: State, o: Outcome, cd: nat)
    requires |s.entries| == |s.slots|
    ensures Reached(CommandStep(s, o), cd) >= Reached(s, cd)
    ensures CommandStep(s, o).handled != s.handled ==>
              && s.queue != [] && CommandStep(s, o).handled == s.handled + [s.queue[0]]
              && Reached(CommandStep(s, o), s.queue[0].cd) >= 1
  {
    hide FindPid, FindStatus, ClearPid, SetCheckpointed, SetCheckpointing;
    match s.command
    case Waiting =>
    case Starting(r) =>
    case Forked(r, run) =>
    case InCheckpoint(r, run) =>
    case LookUp(r) =>
    case InRestore(r) =>
    case _ =>
  }

  lemma AcceptReached(s: State, cd: nat)
    requires |s.entries| == |s.slots|
    ensures Reached(AcceptStep(s), cd) >= Reached(s, cd)
    ensures AcceptStep(s).handled == s.handled
  {
    match s.accept
    case Register(r) =>
    case DoAbort(r, i) =>
    case _ =>
  }

  lemma HandledKept(s: State, l: Label)
    requires |s.entries| == |s.slots| && HandledReached(s)
    ensures HandledReached(Step(s, l))
  {
    var s' := Step(s, l);
    forall k | 0 <= k < |s'.handled|
      ensures Reached(s', s'.handled[k].cd) >= 1
    {
      var cd := s'.handled[k].cd;
      match l
      case Arrive(_, _) =>
      case Accept => AcceptReached(s, cd);
      case Command(o) => CommandReached(s, o, cd);
      case Exited(w) =>
    }
  }

  // ---- commands that are neither checkpoint nor restore are not queued ---------------------------

  predicate Known(s: State) {
    && (AcceptHas(s.accept) ==> s.accept.r.kind != Unknown)
    && (forall k :: 0 <= k < |s.queue| ==> s.queue[k].kind != Unknown)
  }

  lemma KnownKept(s: State, l: Label)
    requires |s.entries| == |s.slots| && Known(s)
    ensures Known(Step(s, l))
  {
    hide FindPid, FindStatus, ClearPid, SetCheckpointed, SetCheckpointing;
    match l
    case Accept =>
      match s.accept {
        case Register(r) =>
        case DoAbort(r, i) =>
        case _ =>
      }
    case Command(o) =>
      match s.command {
        case Waiting =>
        case Forked(r, run) =>
        case _ =>
      }
    case _ =>
  }

  // ---- restores that were forwarded --------------------------------------------------------------

  /** Some worker was forked for this pid and answered its checkpoint with MEMCR_OK. */
  predicate AnsweredOk(s: State, pid: int, worker: int) {
    exists k :: 0 <= k < |s.runs| && k in s.oks && s.runs[k].pid == pid && s.runs[k].worker == worker
  }

  predicate Forwarded(s: State) {
    forall k :: 0 <= k < |s.forwards| ==> AnsweredOk(s, s.forwards[k].0, s.forwards[k].1)
  }

  lemma ForwardedGrows(s: State, s': State)
    requires Forwarded(s) && s.runs <= s'.runs && s.oks <= s'.oks && s'.forwards == s.forwards
    ensures Forwarded(s')
  {
    forall k | 0 <= k < |s.forwards|
      ensures AnsweredOk(s', s.forwards[k].0, s.forwards[k].1)
    {
      assert AnsweredOk(s, s.forwards[k].0, s.forwards[k].1);
      var j :| 0 <= j < |s.runs| && j in s.oks
               && s.runs[j].pid == s.forwards[k].0 && s.runs[j].worker == s.forwards[k].1;
      assert s'.runs[j] == s.runs[j];
    }
  }

  /** A worker in the table is one whose checkpoint of that pid succeeded. */
  lemma LookUpForwards(s: State, r: Request, o: Outcome)
    requires CoreInv(s) && AbortInv(s) && Forwarded(s) && s.command == LookUp(r)
    ensures Forwarded(CommandStep(s, o))
  {
    if s.lock == Free && WorkerOf(s.slots, r.pid) != NO_PID {
      var i := FindPid(s.slots, r.pid);
      assert SlotOk(s.slots[i]);
      assert EntryOk(s.slots[i], s.entries[i], s.runs, s.oks, s.aborts);
      assert AnsweredOk(s, r.pid, s.slots[i].worker);
    }
  }

  lemma ForwardedKept(s: State, l: Label)
    requires CoreInv(s) && AbortInv(s) && Forwarded(s)
    ensures Forwarded(Step(s, l))
  {
    hide FindPid, FindStatus, Forwarded, TableOk, EntriesOk;
    match l
    case Command(o) =>
      match s.command {
        case LookUp(r) => LookUpForwards(s, r, o);
        case _ => ForwardedGrows(s, Step(s, l));
      }
    case _ => ForwardedGrows(s, Step(s, l));
  }

  /** While the accept thread may still roll a registration back, the slot of that pid is the one it registered. */
  predicate Owned(s: State) {
    && |s.entries| == |s.slots|
    && ((s.accept.PushCheckpoint? || s.accept.RollBack?) ==>
          forall i :: 0 <= i < |s.slots| && s.slots[i].pid == s.accept.r.pid ==> s.entries[i].owner == s.accept.r.cd)
  }

  lemma AcceptOwned(s: State)
    requires CoreInv(s) && Owned(s)
    ensures Owned(AcceptStep(s))
  {
    match s.accept
    case Register(r) =>
    case DoAbort(r, i) =>
    case _ =>
  }

  lemma CommandOwned(s: State, o: Outcome)
    requires CoreInv(s) && Owned(s)
    ensures Owned(CommandStep(s, o))
  {
    hide FindPid, FindStatus, TableOk;
    var s' := CommandStep(s, o);
    assert s'.accept == s.accept;
    match s.command
    case Forked(r, run) =>
    case Succeeded(r, run) =>
    case _ => assert s'.entries == s.entries;
  }

  lemma OwnedKept(s: State, l: Label)
    requires CoreInv(s) && Owned(s)
    ensures Owned(Step(s, l))
  {
    match l
    case Arrive(_, _) =>
    case Accept => AcceptOwned(s);
    case Command(o) => CommandOwned(s, o);
    case Exited(w) =>
  }
}
