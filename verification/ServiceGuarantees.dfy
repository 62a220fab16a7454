/** What holds in every run of the service, for every interleaving of its threads and its SIGCHLD handler. */
module ServiceGuarantees {
  import opened CommandQueue
  import opened ServiceTable
  import opened ServiceSystem
  import opened ServiceInvariant
  import opened ServiceAborts
  import opened ServiceRequests

  ghost predicate Inv(s: State) {
    && CoreInv(s) && AbortInv(s) && Accounts(s) && Fifo(s) && HandledReached(s) && Known(s) && Forwarded(s) && Owned(s)
  }

  lemma InitInv()
    ensures Inv(Init())
  {
    CoreInit();
    assert EntriesOk(Init());
    forall cd: nat ensures Places(Init(), cd) == 0 {}
  }

  lemma StepKeeps(s: State, l: Label)
    requires Inv(s) && Legal(l)
    ensures Inv(Step(s, l))
  {
    CoreKept(s, l);
    AbortKept(s, l);
    AccountsKept(s, l);
    FifoKept(s, l);
    HandledKept(s, l);
    KnownKept(s, l);
    ForwardedKept(s, l);
    OwnedKept(s, l);
  }

  lemma {:induction false} RunKeeps(s: State, labels: seq<Label>)
    requires Inv(s) && AllLegal(labels)
    ensures Inv(Run(s, labels))
    decreases labels
  {
    if labels != [] {
      StepKeeps(s, labels[0]);
      RunKeeps(Step(s, labels[0]), labels[1..]);
    }
  }

  lemma ReachableInv(labels: seq<Label>)
    requires AllLegal(labels)
    ensures Inv(Run(Init(), labels))
  {
    InitInv();
    RunKeeps(Init(), labels);
  }

  // ---- the table ---------------------------------------------------------------------------------

  /** A process has at most one slot; a used slot has a worker iff CHECKPOINTED, an abort socket iff CHECKPOINTING. */
  lemma TableInvariant(labels: seq<Label>, i: nat, k: nat)
    requires AllLegal(labels) && i < LIMIT && k < LIMIT
    ensures var t := Run(Init(), labels).slots;
            && |t| == LIMIT
            && (t[i].pid != NO_PID && t[i].pid == t[k].pid ==> i == k)
            && (t[i].pid != NO_PID ==> (t[i].worker != NO_PID <==> t[i].status == Checkpointed))
            && (t[i].pid != NO_PID ==> (t[i].sd != NO_SOCKET <==> t[i].status == Checkpointing))
  {
    ReachableInv(labels);
    var t := Run(Init(), labels).slots;
    assert SlotOk(t[i]);
  }

  /** How a slot may change in one step. */
  predicate Moves(a: Slot, b: Slot) {
    || b == a
    || (a.pid == NO_PID && b.pid != NO_PID && b.status == Restored)
    || (a.pid != NO_PID && a.status == Restored && b == a.(status := Checkpointing, sd := b.sd))
    || (&& a.pid != NO_PID && a.status == Checkpointing
        && b == a.(status := Checkpointed, sd := NO_SOCKET, worker := b.worker))
    || (a.status == Restored && b == a.(abort := true))
    || b == Freed(a)
  }

  /** Who may free a used slot, and in which status it can be. */
  predicate MayFree(s: State, l: Label, slot: Slot) {
    match l
    case Arrive(_, _) => false
    case Accept => s.accept.RollBack? && s.accept.r.pid == slot.pid
    case Command(_) =>
      && (s.command.ForkFailed? || s.command.Failed? || s.command.Clearing?)
      && s.command.r.pid == slot.pid
    case Exited(w) => slot.status == Checkpointed && slot.worker == w
  }

  lemma AcceptMoves(s: State, i: nat)
    requires CoreInv(s) && i < |s.slots|
    ensures Moves(s.slots[i], AcceptStep(s).slots[i])
    ensures s.slots[i].pid != NO_PID && AcceptStep(s).slots[i].pid == NO_PID ==> MayFree(s, Accept, s.slots[i])
  {
    match s.accept
    case Register(r) =>
    case RollBack(r) =>
    case DoAbort(r, k) =>
    case _ =>
  }

  lemma CommandMoves(s: State, o: Outcome, i: nat)
    requires CoreInv(s) && i < |s.slots|
    ensures Moves(s.slots[i], CommandStep(s, o).slots[i])
    ensures s.slots[i].pid != NO_PID && CommandStep(s, o).slots[i].pid == NO_PID ==> MayFree(s, Command(o), s.slots[i])
  {
    hide TableOk;
    match s.command
    case Forked(r, run) =>
    case Succeeded(r, run) =>
    case Failed(r, run) =>
    case _ =>
  }

  /** RESTORED, CHECKPOINTING, CHECKPOINTED, or free: a slot goes no other way. */
  lemma LifeCycle(labels: seq<Label>, l: Label, i: nat)
    requires AllLegal(labels) && Legal(l) && i < LIMIT
    ensures var s := Run(Init(), labels);
            && Moves(s.slots[i], Step(s, l).slots[i])
            && (s.slots[i].pid != NO_PID && Step(s, l).slots[i].pid == NO_PID ==> MayFree(s, l, s.slots[i]))
  {
    ReachableInv(labels);
    var s := Run(Init(), labels);
    assert SlotOk(s.slots[i]);
    match l
    case Arrive(_, _) =>
    case Accept => AcceptMoves(s, i);
    case Command(o) => CommandMoves(s, o, i);
    case Exited(w) =>
  }

  // ---- restores and aborts -----------------------------------------------------------------------

  /** A restore goes only to a worker that was forked for that process and answered its checkpoint with MEMCR_OK. */
  lemma RestoresReachOkWorkers(labels: seq<Label>, k: nat)
    requires AllLegal(labels) && k < |Run(Init(), labels).forwards|
    ensures var s := Run(Init(), labels);
            exists j :: 0 <= j < |s.runs| && j in s.oks
                        && s.runs[j].pid == s.forwards[k].0 && s.runs[j].worker == s.forwards[k].1
  {
    ReachableInv(labels);
    var s := Run(Init(), labels);
    assert AnsweredOk(s, s.forwards[k].0, s.forwards[k].1);
  }

  /** Once asked, a registration stays asked until the slot is registered anew. */
  predicate StaysAsked(e: Entry, e': Entry) {
    && e.generation <= e'.generation
    && (e.generation == e'.generation && e.asked ==> e'.asked)
  }

  lemma AskedStep(s: State, l: Label, i: nat)
    requires |s.entries| == |s.slots| && i < |s.entries|
    ensures StaysAsked(s.entries[i], Step(s, l).entries[i])
  {
    match l
    case Accept =>
      match s.accept {
        case Register(r) =>
        case DoAbort(r, k) =>
        case _ =>
      }
    case Command(o) =>
      match s.command {
        case Forked(r, run) =>
        case _ =>
      }
    case _ =>
  }

  lemma {:induction false} AskedRun(s: State, labels: seq<Label>, i: nat)
    requires |s.entries| == |s.slots| && i < |s.entries|
    ensures StaysAsked(s.entries[i], Run(s, labels).entries[i])
    decreases labels
  {
    if labels != [] {
      AskedStep(s, labels[0], i);
      AskedRun(Step(s, labels[0]), labels[1..], i);
    }
  }

  /**
   * An abort is never lost. A restore request finds the slot of its process with the checkpoint queued or running; if
   * that registration survives until its checkpoint has started, the worker's command socket has been sent a RESTORE.
   */
  lemma AbortNeverLost(before: seq<Label>, after: seq<Label>, i: nat)
    requires AllLegal(before) && AllLegal(after) && i < LIMIT
    requires var s := Run(Init(), before); s.accept.DoAbort? && s.accept.i == i
    ensures var s := Run(Init(), before);
            var s' := Run(Step(s, Accept), after);
            s.slots[i].pid != NO_PID && s.slots[i].status != Checkpointed
            && s'.entries[i].generation == s.entries[i].generation
            && s'.slots[i].pid != NO_PID ==>
              if s'.slots[i].status == Restored then s'.slots[i].abort
              else
                var run := s'.entries[i].run;
                && run in s'.aborts && run < |s'.runs| && s'.runs[run].pid == s'.slots[i].pid
                && (s'.slots[i].status == Checkpointing ==> s'.slots[i].sd == run)
                && (s'.slots[i].status == Checkpointed ==> s'.slots[i].worker == s'.runs[run].worker)
  {
    ReachableInv(before);
    var s := Run(Init(), before);
    var t := Step(s, Accept);
    StepKeeps(s, Accept);
    RunKeeps(t, after);
    AskedRun(t, after, i);
    var s' := Run(t, after);
    assert EntryOk(s'.slots[i], s'.entries[i], s'.runs, s'.oks, s'.aborts);
  }

  /**
   * Exactly the doomed registrations are aborted: those a restore was accepted for, and those on a slot whose mark was
   * left set.
   */
  lemma AbortsExact(labels: seq<Label>, i: nat)
    requires AllLegal(labels) && i < LIMIT
    ensures var s := Run(Init(), labels);
            s.slots[i].pid != NO_PID ==>
              (s.entries[i].asked || s.entries[i].stale <==>
                if s.slots[i].status == Restored then s.slots[i].abort else s.entries[i].run in s.aborts)
  {
    ReachableInv(labels);
    var s := Run(Init(), labels);
    assert EntryOk(s.slots[i], s.entries[i], s.runs, s.oks, s.aborts);
  }

  // ---- requests ----------------------------------------------------------------------------------

  /** Requests are handled in the order they were accepted, and at most eight wait. */
  lemma HandledInOrder(labels: seq<Label>)
    requires AllLegal(labels)
    ensures var s := Run(Init(), labels);
            s.handled <= s.pushed && s.pushed[|s.handled|..] == s.queue && |s.queue| <= CAPACITY
  {
    ReachableInv(labels);
  }

  /** Calls that the command thread survives. */
  predicate NoFailures(labels: seq<Label>) {
    forall l :: l in labels && l.Command? ==> l.outcome != NoSockets && l.outcome != NoFork
  }

  lemma CommandDrops(s: State, o: Outcome)
    requires |s.entries| == |s.slots| && Known(s) && !s.command.ForkFailed? && o != NoSockets && o != NoFork
    ensures CommandStep(s, o).dropped == s.dropped && !CommandStep(s, o).command.ForkFailed?
  {
    match s.command
    case Waiting =>
    case Starting(r) =>
    case Forked(r, run) =>
    case _ =>
  }

  lemma AcceptDrops(s: State)
    requires |s.entries| == |s.slots|
    ensures AcceptStep(s).dropped == s.dropped && AcceptStep(s).command == s.command
  {
    match s.accept
    case Register(r) =>
    case DoAbort(r, i) =>
    case _ =>
  }

  lemma {:induction false} NothingDropped(s: State, labels: seq<Label>)
    requires |s.entries| == |s.slots| && Known(s) && NoFailures(labels) && !s.command.ForkFailed?
    ensures Run(s, labels).dropped == s.dropped
    decreases labels
  {
    if labels != [] {
      var l := labels[0];
      KnownKept(s, l);
      match l {
        case Command(o) => CommandDrops(s, o);
        case Accept => AcceptDrops(s);
        case _ =>
      }
      NothingDropped(Step(s, l), labels[1..]);
    }
  }

  /**
   * No client is answered twice; one whose request has been handled was answered once, unless socketpair or fork
   * failed.
   */
  lemma OneResponse(labels: seq<Label>, cd: nat, k: nat)
    requires AllLegal(labels)
    ensures var s := Run(Init(), labels);
            && s.answered[cd] <= (if cd < s.next then 1 else 0)
            && (k < |s.handled| && s.handled[k].cd == cd && !(Owes(s.command) && s.command.r.cd == cd) ==>
                  s.answered[cd] + s.dropped[cd] == 1 && (NoFailures(labels) ==> s.answered[cd] == 1))
  {
    ReachableInv(labels);
    var s := Run(Init(), labels);
    assert Places(s, cd) == if cd < s.next then 1 else 0;
    assert k < |s.handled| ==> Reached(s, s.handled[k].cd) >= 1;
    if NoFailures(labels) {
      NothingDropped(Init(), labels);
    }
  }
}
