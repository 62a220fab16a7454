/** Restores that arrive during a checkpoint, and restores that are forwarded to a worker. */
module ServiceAborts {
  import opened CommandQueue
  import opened ServiceTable
  import opened ServiceSystem
  import opened ServiceInvariant

  /** The current registration of the slot should be aborted: a restore came for it, or it inherited an old mark. */
  predicate Doomed(e: Entry) {
    e.asked || e.stale
  }

  /**
   * A used slot: before its checkpoint starts the mark, afterwards the command socket, shows exactly whether it is
   * doomed.
   */
  predicate EntryOk(slot: Slot, e: Entry, runs: seq<Started>, oks: set<nat>, aborts: set<nat>) {
    slot.pid != NO_PID ==>
      match slot.status
      case Restored => slot.abort <==> Doomed(e)
      case Checkpointing =>
        && e.run < |runs| && runs[e.run].pid == slot.pid && slot.sd == e.run
        && (e.run in aborts <==> Doomed(e))
      case Checkpointed =>
        && e.run < |runs| && runs[e.run].pid == slot.pid && runs[e.run].worker == slot.worker && e.run in oks
        && (e.run in aborts <==> Doomed(e))
  }

  predicate EntriesOk(s: State) {
    && |s.entries| == |s.slots|
    && forall i :: 0 <= i < |s.slots| ==> EntryOk(s.slots[i], s.entries[i], s.runs, s.oks, s.aborts)
  }

  /**
   * Checkpoints that are over belong to earlier runs; a run that has not been entered in the table was sent nothing.
   */
  predicate RunsApart(s: State) {
    && |s.entries| == |s.slots|
    && (forall a :: a in s.aborts ==> a < |s.runs|)
    && (s.command.Forked? ==> s.command.run !in s.aborts)
    && (HasRun(s.command) ==>
          forall i :: 0 <= i < |s.slots| && s.slots[i].pid != NO_PID && s.slots[i].status == Checkpointed ==>
            s.entries[i].run < s.command.run)
    && (s.command.Succeeded? ==> s.command.run in s.oks)
  }

  predicate AbortInv(s: State) {
    EntriesOk(s) && RunsApart(s)
  }

  /** Adding runs and answers, and freeing slots, leaves good entries good. */
  lemma EntriesGrow(s: State, s': State)
    requires EntriesOk(s) && s'.entries == s.entries && |s'.slots| == |s.slots|
    requires forall i :: 0 <= i < |s.slots| ==> s'.slots[i] == s.slots[i] || s'.slots[i].pid == NO_PID
    requires s.runs <= s'.runs && s.oks <= s'.oks && s'.aborts == s.aborts
    ensures EntriesOk(s')
  {
    forall i | 0 <= i < |s.slots|
      ensures EntryOk(s'.slots[i], s'.entries[i], s'.runs, s'.oks, s'.aborts)
    {
      assert EntryOk(s.slots[i], s.entries[i], s.runs, s.oks, s.aborts);
    }
  }

  lemma RegisterEntries(s: State, r: Request)
    requires EntriesOk(s)
    ensures EntriesOk(RegisterStep(s, r))
  {
  }

  /** The abort reaches the run of its own slot and of no other. */
  lemma AbortEntries(s: State, r: Request, i: nat)
    requires AbortInv(s) && CoreInv(s) && s.accept == DoAbort(r, i)
    ensures EntriesOk(AbortStep(s, r, i))
  {
    var s' := AbortStep(s, r, i);
    forall k | 0 <= k < |s.slots|
      ensures EntryOk(s'.slots[k], s'.entries[k], s'.runs, s'.oks, s'.aborts)
    {
      assert EntryOk(s.slots[k], s.entries[k], s.runs, s.oks, s.aborts);
      assert EntryOk(s.slots[i], s.entries[i], s.runs, s.oks, s.aborts);
    }
  }

  lemma TakeOverEntries(s: State, r: Request, run: nat)
    requires AbortInv(s) && CoreInv(s) && s.command == Forked(r, run)
    ensures EntriesOk(TakeOver(s, r, run))
  {
    var s' := TakeOver(s, r, run);
    forall k | 0 <= k < |s.slots|
      ensures EntryOk(s'.slots[k], s'.entries[k], s'.runs, s'.oks, s'.aborts)
    {
      assert EntryOk(s.slots[k], s.entries[k], s.runs, s.oks, s.aborts);
    }
  }

  lemma CompleteEntries(s: State, r: Request, run: nat)
    requires AbortInv(s) && CoreInv(s) && s.command == Succeeded(r, run)
    ensures EntriesOk(CommandStep(s, NoFork))
  {
    var s' := CommandStep(s, NoFork);
    forall k | 0 <= k < |s.slots|
      ensures EntryOk(s'.slots[k], s'.entries[k], s'.runs, s'.oks, s'.aborts)
    {
      assert EntryOk(s.slots[k], s.entries[k], s.runs, s.oks, s.aborts);
    }
  }

  lemma AcceptEntries(s: State)
    requires AbortInv(s) && CoreInv(s)
    ensures EntriesOk(AcceptStep(s))
  {
    hide AcceptStep, EntriesOk;
    match s.accept
    case Register(r) => RegisterStepEntries(s);
    case DoAbort(r, i) => AbortStepEntries(s);
    case _ => OtherAcceptEntries(s);
  }

  lemma RegisterStepEntries(s: State)
    requires EntriesOk(s) && s.accept.Register?
    ensures EntriesOk(AcceptStep(s))
  {
    hide EntriesOk, RegisterStep;
    RegisterEntries(s, s.accept.r);
  }

  lemma AbortStepEntries(s: State)
    requires AbortInv(s) && CoreInv(s) && s.accept.DoAbort?
    ensures EntriesOk(AcceptStep(s))
  {
    hide EntriesOk, AbortStep;
    AbortEntries(s, s.accept.r, s.accept.i);
  }

  lemma OtherAcceptEntries(s: State)
    requires EntriesOk(s) && !s.accept.Register? && !s.accept.DoAbort?
    ensures EntriesOk(AcceptStep(s))
  {
    hide EntryOk, FindPid, FindStatus;
    EntriesGrow(s, AcceptStep(s));
  }

  lemma CommandEntries(s: State, o: Outcome)
    requires AbortInv(s) && CoreInv(s)
    ensures EntriesOk(CommandStep(s, o))
  {
    hide CommandStep, EntriesOk;
    match s.command
    case Forked(r, run) => ForkedEntries(s, o);
    case Succeeded(r, run) => SucceededEntries(s, o);
    case Starting(r) => StartEntries(s, r, o);
    case ForkFailed(r) => ClearEntries(s, o);
    case Failed(r, run) => ClearEntries(s, o);
    case Clearing(r) => ClearEntries(s, o);
    case _ => IdleEntries(s, o);
  }

  lemma ForkedEntries(s: State, o: Outcome)
    requires AbortInv(s) && CoreInv(s) && s.command.Forked?
    ensures EntriesOk(CommandStep(s, o))
  {
    hide EntriesOk, TakeOver;
    TakeOverEntries(s, s.command.r, s.command.run);
  }

  lemma SucceededEntries(s: State, o: Outcome)
    requires AbortInv(s) && CoreInv(s) && s.command.Succeeded?
    ensures EntriesOk(CommandStep(s, o))
  {
    hide EntriesOk;
    CompleteEntries(s, s.command.r, s.command.run);
  }

  lemma ClearEntries(s: State, o: Outcome)
    requires EntriesOk(s) && (s.command.ForkFailed? || s.command.Failed? || s.command.Clearing?)
    ensures EntriesOk(CommandStep(s, o))
  {
    hide EntryOk;
    EntriesGrow(s, CommandStep(s, o));
  }

  lemma IdleEntries(s: State, o: Outcome)
    requires EntriesOk(s) && !s.command.Forked? && !s.command.Succeeded? && !s.command.Starting?
    requires !s.command.ForkFailed? && !s.command.Failed? && !s.command.Clearing?
    ensures EntriesOk(CommandStep(s, o))
  {
    hide EntryOk;
    SameTableEntries(s, CommandStep(s, o));
  }

  lemma StartEntries(s: State, r: Request, o: Outcome)
    requires EntriesOk(s) && s.command == Starting(r)
    ensures EntriesOk(CommandStep(s, o))
  {
    EntriesGrow(s, CommandStep(s, o));
  }

  lemma SameTableEntries(s: State, s': State)
    requires EntriesOk(s) && s'.entries == s.entries && s'.slots == s.slots && s'.runs == s.runs
    requires s.oks <= s'.oks && s'.aborts == s.aborts
    ensures EntriesOk(s')
  {
    EntriesGrow(s, s');
  }

  lemma AcceptApart(s: State)
    requires AbortInv(s) && CoreInv(s)
    ensures RunsApart(AcceptStep(s))
  {
    hide FindPid, FindStatus, TableOk, EntriesOk;
    match s.accept
    case Register(r) =>
    case RollBack(r) =>
    case DoAbort(r, i) => AbortApart(s, r, i);
    case _ =>
  }

  lemma AbortApart(s: State, r: Request, i: nat)
    requires RunsApart(s) && CoreInv(s) && s.accept == DoAbort(r, i)
    ensures RunsApart(AbortStep(s, r, i))
  {
  }

  lemma CommandApart(s: State, o: Outcome)
    requires AbortInv(s) && CoreInv(s)
    ensures RunsApart(CommandStep(s, o))
  {
    hide CommandStep, RunsApart;
    match s.command
    case Starting(r) => StartApart(s, o);
    case Forked(r, run) => ForkedApart(s, o);
    case InCheckpoint(r, run) => AnswerApart(s, o);
    case _ => OtherApart(s, o);
  }

  /** The new run is later than every run in the table. */
  lemma StartApart(s: State, o: Outcome)
    requires AbortInv(s) && s.command.Starting?
    ensures RunsApart(CommandStep(s, o))
  {
    var s' := CommandStep(s, o);
    if HasRun(s'.command) {
      forall i | 0 <= i < |s.slots| && s.slots[i].pid != NO_PID && s.slots[i].status == Checkpointed
        ensures s.entries[i].run < s'.command.run
      {
        assert EntryOk(s.slots[i], s.entries[i], s.runs, s.oks, s.aborts);
      }
    }
  }

  lemma ForkedApart(s: State, o: Outcome)
    requires RunsApart(s) && CoreInv(s) && s.command.Forked?
    ensures RunsApart(CommandStep(s, o))
  {
    hide TakeOver, RunsApart;
    TakeOverApart(s, s.command.r, s.command.run);
  }

  lemma AnswerApart(s: State, o: Outcome)
    requires RunsApart(s) && s.command.InCheckpoint?
    ensures RunsApart(CommandStep(s, o))
  {
  }

  lemma OtherApart(s: State, o: Outcome)
    requires RunsApart(s) && !s.command.Starting? && !s.command.Forked? && !s.command.InCheckpoint?
    ensures RunsApart(CommandStep(s, o))
  {
    hide FindPid, FindStatus;
  }

  lemma TakeOverApart(s: State, r: Request, run: nat)
    requires RunsApart(s) && CoreInv(s) && s.command == Forked(r, run)
    ensures RunsApart(TakeOver(s, r, run))
  {
  }

  lemma AbortKept(s: State, l: Label)
    requires AbortInv(s) && CoreInv(s)
    ensures AbortInv(Step(s, l))
  {
    match l
    case Arrive(_, _) => EntriesGrow(s, Step(s, l));
    case Accept => AcceptEntries(s); AcceptApart(s);
    case Command(o) => CommandEntries(s, o); CommandApart(s, o);
    case Exited(w) => EntriesGrow(s, Step(s, l));
  }
}
