/** What memcr promises of a checkpoint and restore, for every valid job and every schedule of both sides. */
module ProtocolGuarantees {
  import opened Parasite
  import opened Protocol
  import opened ProtocolInvariant
  import opened ProtocolRuns
  import opened ProtocolScript
  import opened ProtocolTheorems

  // ---- safety ------------------------------------------------------------------------------------

  lemma ReachableInv(j: Job, ls: seq<Label>)
    requires ValidJob(j)
    ensures Inv(j, Run(j, Init(j), ls))
  {
    ValidIsSound(j);
    InitInv(j);
    RunKeeps(j, Init(j), ls);
  }

  /** A parasite that has exited has applied all that was sent to it. */
  lemma ExitedTarget(j: Job, s: State)
    requires ValidJob(j) && Main(j, s) && s.target.phase.Exited?
    ensures !s.stage.Checkpointing?
    ensures s.target.mem == MemoryAfter(j) && s.target.prot == j.prot
    ensures s.target.log == Frozen(j).log + SetLog(DumpRecords(j.mem, j.wants)) + ProtLog(j.vmas, false)
  {
    ValidIsSound(j);
    assert s.consumed <= s.sent <= Script(j, s.stage);
    AllExecuted(j, s);
    AfterRestore(j);
    assert Script(j, s.stage) == Script(j, if s.stage.Checkpointing? then Checkpointing else Restoring);
  }

  lemma AllExecuted(j: Job, s: State)
    requires Executed(j, s) && s.target.phase.Exited? && s.consumed <= Script(j, s.stage)
    ensures Exec(j.base, Start(j), Script(j, s.stage)) == s.target
  {
    var rest := Script(j, s.stage)[|s.consumed|..];
    assert Script(j, s.stage) == s.consumed + rest;
    ExecAppend(j.base, Start(j), s.consumed, rest);
    ExecStuck(j.base, s.target, rest);
  }

  /**
   * Whole-run round trip: whatever the schedule, a target that is released has every protection it had before the
   * checkpoint, and every byte of memory exactly when all that was dropped without being dumped was clean.
   */
  lemma ReleasedIntactIff(j: Job, ls: seq<Label>)
    requires ValidJob(j)
    ensures var s := Run(j, Init(j), ls);
            s.stage.Released? ==> s.target.prot == j.prot && (s.target.mem == j.mem <==> FreesClean(j))
  {
    var s := Run(j, Init(j), ls);
    ReachableInv(j, ls);
    if s.stage.Released? {
      ExitedTarget(j, s);
      MemoryComesBackIff(j);
    }
  }

  /**
   * The final barrier: once the parasite has exited normally, every mprotect, every drop and every byte written
   * back has taken effect with the protection or value sent, in the order in which it was sent.
   */
  lemma ExitIsBarrier(j: Job, ls: seq<Label>)
    requires ValidJob(j)
    ensures var s := Run(j, Init(j), ls);
            s.target.phase.Exited? && !s.stage.Killed? ==>
              s.target.log == ProtLog(j.vmas, true) + GetLog(j.wants) + SetLog(DumpRecords(j.mem, j.wants))
                              + ProtLog(j.vmas, false)
  {
    var s := Run(j, Init(j), ls);
    ReachableInv(j, ls);
    if s.target.phase.Exited? && !s.stage.Killed? {
      ExitedTarget(j, s);
    }
  }

  /** memcr lets a target go only when its parasite has exited normally. */
  lemma ReleasedHasExited(j: Job, ls: seq<Label>)
    requires ValidJob(j) && Run(j, Init(j), ls).stage.Released?
    ensures Run(j, Init(j), ls).target.phase.Exited?
  {
    ReachableInv(j, ls);
  }

  /** No page is ever dropped after a page has been written back, in any reachable state. */
  lemma DropsBeforeWrites(j: Job, ls: seq<Label>)
    requires ValidJob(j)
    ensures var log := Run(j, Init(j), ls).target.log;
            forall i, k :: 0 <= i < k < |log| && log[i].Wrote? ==> !log[k].Dropped?
  {
    ReachableInv(j, ls);
  }

  /** The parasite never reads an unreadable page nor stores to an unwritable one. */
  lemma NeverFaults(j: Job, ls: seq<Label>)
    requires ValidJob(j)
    ensures !Run(j, Init(j), ls).target.phase.Faulted?
  {
    ReachableInv(j, ls);
  }
}
