/** Interactive sessions that do come to their ends: a smooth one lets the target go, others lose something or crash. */
module Sessions {
  import opened Bytes
  import opened TargetMemory
  import opened DumpCodec
  import opened Protocol
  import opened ProtocolGuarantees
  import opened ProtocolProgress
  import opened WholeRun
  import opened Injection
  import opened InjectionUndone
  import opened Interactive

  // ---- sessions that end well ----------------------------------------------------------------------

  /** Nothing kills the target, the system calls succeed, and the parasite is seen to exit. */
  predicate Smooth(e: Session) {
    && Started(e) && e.report.AtEnd?
    && BlobFate(e.unmapping) == Handled && e.unmapping.answer == 0 && BlobFate(e.unblock) == Handled
  }

  /** Every such session has a schedule that lets the target go, whatever is to be checkpointed. */
  lemma SmoothLetsGo(s0: Image, e: Session, u: Setup) returns (ls: seq<Label>)
    requires e.pageSize > 0 && s0.regs.sp >= SAVED_STACK && s0.alive && !s0.lost && Smooth(e) && ValidSetup(u)
    ensures Outcome(s0, e, JobOf(u), ls).LetGo?
  {
    ls := SomeRelease(u);
    ReleasedExits(u, ls, e.report);
    SmoothEnds(s0, e, JobOf(u), ls);
  }

  lemma SomeRelease(u: Setup) returns (ls: seq<Label>)
    requires ValidSetup(u)
    ensures Run(JobOf(u), Init(JobOf(u)), ls).stage.Released?
  {
    var j := JobOf(u);
    SetupIsValidJob(u);
    assert Run(j, Init(j), []) == Init(j);
    ls := NoScheduleStuck(j, []);
  }

  lemma SmoothEnds(s0: Image, e: Session, j: Job, ls: seq<Label>)
    requires e.pageSize > 0 && s0.regs.sp >= SAVED_STACK && s0.alive && !s0.lost && Smooth(e) && Usable(j.codec)
    requires WaitOf(Run(j, Init(j), ls), e.report).Exited?
    ensures Outcome(s0, e, j, ls).LetGo?
  {
    hide BlobFate, RestoredCtx, Run, WaitOf, UnloadOf, LoadOf, Parked, AfterBlob;
    LoadMeets(s0, e);
    var run := Run(j, Init(j), ls);
    UnloadMeets(Resumed(s0, e, run), ContextOf(s0, e), e, run.target.prot);
  }

  lemma ReleasedExits(u: Setup, ls: seq<Label>, report: Report)
    requires ValidSetup(u) && Run(JobOf(u), Init(JobOf(u)), ls).stage.Released? && report.AtEnd?
    ensures WaitOf(Run(JobOf(u), Init(JobOf(u)), ls), report).Exited?
  {
    SetupIsValidJob(u);
    ReleasedHasExited(JobOf(u), ls);
  }

  // ---- sessions that lose or leave something -------------------------------------------------------

  /** A late stop of the blocking blob: some target is let go with everything blocked. */
  lemma MaskLost(s0: Image, e: Session, lo: nat, u: Setup) returns (ls: seq<Label>)
    requires Sane(s0, e, lo) && Smooth(e) && s0.alive && !s0.lost
    requires ValidSetup(u) && FailuresSettled(u) && u.mem == Parked(s0, e).mem
    requires Kept(s0.mask) == s0.mask != Kept(ONES) && Quiet(e.block.stops) && AnyLate(e.block.stops)
    ensures Outcome(s0, e, JobOf(u), ls).LetGo? && Outcome(s0, e, JobOf(u), ls).image.mask != s0.mask
  {
    ls := SmoothLetsGo(s0, e, u);
    MaskComesBackIff(s0, e, lo, u, ls);
  }

  /** A late stop of the mmap blob: some target is let go with an area mapped that it did not have. */
  lemma AreaLeft(s0: Image, e: Session, lo: nat, u: Setup) returns (ls: seq<Label>)
    requires Sane(s0, e, lo) && Smooth(e) && s0.alive && !s0.lost && e.parasite != []
    requires ValidSetup(u) && FailuresSettled(u) && u.mem == Parked(s0, e).mem
    requires LateMapping(e.mapping.stops)
    ensures Outcome(s0, e, JobOf(u), ls).LetGo? && Outcome(s0, e, JobOf(u), ls).image.mem.Keys != s0.mem.Keys
  {
    ls := SmoothLetsGo(s0, e, u);
    NothingLeftIff(s0, e, lo, u, ls);
  }

  /**
   * A late stop of the clone blob: some target is let go with a second parasite in it, one that did not come to bind
   * its socket before the first one was done. One that does finds the address in use and takes its process down.
   */
  lemma ParasiteLeft(s0: Image, e: Session, lo: nat, u: Setup) returns (ls: seq<Label>)
    requires Sane(s0, e, lo) && Smooth(e) && s0.alive && !s0.lost
    requires ValidSetup(u) && FailuresSettled(u) && u.mem == Parked(s0, e).mem
    requires LateClone(e.cloning.stops)
    ensures Outcome(s0, e, JobOf(u), ls).LetGo? && Outcome(s0, e, JobOf(u), ls).image.threads > s0.threads
  {
    ls := SmoothLetsGo(s0, e, u);
    IntactOrKilled(s0, e, lo, u, ls);
    LateClonesZeroIff(e.cloning.stops);
  }

  // ---- sessions in which memcr crashes -------------------------------------------------------------

  /** SIGKILL while the clone blob runs, in an otherwise smooth session. */
  lemma SigkillCrashes(s0: Image, e: Session, u: Setup, ls: seq<Label>)
    requires e.pageSize > 0 && s0.regs.sp >= SAVED_STACK && s0.alive && !s0.lost && ValidSetup(u)
    requires Smooth(e.(cloning := e.cloning.(killed := false))) && e.cloning.killed
    ensures Outcome(s0, e, JobOf(u), ls).Crashed?
  {
    SetupIsValidJob(u);
    CrashesIff(s0, e, JobOf(u), ls);
  }

  /** A parasite that is stopped by a signal after the restore has begun: the restore succeeds, and memcr crashes. */
  lemma StoppedParasiteCrashes(s0: Image, e: Session, u: Setup) returns (ls: seq<Label>)
    requires e.pageSize > 0 && s0.regs.sp >= SAVED_STACK && s0.alive && !s0.lost && ValidSetup(u)
    requires Smooth(e.(report := AtEnd)) && e.report.Stopped?
    ensures Outcome(s0, e, JobOf(u), ls).Crashed? && Run(JobOf(u), Init(JobOf(u)), ls).stage.Released?
  {
    ls := SomeRelease(u);
    SetupIsValidJob(u);
    CrashesIff(s0, e, JobOf(u), ls);
  }

  // ---- one session with all three late stops -------------------------------------------------------

  /** A target of one page with an empty mask and one thread. */
  const ONE_PAGE: Image :=
    Image(Regs(0, 4096, 0, 0, 0, []), map x: nat | x < 4096 :: 0 as Byte, ZEROS, true, false, 1)

  function Once(late: int, answer: int): Schedule {
    Schedule([Stop(true, late, [])], answer, false)
  }

  /** Each of the first three blobs is stopped once between its system call and its trap. */
  const UNLUCKY: Session :=
    Session(8, 4096, ZEROS, Blob(ZEROS, SetMask), Blob(ZEROS, Map), Blob(ZEROS, Clone), Blob(ZEROS, Unmap),
            Once(0, 0), Once(8192, 4096), Once(2, 3), Schedule([], 0, false), Schedule([], 0, false), AtEnd)

  /** Nothing to checkpoint. */
  function Bare(m: Mem): Setup {
    Setup([], [], 4096, false, false, false, m, map[], map[], Raw, Plainly, i => 0 as Byte)
  }

  lemma OnceHandled(late: int, answer: int)
    ensures BlobFate(Once(late, answer)) == Handled
    ensures LateClones(Once(late, answer).stops) == if late > 0 then 1 else 0
    ensures LateAreas(8, Once(late, answer).stops) == if late >= 0 then Addresses(Region(late, 8)) else {}
    ensures Quiet(Once(late, answer).stops) && AnyLate(Once(late, answer).stops)
  {
    var stops := Once(late, answer).stops;
    assert stops[1..] == [] && stops[0].late;
    assert SignalsFate(stops[0].signals) == Handled;
    assert StopsFate(stops) == StopsFate(stops[1..]) == Handled;
  }

  lemma UnluckyIsSane()
    ensures Sane(ONE_PAGE, UNLUCKY, 4096 - SAVED_STACK) && Smooth(UNLUCKY)
  {
    OnceHandled(0, 0);
    OnceHandled(8192, 4096);
    OnceHandled(2, 3);
    assert StopsFate([]) == Handled;
    assert Areas(UNLUCKY) == Addresses(Region(8192, 8)) + Addresses(Region(4096, 8));
  }

  lemma BareIsValid(m: Mem)
    ensures ValidSetup(Bare(m)) && FailuresSettled(Bare(m))
  {
  }

  /** That session can end with the target let go: its signal mask lost, an area and a parasite left in it. */
  lemma LostAndLeft() returns (u: Setup, ls: seq<Label>)
    ensures ValidSetup(u)
    ensures var end := Outcome(ONE_PAGE, UNLUCKY, JobOf(u), ls);
            && end.LetGo?
            && end.image.mask == Kept(ONES) != ONE_PAGE.mask
            && end.image.mem.Keys == ONE_PAGE.mem.Keys + Addresses(Region(8192, 8))
            && end.image.threads == ONE_PAGE.threads + 1
  {
    hide Outcome, AfterBlob, Sane;
    var s0, e := ONE_PAGE, UNLUCKY;
    u := Bare(Parked(s0, e).mem);
    UnluckyIsSane();
    BareIsValid(Parked(s0, e).mem);
    ls := SmoothLetsGo(s0, e, u);
    IntactOrKilled(s0, e, 4096 - SAVED_STACK, u, ls);
    OnceHandled(8192, 4096);
    OnceHandled(2, 3);
    OnceHandled(0, 0);
    QuietBefore(s0.mask, e.block.stops, ONES);
    KeptTwice(ONES);
    KeptOnes();
  }
}
