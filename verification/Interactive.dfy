/** user_interactive_mode: seize, inject, checkpoint, restore, clean up, release or kill. */
module Interactive {
  import opened Bytes
  import opened TargetMemory
  import opened DumpCodec
  import opened Protocol
  import opened Injection
  import opened InjectionUndone
  import opened WholeRun
  import opened ProtocolScript

  /**
   * What the watch thread's wait reports of the parasite: its end, by exit or by a signal; anything at all before the
   * restore begins; or a stop, by a trap, a fault or SIGSTOP, once the restore has begun.
   */
  datatype Report = AtEnd | Early | Stopped

  /** The blobs, what happens to the main thread while each of them runs, and what is reported of the parasite. */
  datatype Session = Session(
    codeSize: nat,
    pageSize: nat,
    parasite: seq<Byte>,
    maskBlob: Blob, mapBlob: Blob, cloneBlob: Blob, unmapBlob: Blob,
    block: Schedule, mapping: Schedule, cloning: Schedule, unmapping: Schedule, unblock: Schedule,
    report: Report)

  /** How memcr leaves the target; Frozen when the restore is not over, Crashed when an assertion of memcr fails. */
  datatype End = Crashed | Slain | Frozen | LetGo(image: Image, prot: ProtMap)

  // ---- execute_parasite_checkpoint ---------------------------------------------------------------

  function Blocked(s0: Image, e: Session): Image
    requires e.pageSize > 0 && s0.regs.sp >= SAVED_STACK
  {
    AfterMask(s0, Saved(s0, e.codeSize, e.pageSize), e.maskBlob, ONES, e.block)
  }

  function ContextOf(s0: Image, e: Session): Context
    requires e.pageSize > 0 && s0.regs.sp >= SAVED_STACK
  {
    var c := Saved(s0, e.codeSize, e.pageSize);
    c.(sigset := Slice(Blocked(s0, e).mem, Region(c.sp, 8)))
  }

  function Mapped(s0: Image, e: Session): Image
    requires e.pageSize > 0 && s0.regs.sp >= SAVED_STACK
  {
    AfterBlob(Blocked(s0, e), ContextOf(s0, e), e.mapBlob, |e.parasite|, 0, e.mapping)
  }

  /** The main thread after signals_unblock when there is no memory for the parasite. */
  function GivenUp(s0: Image, e: Session): Image
    requires e.pageSize > 0 && s0.regs.sp >= SAVED_STACK
  {
    AfterMask(Mapped(s0, e), ContextOf(s0, e), e.maskBlob, ContextOf(s0, e).sigset, e.unblock)
  }

  /** Where the parasite goes. */
  function Area(e: Session): Region {
    Region(if e.mapping.answer < 0 then 0 else e.mapping.answer, if e.mapping.answer < 0 then 0 else |e.parasite|)
  }

  /** The main thread with the parasite loaded and started, as the checkpoint finds it. */
  function Parked(s0: Image, e: Session): Image
    requires e.pageSize > 0 && s0.regs.sp >= SAVED_STACK
  {
    var s := Mapped(s0, e);
    var a := Area(e).addr;
    AfterBlob(s.(mem := Store(s.mem, a, e.parasite)), ContextOf(s0, e), e.cloneBlob, a, 0, e.cloning)
  }

  // ---- execute_parasite_restore ------------------------------------------------------------------

  function Unmapped(s: Image, c: Context, e: Session): Image {
    AfterBlob(s, c, e.unmapBlob, Area(e).addr, |e.parasite|, e.unmapping)
  }

  function Unblocked(s: Image, c: Context, e: Session): Image {
    AfterMask(Unmapped(s, c, e), c, e.maskBlob, c.sigset, e.unblock)
  }

  // ---- the whole session -------------------------------------------------------------------------

  /** cmd_restore has sent everything. */
  predicate RestoreOver(run: State) {
    run.stage.Released? || (run.stage.Restoring? && run.todo == [])
  }

  /**
   * How far execute_parasite_checkpoint gets before cmd_checkpoint. A target that dies while it is blocked or mapped
   * makes a later request to it trip an assertion, whichever way it died; a failed clone passes the assertion on its
   * unsigned result, and the checkpoint then finds no parasite to connect to.
   */
  datatype Load = Asserted | NotMapped | NoParasite | Loaded

  function LoadOf(s0: Image, e: Session): Load
    requires e.pageSize > 0 && s0.regs.sp >= SAVED_STACK
  {
    if !Blocked(s0, e).alive || !Mapped(s0, e).alive then Asserted
    else if e.mapping.answer < 0 then (if GivenUp(s0, e).lost then Asserted else NotMapped)
    else if Parked(s0, e).lost then Asserted
    else if !Parked(s0, e).alive || e.cloning.answer < 0 then NoParasite
    else if e.cloning.answer == 0 then Asserted
    else Loaded
  }

  /** What parasite_status_wait and the checks after it make of the run; nothing when memcr goes on waiting. */
  datatype Wait = Waiting | Failing | Asserting | Exited

  function WaitOf(run: State, report: Report): Wait {
    if run.stage.Killed? then Failing
    else if run.stage.Checkpointing? then Waiting
    else if report.Early? then Failing
    else if !RestoreOver(run) then Waiting
    else if report.Stopped? then Asserting
    else if run.target.phase.Died? || run.target.phase.Faulted? then Failing
    else if run.stage.Released? then Exited
    else Waiting
  }

  /** The main thread when the parasite has exited. */
  function Resumed(s0: Image, e: Session, run: State): Image
    requires e.pageSize > 0 && s0.regs.sp >= SAVED_STACK
  {
    var s := Parked(s0, e);
    s.(mem := run.target.mem, threads := s.threads - 1)
  }

  /** The end of execute_parasite_restore. */
  function UnloadOf(s: Image, c: Context, e: Session, prot: ProtMap): End {
    if Unmapped(s, c, e).lost then Crashed
    else if !Unmapped(s, c, e).alive || e.unmapping.answer != 0 then Slain
    else if Unblocked(s, c, e).lost then Crashed
    else if !Unblocked(s, c, e).alive then Slain
    else LetGo(RestoredCtx(Unblocked(s, c, e), c), prot)
  }

  /** What a session comes to, given the checkpoint job and the schedule of memcr and the parasite. */
  function Outcome(s0: Image, e: Session, j: Job, ls: seq<Label>): End
    requires e.pageSize > 0 && s0.regs.sp >= SAVED_STACK && Usable(j.codec)
  {
    match LoadOf(s0, e)
    case Asserted => Crashed
    case NotMapped => Slain
    case NoParasite => Slain
    case Loaded =>
      var run := Run(j, Init(j), ls);
      match WaitOf(run, e.report)
      case Waiting => Frozen
      case Failing => Slain
      case Asserting => Crashed
      case Exited => UnloadOf(Resumed(s0, e, run), ContextOf(s0, e), e, run.target.prot)
  }

  predicate WordSized(e: Session) {
    && e.codeSize % WORD == 0 && |e.parasite| % WORD == 0
    && |e.maskBlob.code| % WORD == 0 && |e.mapBlob.code| % WORD == 0
    && |e.cloneBlob.code| % WORD == 0 && |e.unmapBlob.code| % WORD == 0
    && e.maskBlob.call == SetMask && e.mapBlob.call == Map && e.cloneBlob.call == Clone && e.unmapBlob.call == Unmap
  }

  /** execute_parasite_checkpoint up to the checkpoint command. */
  method LoadParasite(t: Tracee, e: Session) returns (load: Load, c: Context)
    requires e.pageSize > 0 && t.regs.sp >= SAVED_STACK && t.alive && WordSized(e)
    modifies t
    ensures load == LoadOf(old(t.Now()), e)
    ensures load.Loaded? ==> t.Now() == Parked(old(t.Now()), e) && c == ContextOf(old(t.Now()), e)
    ensures load.Loaded? ==> t.alive && |c.code| == e.codeSize && |c.stack| == SAVED_STACK
  {
    hide AfterBlob;
    c := t.CtxSave(e.codeSize, e.pageSize);
    c := t.SignalsBlock(c, e.maskBlob, e.block);
    if !t.alive {
      return Asserted, c;
    }
    var ret := t.ExecuteBlob(c, e.mapBlob, |e.parasite|, 0, e.mapping);
    if !t.alive {
      return Asserted, c;
    }
    if ret < 0 {
      var r := t.SignalsUnblock(c, e.maskBlob, e.unblock);
      if t.lost {
        return Asserted, c;
      }
      t.CtxRestore(c);
      return NotMapped, c;
    }
    t.Poke(ret, e.parasite);
    ret := t.ExecuteBlob(c, e.cloneBlob, ret, 0, e.cloning);
    if t.lost || ret == 0 {
      return Asserted, c;
    }
    load := if ret < 0 then NoParasite else Loaded;
  }

  /** execute_parasite_restore, once the parasite has exited. */
  method UnloadParasite(t: Tracee, c: Context, e: Session, prot: ProtMap) returns (end: End)
    requires t.alive && WordSized(e) && |c.code| % WORD == 0 && |c.stack| % WORD == 0
    modifies t
    ensures end == UnloadOf(old(t.Now()), c, e, prot)
    ensures end.LetGo? ==> t.Now() == end.image
  {
    var ret := t.ExecuteBlob(c, e.unmapBlob, Area(e).addr, |e.parasite|, e.unmapping);
    if t.lost {
      return Crashed;
    }
    if ret != 0 {
      return Slain;
    }
    ret := t.SignalsUnblock(c, e.maskBlob, e.unblock);
    if t.lost {
      return Crashed;
    }
    if ret != 0 {
      return Slain;
    }
    t.CtxRestore(c);
    end := LetGo(t.Now(), prot);
  }

  /** user_interactive_mode, past seizing. */
  method UserInteractiveMode(t: Tracee, e: Session, j: Job, ls: seq<Label>) returns (end: End)
    requires e.pageSize > 0 && t.regs.sp >= SAVED_STACK && t.alive && !t.lost && WordSized(e) && Usable(j.codec)
    modifies t
    ensures end == Outcome(old(t.Now()), e, j, ls)
    ensures end.LetGo? ==> t.Now() == end.image
  {
    hide LoadOf, Parked, ContextOf, UnloadOf, WaitOf, Run;
    var load, c := LoadParasite(t, e);
    match load {
      case Asserted => return Crashed;
      case NotMapped => return Slain;
      case NoParasite => return Slain;
      case Loaded =>
    }
    var run := Run(j, Init(j), ls);
    match WaitOf(run, e.report) {
      case Waiting => return Frozen;
      case Failing => return Slain;
      case Asserting => return Crashed;
      case Exited =>
    }
    t.mem, t.threads := run.target.mem, t.threads - 1;
    end := UnloadParasite(t, c, e, run.target.prot);
  }

  // ---- intact or killed --------------------------------------------------------------------------

  /** The stack down to lo, where handler frames are built. */
  function Zone(s0: Image, lo: nat): Region
    requires lo <= s0.regs.sp
  {
    Region(lo, s0.regs.sp - lo)
  }

  /** All addresses that the mmap blob maps, those of late stops included. */
  function Areas(e: Session): set<nat> {
    LateAreas(|e.parasite|, e.mapping.stops) + Addresses(Area(e))
  }

  /**
   * What is asked of the kernel and of the signals: the blobs fit into the saved code, handler frames stay on the
   * stack and off the code, and mmap gives unused areas.
   */
  predicate Sane(s0: Image, e: Session, lo: nat) {
    && e.pageSize > 0 && SAVED_STACK <= s0.regs.sp && lo <= s0.regs.sp - SAVED_STACK
    && WordSized(e)
    && |e.maskBlob.code| <= e.codeSize && |e.mapBlob.code| <= e.codeSize
    && |e.cloneBlob.code| <= e.codeSize && |e.unmapBlob.code| <= e.codeSize
    && Apart(Zone(s0, lo), Region(Saved(s0, e.codeSize, e.pageSize).pc, e.codeSize))
    && (forall x: nat :: s0.regs.sp - SAVED_STACK <= x < s0.regs.sp ==> x in s0.mem)
    && StopsIn(e.block.stops, Zone(s0, lo)) && StopsIn(e.mapping.stops, Zone(s0, lo))
    && StopsIn(e.cloning.stops, Zone(s0, lo)) && StopsIn(e.unmapping.stops, Zone(s0, lo))
    && StopsIn(e.unblock.stops, Zone(s0, lo))
    && Fresh(s0.mem, Areas(e)) && LateAreas(|e.parasite|, e.mapping.stops) !! Addresses(Area(e))
  }

  function CodeOf(s0: Image, e: Session): Region
    requires e.pageSize > 0 && SAVED_STACK <= s0.regs.sp
  {
    Region(Saved(s0, e.codeSize, e.pageSize).pc, e.codeSize)
  }

  /** What may differ from the memory at seizure before ctx_restore. */
  predicate Near(s0: Image, e: Session, lo: nat, m: Mem)
    requires Sane(s0, e, lo)
  {
    Around(s0.mem, m, Areas(e), Zone(s0, lo), CodeOf(s0, e))
  }

  /** A context whose addresses are those of the seizure. */
  predicate At0(s0: Image, e: Session, c: Context)
    requires e.pageSize > 0 && SAVED_STACK <= s0.regs.sp
  {
    c.pc == CodeOf(s0, e).addr && c.sp == s0.regs.sp - SAVED_STACK
  }

  /** A mask blob changes nothing outside stack and code. */
  lemma MaskNear(s0: Image, e: Session, lo: nat, s: Image, c: Context, w: Mask, sch: Schedule)
    requires Sane(s0, e, lo) && At0(s0, e, c) && StopsIn(sch.stops, Zone(s0, lo)) && Near(s0, e, lo, s.mem)
    ensures Near(s0, e, lo, AfterMask(s, c, e.maskBlob, w, sch).mem)
    ensures AfterMask(s, c, e.maskBlob, w, sch).alive ==>
              AfterMask(s, c, e.maskBlob, w, sch).mem.Keys == s.mem.Keys
  {
    var z, k, s' := Zone(s0, lo), CodeOf(s0, e), s.(mem := Store(s.mem, c.sp, w));
    StoreAround(s0.mem, s.mem, Areas(e), z, k, c.sp, w);
    BlobAround(s', c, e.maskBlob, c.sp, 0, sch, s0.mem, Areas(e), z, k);
    if AfterMask(s, c, e.maskBlob, w, sch).alive {
      BlobKeys(s', c, e.maskBlob, c.sp, 0, sch);
    }
  }

  lemma BlockedNear(s0: Image, e: Session, lo: nat)
    requires Sane(s0, e, lo)
    ensures Near(s0, e, lo, Blocked(s0, e).mem)
    ensures Blocked(s0, e).alive ==> Blocked(s0, e).mem.Keys == s0.mem.Keys
  {
    MaskNear(s0, e, lo, s0, Saved(s0, e.codeSize, e.pageSize), ONES, e.block);
  }

  /** Every area that a stop of the mmap blob maps is among all of them. */
  lemma {:induction false} LateModest(len: nat, stops: seq<Stop>, i: nat)
    requires i < |stops| && stops[i].late && stops[i].answer >= 0
    ensures Addresses(Region(stops[i].answer, len)) <= LateAreas(len, stops)
    decreases stops
  {
    if i > 0 {
      LateModest(len, stops[1..], i - 1);
    }
  }

  lemma MapIsModest(s0: Image, e: Session, lo: nat)
    requires Sane(s0, e, lo)
    ensures ModestStops(Map, |e.parasite|, 0, e.mapping.stops, Areas(e), Zone(s0, lo))
  {
    forall i | 0 <= i < |e.mapping.stops| && e.mapping.stops[i].late
      ensures Modest(Map, |e.parasite|, 0, e.mapping.stops[i].answer, Areas(e), Zone(s0, lo))
    {
      if e.mapping.stops[i].answer >= 0 {
        LateModest(|e.parasite|, e.mapping.stops, i);
      }
    }
  }

  lemma MappedNear(s0: Image, e: Session, lo: nat)
    requires Sane(s0, e, lo) && e.mapping.answer >= 0
    ensures Near(s0, e, lo, Mapped(s0, e).mem)
  {
    BlockedNear(s0, e, lo);
    MapIsModest(s0, e, lo);
    BlobAround(Blocked(s0, e), ContextOf(s0, e), e.mapBlob, |e.parasite|, 0, e.mapping, s0.mem, Areas(e),
               Zone(s0, lo), CodeOf(s0, e));
  }

  lemma ParkedNear(s0: Image, e: Session, lo: nat)
    requires Sane(s0, e, lo) && e.mapping.answer >= 0
    ensures Near(s0, e, lo, Parked(s0, e).mem)
  {
    MappedNear(s0, e, lo);
    var z, k, a, s := Zone(s0, lo), CodeOf(s0, e), Area(e).addr, Mapped(s0, e);
    StoreAround(s0.mem, s.mem, Areas(e), z, k, a, e.parasite);
    BlobAround(s.(mem := Store(s.mem, a, e.parasite)), ContextOf(s0, e), e.cloneBlob, a, 0, e.cloning, s0.mem, Areas(e),
               z, k);
  }

  lemma ParkedKeys(s0: Image, e: Session, lo: nat)
    requires Sane(s0, e, lo) && e.mapping.answer >= 0
    requires Blocked(s0, e).alive && Mapped(s0, e).alive && Parked(s0, e).alive
    ensures Parked(s0, e).mem.Keys == s0.mem.Keys + Areas(e)
  {
    hide AfterBlob, LateAreas, StopsIn;
    BlockedNear(s0, e, lo);
    BlobKeys(Blocked(s0, e), ContextOf(s0, e), e.mapBlob, |e.parasite|, 0, e.mapping);
    var s := Mapped(s0, e);
    var a := Area(e).addr;
    BlobKeys(s.(mem := Store(s.mem, a, e.parasite)), ContextOf(s0, e), e.cloneBlob, a, 0, e.cloning);
  }

  /** A successful munmap takes the area away again, and only that. */
  lemma UnmappedNear(s0: Image, e: Session, lo: nat, s: Image, c: Context)
    requires Sane(s0, e, lo) && At0(s0, e, c) && Near(s0, e, lo, s.mem) && s.mem.Keys == s0.mem.Keys + Areas(e)
    requires e.mapping.answer >= 0 && e.unmapping.answer == 0 && Unmapped(s, c, e).alive
    ensures Near(s0, e, lo, Unmapped(s, c, e).mem) && Unmapped(s, c, e).regs == s.regs
    ensures Unmapped(s, c, e).mem.Keys == s0.mem.Keys + LateAreas(|e.parasite|, e.mapping.stops)
  {
    BlobAround(s, c, e.unmapBlob, Area(e).addr, |e.parasite|, e.unmapping, s0.mem, Areas(e), Zone(s0, lo),
               CodeOf(s0, e));
    BlobKeys(s, c, e.unmapBlob, Area(e).addr, |e.parasite|, e.unmapping);
  }

  /** signals_unblock sets the saved mask whatever signals come, and leaves the registers alone. */
  lemma UnblockSets(s0: Image, e: Session, lo: nat, v: Image, c: Context)
    requires Sane(s0, e, lo) && At0(s0, e, c) && Near(s0, e, lo, v.mem)
    requires AfterMask(v, c, e.maskBlob, c.sigset, e.unblock).alive
    ensures var t := AfterMask(v, c, e.maskBlob, c.sigset, e.unblock);
            t.mask == Kept(c.sigset) && t.regs == v.regs
  {
    MaskIsSet(v, c, e.maskBlob, c.sigset, e.unblock);
  }

  /** The memory of the seizure is back, apart from stack below the saved words. */
  predicate Back(s0: Image, m: Mem, lo: nat) {
    forall x :: x in s0.mem ==> x in m && (!(lo <= x < s0.regs.sp - SAVED_STACK) ==> m[x] == s0.mem[x])
  }

  lemma RestoreGives(s0: Image, e: Session, lo: nat, v: Image)
    requires Sane(s0, e, lo) && Near(s0, e, lo, v.mem)
    ensures var t := RestoredCtx(v, ContextOf(s0, e));
            && t.mem.Keys == v.mem.Keys && Back(s0, t.mem, lo)
            && t == v.(mem := t.mem)
  {
    RestoreAround(s0, v, e.codeSize, e.pageSize, lo, Areas(e));
  }

  /** After unmapping and unblocking, ctx_restore gives back memory and registers, and the mask that was saved. */
  lemma UnloadGivesBack(s0: Image, e: Session, lo: nat, s: Image)
    requires Sane(s0, e, lo) && e.mapping.answer >= 0 && e.unmapping.answer == 0 && s.regs == s0.regs
    requires Near(s0, e, lo, s.mem) && s.mem.Keys == s0.mem.Keys + Areas(e)
    requires var c := ContextOf(s0, e); Unmapped(s, c, e).alive && Unblocked(s, c, e).alive
    ensures var c := ContextOf(s0, e);
            var t := RestoredCtx(Unblocked(s, c, e), c);
            && t.mem.Keys == s0.mem.Keys + LateAreas(|e.parasite|, e.mapping.stops) && Back(s0, t.mem, lo)
            && t.regs == s0.regs && t.mask == Kept(c.sigset) && t.alive
  {
    hide Near, Back, AfterBlob, RestoredCtx, Areas, LateAreas, StopsIn;
    var c := ContextOf(s0, e);
    UnmappedNear(s0, e, lo, s, c);
    UnblockNear(s0, e, lo, Unmapped(s, c, e), c);
    UnblockSets(s0, e, lo, Unmapped(s, c, e), c);
    RestoreGives(s0, e, lo, Unblocked(s, c, e));
  }

  lemma UnblockNear(s0: Image, e: Session, lo: nat, v: Image, c: Context)
    requires Sane(s0, e, lo) && At0(s0, e, c) && Near(s0, e, lo, v.mem)
    requires AfterMask(v, c, e.maskBlob, c.sigset, e.unblock).alive
    ensures Near(s0, e, lo, AfterMask(v, c, e.maskBlob, c.sigset, e.unblock).mem)
    ensures AfterMask(v, c, e.maskBlob, c.sigset, e.unblock).mem.Keys == v.mem.Keys
  {
    MaskNear(s0, e, lo, v, c, c.sigset, e.unblock);
  }

  /** The mask that signals_block saved. */
  lemma SavedMask(s0: Image, e: Session, lo: nat)
    requires Sane(s0, e, lo) && Blocked(s0, e).alive
    ensures ContextOf(s0, e).sigset == MaskBefore(s0.mask, e.block.stops, ONES)
  {
    MaskIsSet(s0, Saved(s0, e.codeSize, e.pageSize), e.maskBlob, ONES, e.block);
  }

  /** All blobs but clone leave the number of threads alone. */
  lemma ParkedThreads(s0: Image, e: Session)
    requires e.pageSize > 0 && s0.regs.sp >= SAVED_STACK && WordSized(e) && LoadOf(s0, e).Loaded?
    ensures Parked(s0, e).threads == s0.threads + LateClones(e.cloning.stops) + 1
  {
    hide AfterBlob;
    var c, a, s := Saved(s0, e.codeSize, e.pageSize), Area(e).addr, Mapped(s0, e);
    BlobThreads(s0.(mem := Store(s0.mem, c.sp, ONES)), c, e.maskBlob, c.sp, 0, e.block);
    BlobThreads(Blocked(s0, e), ContextOf(s0, e), e.mapBlob, |e.parasite|, 0, e.mapping);
    BlobThreads(s.(mem := Store(s.mem, a, e.parasite)), ContextOf(s0, e), e.cloneBlob, a, 0, e.cloning);
  }

  lemma UnloadThreads(s: Image, c: Context, e: Session, prot: ProtMap)
    requires WordSized(e) && UnloadOf(s, c, e, prot).LetGo?
    ensures UnloadOf(s, c, e, prot).image.threads == s.threads
  {
    hide AfterBlob;
    BlobThreads(s, c, e.unmapBlob, Area(e).addr, |e.parasite|, e.unmapping);
    var v := Unmapped(s, c, e);
    BlobThreads(v.(mem := Store(v.mem, c.sp, c.sigset)), c, e.maskBlob, c.sp, 0, e.unblock);
  }

  /** A run that memcr saw exit has released the target. */
  lemma ExitedReleased(run: State, report: Report)
    requires WaitOf(run, report).Exited?
    ensures run.stage.Released?
  {
  }

  /**
   * Intact or killed: for every target, every sequence of signal stops, every pagemap, dump format and schedule, a
   * target that user_interactive_mode lets go has its registers, its protections, its code and all its memory as at
   * seizure (the dead stack below the saved words, where handler frames were built, apart). Its mask is the one
   * signals_block last found; what is mapped besides is exactly what late stops of the mmap blob had mapped, and the
   * threads it has besides are exactly the parasites that late stops of the clone blob had started.
   */
  lemma IntactOrKilled(s0: Image, e: Session, lo: nat, u: Setup, ls: seq<Label>)
    requires Sane(s0, e, lo) && ValidSetup(u) && FailuresSettled(u) && u.mem == Parked(s0, e).mem
    ensures var end := Outcome(s0, e, JobOf(u), ls);
            end.LetGo? ==>
              && end.image.regs == s0.regs && end.prot == u.prot && Back(s0, end.image.mem, lo)
              && end.image.mem.Keys == s0.mem.Keys + LateAreas(|e.parasite|, e.mapping.stops)
              && end.image.threads == s0.threads + LateClones(e.cloning.stops)
              && end.image.mask == Kept(MaskBefore(s0.mask, e.block.stops, ONES))
  {
    hide Run, AfterBlob, Near, Back, LateAreas, LateClones, RestoredCtx, StopsIn;
    hide Outcome, LoadOf, UnloadOf, Resumed, Parked;
    var j := JobOf(u);
    var run := Run(j, Init(j), ls);
    if Outcome(s0, e, j, ls).LetGo? {
      LetGoMeans(s0, e, j, ls);
      RoundTrip(u, ls);
      LetGoIntact(s0, e, lo, run);
    }
  }

  /** A target is let go only by a session that loaded the parasite, saw it exit and unloaded it. */
  lemma LetGoMeans(s0: Image, e: Session, j: Job, ls: seq<Label>)
    requires e.pageSize > 0 && s0.regs.sp >= SAVED_STACK && Usable(j.codec) && Outcome(s0, e, j, ls).LetGo?
    ensures var run := Run(j, Init(j), ls);
            && LoadOf(s0, e).Loaded? && run.stage.Released?
            && Outcome(s0, e, j, ls) == UnloadOf(Resumed(s0, e, run), ContextOf(s0, e), e, run.target.prot)
            && Outcome(s0, e, j, ls).prot == run.target.prot
  {
    hide Run, LoadOf, Resumed, AfterBlob, RestoredCtx;
  }

  lemma LetGoIntact(s0: Image, e: Session, lo: nat, run: State)
    requires Sane(s0, e, lo) && LoadOf(s0, e).Loaded? && run.target.mem == Parked(s0, e).mem
    requires UnloadOf(Resumed(s0, e, run), ContextOf(s0, e), e, run.target.prot).LetGo?
    ensures var t := UnloadOf(Resumed(s0, e, run), ContextOf(s0, e), e, run.target.prot).image;
            && t.regs == s0.regs && Back(s0, t.mem, lo)
            && t.mem.Keys == s0.mem.Keys + LateAreas(|e.parasite|, e.mapping.stops)
            && t.threads == s0.threads + LateClones(e.cloning.stops)
            && t.mask == Kept(MaskBefore(s0.mask, e.block.stops, ONES))
  {
    hide AfterBlob, Near, Back, LateAreas, LateClones, RestoredCtx;
    ParkedNear(s0, e, lo);
    ParkedKeys(s0, e, lo);
    ParkedRegs(s0, e);
    ParkedThreads(s0, e);
    SavedMask(s0, e, lo);
    UnloadGivesBack(s0, e, lo, Resumed(s0, e, run));
    UnloadThreads(Resumed(s0, e, run), ContextOf(s0, e), e, run.target.prot);
  }

  lemma ParkedRegs(s0: Image, e: Session)
    requires e.pageSize > 0 && s0.regs.sp >= SAVED_STACK && LoadOf(s0, e).Loaded?
    ensures Parked(s0, e).regs == s0.regs
  {
  }

  /** Exactly the addresses of the seizure are mapped, unless a stop fell between the mmap blob's call and its trap. */
  lemma NothingLeftIff(s0: Image, e: Session, lo: nat, u: Setup, ls: seq<Label>)
    requires Sane(s0, e, lo) && ValidSetup(u) && FailuresSettled(u) && u.mem == Parked(s0, e).mem && e.parasite != []
    ensures var end := Outcome(s0, e, JobOf(u), ls);
            end.LetGo? ==> (end.image.mem.Keys == s0.mem.Keys <==> !LateMapping(e.mapping.stops))
  {
    hide Run, Outcome, Parked, LateMapping, LateAreas, Back;
    var end := Outcome(s0, e, JobOf(u), ls);
    if end.LetGo? {
      IntactOrKilled(s0, e, lo, u, ls);
      LateAreasEmptyIff(|e.parasite|, e.mapping.stops);
      KeysOnly(s0.mem.Keys, LateAreas(|e.parasite|, e.mapping.stops));
    }
  }

  lemma KeysOnly(a: set<nat>, b: set<nat>)
    requires a !! b
    ensures a + b == a <==> b == {}
  {
    if b != {} {
      var x :| x in b;
      assert x in a + b && x !in a;
    }
  }

  lemma SavedIff(m: Mask, stops: seq<Stop>)
    requires Kept(m) == m && Quiet(stops)
    ensures Kept(MaskBefore(m, stops, ONES)) == m <==> !AnyLate(stops) || m == Kept(ONES)
  {
    QuietBefore(m, stops, ONES);
    KeptTwice(ONES);
  }

  /**
   * With signals that leave the mask alone, it comes back unless a stop fell between the first blob's call and its
   * trap.
   */
  lemma MaskComesBackIff(s0: Image, e: Session, lo: nat, u: Setup, ls: seq<Label>)
    requires Sane(s0, e, lo) && ValidSetup(u) && FailuresSettled(u) && u.mem == Parked(s0, e).mem
    requires Kept(s0.mask) == s0.mask && Quiet(e.block.stops)
    ensures var end := Outcome(s0, e, JobOf(u), ls);
            end.LetGo? ==> (end.image.mask == s0.mask <==> !AnyLate(e.block.stops) || s0.mask == Kept(ONES))
  {
    hide Run, Outcome, Parked, MaskBefore, Back;
    IntactOrKilled(s0, e, lo, u, ls);
    SavedIff(s0.mask, e.block.stops);
  }

  /** The target has the threads of the seizure, unless a stop fell between the clone blob's call and its trap. */
  lemma AloneIff(s0: Image, e: Session, lo: nat, u: Setup, ls: seq<Label>)
    requires Sane(s0, e, lo) && ValidSetup(u) && FailuresSettled(u) && u.mem == Parked(s0, e).mem
    ensures var end := Outcome(s0, e, JobOf(u), ls);
            end.LetGo? ==> (end.image.threads == s0.threads <==> !LateClone(e.cloning.stops))
  {
    hide Run, Outcome, Parked, LateClone, Back;
    if Outcome(s0, e, JobOf(u), ls).LetGo? {
      IntactOrKilled(s0, e, lo, u, ls);
      LateClonesZeroIff(e.cloning.stops);
    }
  }

  /** A late stop of the clone blob started a parasite. */
  predicate LateClone(stops: seq<Stop>) {
    exists i :: 0 <= i < |stops| && stops[i].late && stops[i].answer > 0
  }

  lemma {:induction false} LateClonesZeroIff(stops: seq<Stop>)
    ensures LateClones(stops) == 0 <==> !LateClone(stops)
    decreases stops
  {
    if stops != [] {
      LateClonesZeroIff(stops[1..]);
      if LateClone(stops[1..]) {
        var i :| 0 <= i < |stops[1..]| && stops[1..][i].late && stops[1..][i].answer > 0;
        assert stops[i + 1] == stops[1..][i];
      }
      if LateClone(stops) && !(stops[0].late && stops[0].answer > 0) {
        var i :| 0 <= i < |stops| && stops[i].late && stops[i].answer > 0;
        assert stops[1..][i - 1] == stops[i];
      }
    }
  }

  // ---- when memcr itself stops -------------------------------------------------------------------

  /** The parasite was loaded and started. */
  predicate Started(e: Session) {
    && BlobFate(e.block) == Handled && BlobFate(e.mapping) == Handled && e.mapping.answer >= 0
    && BlobFate(e.cloning) == Handled && e.cloning.answer > 0
  }

  /** The assertions of memcr that fail, one a line, in terms of what happens to the target and to the parasite. */
  predicate Breaks(e: Session, run: State) {
    || BlobFate(e.block) != Handled
    || BlobFate(e.mapping) != Handled
    || (e.mapping.answer < 0 && BlobFate(e.unblock) == Sudden)
    || (e.mapping.answer >= 0 && BlobFate(e.cloning) == Sudden)
    || (e.mapping.answer >= 0 && BlobFate(e.cloning) == Handled && e.cloning.answer == 0)
    || (Started(e) && RestoreOver(run) && e.report.Stopped?)
    || (Started(e) && WaitOf(run, e.report).Exited? && BlobFate(e.unmapping) == Sudden)
    || (Started(e) && WaitOf(run, e.report).Exited? && BlobFate(e.unmapping) == Handled && e.unmapping.answer == 0
        && BlobFate(e.unblock) == Sudden)
  }

  lemma LoadMeets(s0: Image, e: Session)
    requires e.pageSize > 0 && s0.regs.sp >= SAVED_STACK && s0.alive && !s0.lost
    ensures LoadOf(s0, e).Loaded? <==> Started(e)
    ensures LoadOf(s0, e).Loaded? ==> Parked(s0, e).alive && !Parked(s0, e).lost
    ensures LoadOf(s0, e).Asserted? <==>
              || BlobFate(e.block) != Handled
              || BlobFate(e.mapping) != Handled
              || (e.mapping.answer < 0 && BlobFate(e.unblock) == Sudden)
              || (e.mapping.answer >= 0 && BlobFate(e.cloning) == Sudden)
              || (e.mapping.answer >= 0 && BlobFate(e.cloning) == Handled && e.cloning.answer == 0)
  {
    hide AfterBlob, BlobFate;
    var c := Saved(s0, e.codeSize, e.pageSize);
    BlobMeets(s0.(mem := Store(s0.mem, c.sp, ONES)), c, e.maskBlob, c.sp, 0, e.block);
    if Blocked(s0, e).alive {
      BlobMeets(Blocked(s0, e), ContextOf(s0, e), e.mapBlob, |e.parasite|, 0, e.mapping);
      if Mapped(s0, e).alive {
        ParkMeets(s0, e);
      }
    }
  }

  lemma ParkMeets(s0: Image, e: Session)
    requires e.pageSize > 0 && s0.regs.sp >= SAVED_STACK && Mapped(s0, e).alive && !Mapped(s0, e).lost
    ensures Meets(Parked(s0, e), BlobFate(e.cloning)) && Meets(GivenUp(s0, e), BlobFate(e.unblock))
  {
    hide AfterBlob, BlobFate;
    var c, a, s := ContextOf(s0, e), Area(e).addr, Mapped(s0, e);
    BlobMeets(s.(mem := Store(s.mem, a, e.parasite)), c, e.cloneBlob, a, 0, e.cloning);
    BlobMeets(s.(mem := Store(s.mem, c.sp, c.sigset)), c, e.maskBlob, c.sp, 0, e.unblock);
  }

  lemma UnloadMeets(s: Image, c: Context, e: Session, prot: ProtMap)
    requires s.alive && !s.lost
    ensures UnloadOf(s, c, e, prot).Crashed? <==>
              || BlobFate(e.unmapping) == Sudden
              || (BlobFate(e.unmapping) == Handled && e.unmapping.answer == 0 && BlobFate(e.unblock) == Sudden)
    ensures UnloadOf(s, c, e, prot).LetGo? <==>
              BlobFate(e.unmapping) == Handled && e.unmapping.answer == 0 && BlobFate(e.unblock) == Handled
  {
    hide AfterBlob, BlobFate;
    BlobMeets(s, c, e.unmapBlob, Area(e).addr, |e.parasite|, e.unmapping);
    var v := Unmapped(s, c, e);
    if v.alive {
      BlobMeets(v.(mem := Store(v.mem, c.sp, c.sigset)), c, e.maskBlob, c.sp, 0, e.unblock);
    }
  }

  /**
   * When an assertion of memcr fails: exactly when the target dies in one of the first two blobs; is hit by SIGKILL in
   * the clone, munmap or unblocking blob, if that is run; clone answers zero; or the parasite was reported stopped once
   * the restore had begun and memcr comes to look at its status. The scan makes no empty request, on which the transfer
   * loops would trip an assertion of their own.
   */
  lemma CrashesIff(s0: Image, e: Session, j: Job, ls: seq<Label>)
    requires e.pageSize > 0 && s0.regs.sp >= SAVED_STACK && ValidJob(j) && s0.alive && !s0.lost
    ensures Outcome(s0, e, j, ls).Crashed? <==> Breaks(e, Run(j, Init(j), ls))
  {
    hide AfterBlob, BlobFate, Run, RestoredCtx;
    LoadMeets(s0, e);
    if LoadOf(s0, e).Loaded? {
      var run := Run(j, Init(j), ls);
      UnloadMeets(Resumed(s0, e, run), ContextOf(s0, e), e, run.target.prot);
    }
  }
}
