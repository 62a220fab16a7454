/** The invariant over whole runs of the memcr-parasite system. */
module ProtocolRuns {
  import opened Bytes
  import opened TargetMemory
  import opened DumpCodec
  import opened Parasite
  import opened Protocol
  import opened ProtocolInvariant
  import opened ProtocolSteps
  import opened ProtocolReplies

  lemma MemcrKeeps(j: Job, s: State)
    requires Working(j.codec) && Main(j, s)
    ensures Main(j, MemcrStep(j, s)) && MemcrStep(j, s).target == s.target
  {
    hide Wired, Scripted, Executed, Turn, Saved, Unspoilt;
    if Running(s) && s.todo != [] {
      var s' := MemcrStep(j, s);
      if s.todo[0].Connect? || s.todo[0].Put? || s.todo[0].Close? {
        SendingKeeps(j, s, s');
      } else {
        ReceptionKeeps(j, s, s');
      }
    }
  }

  lemma SendingKeeps(j: Job, s: State, s': State)
    requires Working(j.codec) && Main(j, s) && Running(s) && s.todo != [] && s' == MemcrStep(j, s)
    requires s.todo[0].Connect? || s.todo[0].Put? || s.todo[0].Close?
    ensures Main(j, s')
  {
    hide Executed, Turn, Saved, Unspoilt;
    match s.todo[0]
    case Connect => SendKeeps(j, s, s', Accept);
    case Put(it) => SendKeeps(j, s, s', it);
    case Close => SendKeeps(j, s, s', Eof);
  }

  lemma ReceptionKeeps(j: Job, s: State, s': State)
    requires Working(j.codec) && Main(j, s) && Running(s) && s.todo != [] && s' == MemcrStep(j, s)
    requires s.todo[0].Fetch? || s.todo[0].PeekAt? || s.todo[0].RecvMap?
    ensures Main(j, s')
  {
    hide Wired, Scripted, Executed, Turn, Saved, Unspoilt;
    match s.todo[0]
    case Fetch(r) => FetchKeeps(j, s, s', r);
    case PeekAt(r) => PeekAtKeeps(j, s, s', r);
    case RecvMap(n) => RecvMapKeeps(j, s, s', n);
  }

  lemma FetchKeeps(j: Job, s: State, s': State, r: Region)
    requires Working(j.codec) && Main(j, s) && Running(s) && s.todo != [] && s.todo[0] == Fetch(r)
    requires s' == (if |s.rx| >= r.len then Save(j, s, r)
                    else if s.back == [] then s else s.(rx := s.rx + [s.back[0]], back := s.back[1..]))
    ensures Main(j, s')
  {
    hide Wired, Scripted, Executed, Turn, Saved, Unspoilt, Save;
    if |s.rx| >= r.len {
      SaveKeeps(j, s, r);
    } else if s.back != [] {
      ReceiveKeeps(j, s, s');
    }
  }

  lemma PeekAtKeeps(j: Job, s: State, s': State, r: Region)
    requires Working(j.codec) && Main(j, s) && Running(s) && s.todo != [] && s.todo[0] == PeekAt(r)
    requires s' == (if |s.rx| >= r.len then Save(j, s, r)
                    else s.(rx := s.rx + [At(s.target.mem, r.addr + |s.rx|)]))
    ensures Main(j, s')
  {
    hide Wired, Scripted, Executed, Turn, Saved, Unspoilt, Save;
    if |s.rx| >= r.len {
      SaveKeeps(j, s, r);
    } else {
      PeekKeeps(j, s, s');
    }
  }

  lemma RecvMapKeeps(j: Job, s: State, s': State, n: nat)
    requires Working(j.codec) && Main(j, s) && Running(s) && s.todo != [] && s.todo[0] == RecvMap(n)
    requires s' == (if |s.rx| >= n then s.(rx := [], todo := s.todo[1..])
                    else if s.back == [] then s else s.(rx := s.rx + [s.back[0]], back := s.back[1..]))
    ensures Main(j, s')
  {
    hide Wired, Scripted, Executed, Turn, Saved, Unspoilt, Save;
    if |s.rx| >= n {
      MapKeeps(j, s, s');
    } else if s.back != [] {
      ReceiveKeeps(j, s, s');
    }
  }

  /** The dump of a finished checkpoint reads back, so the restore can only begin. */
  lemma EnterReads(j: Job, s: State)
    requires Working(j.codec) && Saved(j, s) && s.stage.Checkpointing? && s.todo == []
    requires AllStorable(j.codec, Records(j))
    ensures ReadDump(j.codec, s.file, s.dumped, j.stale) == Restore(true, Records(j), 0)
  {
    assert Ahead(j.mem, s.todo) == [];
    assert s.file + [] == s.file;
    ReadDumpWrite(j.codec, Records(j), j.stale);
  }

  lemma EnterScripted(j: Job, s: State, s': State)
    requires Scripted(j, s) && s.stage.Checkpointing? && s.todo == []
    requires Fits(false, Items(CheckpointActions(j)), RestoreActions(j, Records(j)))
    requires s' == s.(stage := Restoring, todo := RestoreActions(j, Records(j)))
    ensures Scripted(j, s')
  {
    assert s.sent + [] == s.sent;
    assert Script(j, Checkpointing) == Items(CheckpointActions(j));
  }

  lemma RestoreStartsClosed(j: Job, recs: seq<Record>)
    ensures RestoreActions(j, recs) != [] && RestoreActions(j, recs)[0] == Connect
    ensures !OpenTail(RestoreActions(j, recs))
  {
  }

  lemma EnterKeeps(j: Job, s: State)
    requires Sound(j) && Main(j, s)
    ensures Main(j, EnterRestore(j, s)) && EnterRestore(j, s).target == s.target
  {
    if s.stage.Checkpointing? && s.todo == [] {
      EnterReads(j, s);
      EnterScripted(j, s, EnterRestore(j, s));
      RestoreStartsClosed(j, Records(j));
    }
  }

  lemma ScriptSurvives(j: Job, stage: Stage)
    requires Sound(j)
    ensures !Down(Exec(j.base, Start(j), Script(j, stage)).phase)
  {
    assert stage.Checkpointing? || Script(j, stage) == Script(j, Restoring);
  }

  lemma ParasiteKeeps(j: Job, s: State, b: Byte)
    requires Working(j.codec) && Main(j, s) && !s.stage.Killed? && !Down(s.target.phase)
    requires !Down(Exec(j.base, Start(j), Script(j, s.stage)).phase)
    ensures Main(j, ParasiteStep(j, s, b)) && !Down(ParasiteStep(j, s, b).target.phase)
  {
    var s' := ParasiteStep(j, s, b);
    if Replying(s.target.phase) {
      ConsumedSurvives(j, s);
      EmitKeeps(j, s, s', b);
    } else if s.target.phase.Exited? || s.conns == [] {
    } else if !s.accepted {
      AcceptTakes(j, s, s');
      TakeKeeps(j, s, s', Accept);
    } else if s.conns[0].items != [] {
      ItemTakes(j, s, s');
      TakeKeeps(j, s, s', s.conns[0].items[0]);
    } else if s.conns[0].closed {
      EofTakes(j, s, s');
      TakeSurvives(j, s, s', Eof);
      TakeKeeps(j, s, s', Eof);
    }
  }

  lemma ConsumedSurvives(j: Job, s: State)
    requires Wired(s) && s.sent + Items(s.todo) == Script(j, s.stage)
    requires !Down(Exec(j.base, Start(j), Script(j, s.stage)).phase)
    ensures !Down(Exec(j.base, Start(j), s.consumed).phase)
  {
    assert s.consumed <= s.sent <= Script(j, s.stage);
    PrefixSurvives(j.base, Start(j), Script(j, s.stage), s.consumed);
  }

  lemma InitInv(j: Job)
    requires Sound(j)
    ensures Inv(j, Init(j))
  {
    var s := Init(j);
    assert [] + Items(s.todo) == Items(s.todo);
    assert Items(CheckpointActions(j)) + [] == Items(CheckpointActions(j));
    assert [] + WriteDump(j.codec, Records(j)) == WriteDump(j.codec, Records(j));
    assert !OpenTail(s.todo);
    assert Main(j, s);
  }

  /** A killed target, or one whose parasite died, stays so. */
  lemma DeadStep(j: Job, s: State, l: Label)
    requires Working(j.codec) && !s.target.phase.Faulted? && (s.stage.Killed? || s.target.phase.Died?)
    ensures var s' := Step(j, s, l);
            && !s'.target.phase.Faulted? && (s'.stage.Killed? || s'.target.phase.Died?)
            && s'.target.log == s.target.log
  {
  }

  /** The effects so far are a prefix of the effects of the whole script. */
  lemma LogWithin(base: TargetMemory.Mem, t: Target, t0: Target, some: seq<Item>, all: seq<Item>)
    requires some <= all && Settle(base, t) == Exec(base, t0, some)
    ensures t.log <= Exec(base, t0, all).log
  {
    var rest := all[|some|..];
    assert all == some + rest;
    ExecAppend(base, t0, some, rest);
    ExecLogGrows(base, Exec(base, t0, some), rest);
    assert t.log <= Settle(base, t).log;
  }

  lemma MainOrdered(j: Job, s: State)
    requires Sound(j) && Main(j, s)
    ensures Ordered(s.target.log)
  {
    var all := Script(j, Restoring);
    assert s.consumed <= s.sent <= Script(j, s.stage) <= all;
    LogWithin(j.base, s.target, Start(j), s.consumed, all);
    OrderedPrefix(s.target.log, Exec(j.base, Start(j), all).log);
  }

  lemma OrderedPrefix(a: seq<Event>, b: seq<Event>)
    requires a <= b
    ensures Ordered(b) ==> Ordered(a)
  {
  }

  lemma ReleasedStays(j: Job, s: State, l: Label)
    requires Working(j.codec) && (s.stage.Released? ==> s.target.phase.Exited?)
    ensures Step(j, s, l).stage.Released? ==> Step(j, s, l).target.phase.Exited?
  {
  }

  lemma LiveStep(j: Job, s: State, l: Label)
    requires Sound(j) && Main(j, s) && !s.stage.Killed? && !Down(s.target.phase)
    requires l.Memcr? || l.Enter? || l.Para? || l.Finish?
    ensures Main(j, Step(j, s, l)) && !Down(Step(j, s, l).target.phase)
  {
    match l
    case Memcr => MemcrKeeps(j, s);
    case Enter => EnterKeeps(j, s);
    case Para(b) =>
      ScriptSurvives(j, s.stage);
      ParasiteKeeps(j, s, b);
    case Finish => ReleaseKeeps(j, s);
  }

  lemma StepKeeps(j: Job, s: State, l: Label)
    requires Sound(j) && Inv(j, s)
    ensures Inv(j, Step(j, s, l))
  {
    ReleasedStays(j, s, l);
    if s.stage.Killed? || s.target.phase.Died? {
      DeadStep(j, s, l);
    } else if !l.Fail? && !l.Die? {
      LiveStep(j, s, l);
      MainOrdered(j, Step(j, s, l));
    }
  }

  lemma ReleaseKeeps(j: Job, s: State)
    requires Working(j.codec) && Main(j, s)
    ensures Main(j, Release(s)) && Release(s).target == s.target
  {
    assert Script(j, Released) == Script(j, Restoring);
  }

  /** Every schedule, from any good state on. */
  lemma {:induction false} RunKeeps(j: Job, s: State, ls: seq<Label>)
    requires Sound(j) && Inv(j, s)
    ensures Inv(j, Run(j, s, ls))
    decreases |ls|
  {
    if ls != [] {
      StepKeeps(j, s, ls[0]);
      RunKeeps(j, Step(j, s, ls[0]), ls[1..]);
    }
  }
}
