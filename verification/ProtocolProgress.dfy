/** The two sides always agree on whose turn it is, never wait for each other, and always finish. */
module ProtocolProgress {
  import opened Bytes
  import opened DumpCodec
  import opened Parasite
  import opened Protocol
  import opened ProtocolInvariant
  import ProtocolSteps
  import opened ProtocolReplies
  import opened ProtocolRuns
  import opened ProtocolScript
  import opened ProtocolTheorems
  import opened ProtocolGuarantees

  // ---- turns -------------------------------------------------------------------------------------

  /** Bytes memcr still has to receive for the reply it is waiting for. */
  function Awaited(s: State): int {
    if s.todo == [] then 0
    else match s.todo[0]
      case Fetch(r) => r.len - |s.rx|
      case RecvMap(n) => n - |s.rx|
      case _ => 0
  }

  function ReplyLen(it: Item): nat {
    match it
    case Mem(r, tx) => if tx then r.len else 0
    case Query(n) => n
    case _ => 0
  }

  function RepliesIn(items: seq<Item>): nat {
    if items == [] then 0 else ReplyLen(items[0]) + RepliesIn(items[1..])
  }

  /** Bytes the parasite has started to send and not sent yet. */
  function Unsent(p: Phase): int {
    match p
    case Sending(r, off) => r.len - off
    case Answering(left) => left
    case _ => 0
  }

  lemma {:induction false} RepliesInQuiet(items: seq<Item>)
    requires NoReply(items)
    ensures RepliesIn(items) == 0
  {
    if items != [] {
      assert !WantsReply(items[0]);
      RepliesInQuiet(items[1..]);
    }
  }

  lemma {:induction false} RepliesInLast(items: seq<Item>)
    requires items != [] && NoReply(items[..|items| - 1])
    ensures RepliesIn(items) == ReplyLen(items[|items| - 1])
  {
    if |items| == 1 {
      assert items[1..] == [];
    } else {
      var rest := items[1..];
      assert items[..|items| - 1][0] == items[0];
      assert !WantsReply(items[0]);
      assert rest[..|rest| - 1] == items[..|items| - 1][1..];
      RepliesInLast(rest);
    }
  }

  lemma NoneIn()
    ensures RepliesIn([]) == 0
  {
  }

  /**
   * What memcr waits for is exactly what is in flight to it, what the parasite is sending, and what the queued
   * requests will make it send; and while memcr has something to send, no byte is on its way back.
   */
  lemma TurnsAgree(j: Job, s: State)
    requires Turn(j, s)
    ensures Awaited(s) == |s.back| + Unsent(s.target.phase) + RepliesIn(Pending(s.conns, s.accepted))
    ensures Awaited(s) >= 0
    ensures s.todo == [] || !(s.todo[0].Fetch? || s.todo[0].RecvMap?) ==>
              s.back == [] && Quiet(s.target.phase) && NoReply(Pending(s.conns, s.accepted))
  {
    hide Pending, RepliesIn;
    var pend := Pending(s.conns, s.accepted);
    NoneIn();
    if pend != [] && NoReply(pend[..|pend| - 1]) {
      RepliesInLast(pend);
    }
    if NoReply(pend) {
      RepliesInQuiet(pend);
    }
  }

  // ---- no deadlock -------------------------------------------------------------------------------

  /** memcr can act when each direction of a connection holds at most cap items. */
  predicate MemcrReady(s: State, cap: nat) {
    Running(s) && s.todo != [] &&
    match s.todo[0]
    case Connect => true
    case Put(_) => s.conns != [] && |s.conns[|s.conns| - 1].items| < cap
    case Close => s.conns != []
    case Fetch(r) => |s.rx| >= r.len || s.back != []
    case PeekAt(_) => true
    case RecvMap(n) => |s.rx| >= n || s.back != []
  }

  predicate ParasiteReady(s: State, cap: nat) {
    match s.target.phase
    case Sending(r, off) => off >= r.len || |s.back| < cap
    case Answering(left) => left == 0 || |s.back| < cap
    case Exited => false
    case Faulted => false
    case Died => false
    case _ => s.conns != [] && (!s.accepted || s.conns[0].items != [] || s.conns[0].closed)
  }

  predicate Ready(s: State, cap: nat) {
    || MemcrReady(s, cap)
    || ParasiteReady(s, cap)
    || (s.stage.Checkpointing? && s.todo == [])
    || (s.stage.Restoring? && s.todo == [] && s.target.phase.Exited?)
  }

  /** If anything is in flight, the parasite can go on unless its reply fills the channel back. */
  lemma ParasiteCanRead(s: State, cap: nat)
    requires Wired(s) && cap > 0 && Pending(s.conns, s.accepted) != []
    requires !Down(s.target.phase) && !s.target.phase.Exited?
    ensures ParasiteReady(s, cap) || (Replying(s.target.phase) && |s.back| >= cap)
  {
    assert |s.conns| == 1 ==> s.conns[1..] == [];
  }

  /** At the end of the restore, a parasite that has not exited has something to read. */
  lemma RestoreNotDone(j: Job, s: State)
    requires Sound(j) && Main(j, s) && s.stage.Restoring? && s.todo == [] && !s.target.phase.Exited?
    ensures Pending(s.conns, s.accepted) != [] || Replying(s.target.phase)
  {
    assert s.sent + [] == s.sent;
    assert s.consumed + [] == s.consumed;
  }

  lemma ExitedEarly(base: TargetMemory.Mem, t: Target, some: seq<Item>, items: seq<Item>)
    requires some <= items && Exec(base, t, some).phase.Exited?
    ensures Exec(base, t, items).phase.Exited?
  {
    var rest := items[|some|..];
    assert items == some + rest;
    ExecAppend(base, t, some, rest);
    ExecStuck(base, Exec(base, t, some), rest);
  }

  lemma AwaitsEnd(j: Job)
    requires ValidJob(j)
    ensures Exec(j.base, Start(j), BeforeEnd(j) + [Accept]).phase == AwaitCmd
  {
    AfterProtOn(j);
    ExecAppend(j.base, Start(j), BeforeEnd(j), [Accept]);
    ExecOne(j.base, Exec(j.base, Start(j), BeforeEnd(j)), Accept);
  }

  /** Nothing short of CMD_END makes the parasite exit. */
  lemma ExitNeedsEnd(j: Job, some: seq<Item>)
    requires ValidJob(j) && some <= BeforeEnd(j) + [Accept, Cmd(CmdEnd), Eof]
    requires Exec(j.base, Start(j), some).phase.Exited?
    ensures |some| >= |BeforeEnd(j)| + 2
  {
    AwaitsEnd(j);
    if |some| <= |BeforeEnd(j)| + 1 {
      assert some <= BeforeEnd(j) + [Accept];
      ExitedEarly(j.base, Start(j), some, BeforeEnd(j) + [Accept]);
    }
  }

  /** A parasite that has exited leaves memcr at most its last close to do. */
  lemma ExitedLeavesClose(j: Job, s: State)
    requires ValidJob(j) && Main(j, s) && s.target.phase.Exited? && s.todo != []
    ensures s.todo[0].Close?
  {
    ExitedTarget(j, s);
    ScriptEnd(j);
    ExitedPrefix(j, s);
    hide Script, BeforeEnd, Exec, Fits, Items;
    ExitNeedsEnd(j, s.consumed);
    LastItem(s.sent, s.todo, BeforeEnd(j) + [Accept, Cmd(CmdEnd), Eof]);
  }

  lemma ExitedPrefix(j: Job, s: State)
    requires Working(j.codec) && Main(j, s) && !s.stage.Checkpointing?
    ensures Script(j, s.stage) == Script(j, Restoring) && s.consumed <= s.sent <= Script(j, s.stage)
  {
    hide Executed, Turn, Saved, Unspoilt, Exec;
  }

  lemma LastItem(sent: seq<Item>, todo: seq<Action>, all: seq<Item>)
    requires Fits(false, sent, todo) && todo != []
    requires sent + Items(todo) == all && |sent| + 1 >= |all| && all != [] && all[|all| - 1] == Eof
    ensures todo[0].Close?
  {
    assert FitsOne(false, sent, todo[0], todo[1..]);
    assert Items(todo) == ItemsOf(todo[0]) + Items(todo[1..]);
    assert all[|sent|] == ItemsOf(todo[0])[0];
  }

  /** In no reachable state are both sides stuck, however small the socket buffers are. */
  lemma NoDeadlock(j: Job, s: State, cap: nat)
    requires ValidJob(j) && Main(j, s) && Running(s) && !Down(s.target.phase) && cap > 0
    ensures Ready(s, cap)
  {
    if s.todo == [] {
      if s.stage.Restoring? && !s.target.phase.Exited? {
        BlockedWait(j, s, cap);
      }
    } else if s.target.phase.Exited? {
      ExitedLeavesClose(j, s);
    } else if s.todo[0].Put? && !MemcrReady(s, cap) {
      BlockedPut(j, s, cap);
    } else if !MemcrReady(s, cap) {
      BlockedFetch(j, s, cap);
    }
  }

  lemma BlockedWait(j: Job, s: State, cap: nat)
    requires ValidJob(j) && Main(j, s) && s.stage.Restoring? && s.todo == [] && cap > 0
    requires !Down(s.target.phase) && !s.target.phase.Exited?
    ensures ParasiteReady(s, cap)
  {
    ValidIsSound(j);
    TurnsAgree(j, s);
    RestoreNotDone(j, s);
    if Pending(s.conns, s.accepted) != [] {
      ParasiteCanRead(s, cap);
    }
  }

  /** A writer with a full buffer: the parasite is not replying and has something to read. */
  lemma BlockedPut(j: Job, s: State, cap: nat)
    requires Wired(s) && Turn(j, s) && Scripted(j, s) && s.todo != [] && s.todo[0].Put? && Running(s)
    requires !Down(s.target.phase) && cap > 0 && !MemcrReady(s, cap)
    requires !s.target.phase.Exited?
    ensures ParasiteReady(s, cap)
  {
    assert NewestOpen(s.conns);
    NewestPending(s.conns, s.accepted);
    ParasiteCanRead(s, cap);
  }

  lemma {:induction false} NewestPending(conns: seq<Conn>, accepted: bool)
    requires conns != [] && conns[|conns| - 1].items != []
    ensures Pending(conns, accepted) != []
    decreases |conns|
  {
    if |conns| > 1 {
      NewestPending(conns[1..], false);
    }
  }

  /** A reader with nothing to read: the reply is being sent or its request is still to be read. */
  lemma BlockedFetch(j: Job, s: State, cap: nat)
    requires Wired(s) && Turn(j, s) && Scripted(j, s) && s.todo != [] && Running(s) && !s.todo[0].Put?
    requires !Down(s.target.phase) && cap > 0 && !MemcrReady(s, cap)
    requires !s.target.phase.Exited?
    ensures ParasiteReady(s, cap)
  {
    TurnsAgree(j, s);
    if Pending(s.conns, s.accepted) != [] {
      ParasiteCanRead(s, cap);
    }
  }

  // ---- every run finishes ------------------------------------------------------------------------

  /** Steps an item causes: its consumption, and sending, receiving and ending a reply. */
  function ItemCost(it: Item): nat {
    if WantsReply(it) then 2 + 2 * ReplyLen(it) else 1
  }

  function ItemsCost(items: seq<Item>): nat {
    if items == [] then 0 else ItemCost(items[0]) + ItemsCost(items[1..])
  }

  function TodoCost(todo: seq<Action>): nat {
    if todo == [] then 0
    else 1 + ItemsCost(ItemsOf(todo[0])) + (if todo[0].PeekAt? then todo[0].r.len else 0) + TodoCost(todo[1..])
  }

  function PhaseCost(p: Phase): int {
    match p
    case Sending(r, off) => 2 * (r.len - off) + 1
    case Answering(left) => 2 * left + 1
    case _ => 0
  }

  /** Steps both sides can still take. */
  function Work(s: State): int {
    TodoCost(s.todo) + ItemsCost(Pending(s.conns, s.accepted)) + PhaseCost(s.target.phase) + |s.back|
    - (if s.todo != [] && s.todo[0].PeekAt? then |s.rx| else 0)
  }

  lemma {:induction false} ItemsCostAppend(a: seq<Item>, b: seq<Item>)
    ensures ItemsCost(a + b) == ItemsCost(a) + ItemsCost(b)
    decreases |a|
  {
    if a == [] {
      assert a + b == b;
    } else {
      assert (a + b)[0] == a[0] && (a + b)[1..] == a[1..] + b;
      ItemsCostAppend(a[1..], b);
    }
  }

  lemma SingleCost(it: Item)
    ensures ItemsCost([it]) == ItemCost(it)
  {
    assert [it][1..] == [];
  }

  lemma WorkBounded(j: Job, s: State)
    requires Turn(j, s)
    ensures Work(s) >= 0
  {
    TurnsAgree(j, s);
    assert PhaseCost(s.target.phase) >= 0;
    if s.todo != [] && s.todo[0].PeekAt? {
      assert |s.rx| <= s.todo[0].r.len;
    }
  }

  lemma SendWork(s: State, s': State, it: Item, ck: bool)
    requires ProtocolSteps.Sends(s, s', it) && Wired(s) && FitsOne(ck, s.sent, s.todo[0], s.todo[1..])
    requires s.rx == []
    ensures Work(s') < Work(s)
  {
    ProtocolSteps.SendPending(s, s', it, ck);
    ItemsCostAppend(Pending(s.conns, s.accepted), [it]);
    SingleCost(it);
  }

  /** Every step memcr takes uses up work. */
  lemma MemcrWorks(j: Job, s: State)
    requires Working(j.codec) && Main(j, s) && MemcrStep(j, s) != s
    ensures Work(MemcrStep(j, s)) < Work(s)
  {
    var s' := MemcrStep(j, s);
    var ck := s.stage.Checkpointing?;
    match s.todo[0]
    case Connect => SendWork(s, s', Accept, ck);
    case Put(it) => SendWork(s, s', it, ck);
    case Close => SendWork(s, s', Eof, ck);
    case _ => ReceptionWorks(j, s, s');
  }

  lemma MemcrStays(j: Job, s: State)
    requires Usable(j.codec)
    ensures MemcrStep(j, s).stage == s.stage
  {
  }

  lemma ReceptionWorks(j: Job, s: State, s': State)
    requires Working(j.codec) && Running(s) && s.todo != [] && s' == MemcrStep(j, s) && s' != s
    requires s.todo[0].Fetch? || s.todo[0].PeekAt? || s.todo[0].RecvMap?
    requires Turn(j, s)
    ensures Work(s') < Work(s)
  {
    assert ItemsOf(s.todo[0]) == [];
    assert TodoCost(s.todo) == 1 + (if s.todo[0].PeekAt? then s.todo[0].r.len else 0) + TodoCost(s.todo[1..]);
    assert s'.conns == s.conns && s'.accepted == s.accepted && s'.target == s.target;
  }

  lemma TakeWork(j: Job, s: State, s': State, it: Item)
    requires Takes(j, s, s', it) && !Down(s'.target.phase)
    ensures Work(s') < Work(s)
  {
    ItemsCostAppend([it], Pending(s'.conns, s'.accepted));
    SingleCost(it);
  }

  lemma EmitWork(j: Job, s: State, b: Byte)
    requires Replying(s.target.phase) && !Down(Emit(j, s, b).target.phase)
    requires s.target.phase.Sending? ==> s.target.phase.off <= s.target.phase.r.len
    ensures Work(Emit(j, s, b)) < Work(s)
  {
    EmitFrame(j, s, b);
    var s' := Emit(j, s, b);
    assert PhaseCost(s'.target.phase) + |s'.back| < PhaseCost(s.target.phase) + |s.back|;
  }

  /** Every step the parasite takes uses up work. */
  lemma ParasiteWorks(j: Job, s: State, b: Byte)
    requires Working(j.codec) && Main(j, s) && !s.stage.Killed? && !Down(s.target.phase)
    requires !Down(Exec(j.base, Start(j), Script(j, s.stage)).phase)
    requires ParasiteStep(j, s, b) != s
    ensures Work(ParasiteStep(j, s, b)) < Work(s) && ParasiteStep(j, s, b).stage == s.stage
  {
    hide Wired, Scripted, Saved, Unspoilt;
    ParasiteKeeps(j, s, b);
    if Replying(s.target.phase) {
      TurnsAgree(j, s);
      EmitWork(j, s, b);
      EmitFrame(j, s, b);
    } else {
      ReadingWorks(j, s, ParasiteStep(j, s, b), b);
    }
  }

  lemma ReadingWorks(j: Job, s: State, s': State, b: Byte)
    requires Wired(s) && !s.stage.Killed? && !Down(s.target.phase) && !Replying(s.target.phase)
    requires s' == ParasiteStep(j, s, b) && s' != s && !Down(s'.target.phase)
    ensures Work(s') < Work(s) && s'.stage == s.stage
  {
    if !s.accepted {
      AcceptTakes(j, s, s');
      TakeWork(j, s, s', Accept);
    } else if s.conns[0].items != [] {
      ItemTakes(j, s, s');
      TakeWork(j, s, s', s.conns[0].items[0]);
    } else {
      EofTakes(j, s, s');
      TakeWork(j, s, s', Eof);
    }
  }

  /** A ready side that is scheduled does something. */
  lemma ReadyMoves(j: Job, s: State, cap: nat)
    requires Working(j.codec) && !s.stage.Killed?
    ensures MemcrReady(s, cap) ==> MemcrStep(j, s) != s
    ensures ParasiteReady(s, cap) ==> ParasiteStep(j, s, 0) != s
  {
    if MemcrReady(s, cap) {
      assert MemcrStep(j, s).todo != s.todo || MemcrStep(j, s).rx != s.rx;
    }
  }

  /** The order in which steps count down: a restore comes after its checkpoint. */
  predicate Nearer(s': State, s: State) {
    if s.stage.Checkpointing? && !s'.stage.Checkpointing? then true
    else s'.stage == s.stage && Work(s') < Work(s)
  }

  lemma EnterMoves(j: Job, s: State)
    requires ValidJob(j) && Main(j, s) && s.stage.Checkpointing? && s.todo == []
    ensures EnterRestore(j, s).stage.Restoring?
  {
    ValidIsSound(j);
    EnterReads(j, s);
  }

  lemma NextMove(j: Job, s: State) returns (l: Label)
    requires ValidJob(j) && Main(j, s) && Running(s) && !Down(s.target.phase)
    ensures l.Memcr? || l.Enter? || l.Finish? || l.Para?
    ensures Step(j, s, l).stage.Released? || (Running(Step(j, s, l)) && Nearer(Step(j, s, l), s))
  {
    hide Wired, Scripted, Executed, Turn, Saved, Unspoilt;
    NoDeadlock(j, s, 1);
    ReadyMoves(j, s, 1);
    if MemcrReady(s, 1) {
      l := Memcr;
      MemcrWorks(j, s);
      MemcrStays(j, s);
    } else if ParasiteReady(s, 1) {
      l := Para(0);
      ValidIsSound(j);
      ScriptSurvives(j, s.stage);
      ParasiteWorks(j, s, 0);
    } else if s.stage.Checkpointing? {
      l := Enter;
      EnterMoves(j, s);
    } else {
      l := Finish;
    }
  }

  lemma MoveKeeps(j: Job, s: State, l: Label)
    requires ValidJob(j) && Main(j, s) && Running(s) && !Down(s.target.phase)
    requires l.Memcr? || l.Enter? || l.Finish? || l.Para?
    ensures Main(j, Step(j, s, l)) && !Down(Step(j, s, l).target.phase) && Work(Step(j, s, l)) >= 0
  {
    ValidIsSound(j);
    LiveStep(j, s, l);
    WorkBounded(j, Step(j, s, l));
  }

  predicate Faultless(ls: seq<Label>) {
    forall i :: 0 <= i < |ls| ==> !ls[i].Fail? && !ls[i].Die?
  }

  /** From every reachable live state, the protocol can always go on to release the target. */
  lemma AlwaysFinishes(j: Job, s: State) returns (ls: seq<Label>)
    requires ValidJob(j) && Main(j, s) && Running(s) && !Down(s.target.phase) && Work(s) >= 0
    ensures Run(j, s, ls).stage.Released? && Faultless(ls)
    decreases if s.stage.Checkpointing? then 1 else 0, Work(s)
  {
    hide Main, Step, Run, Work;
    var l := NextMove(j, s);
    MoveKeeps(j, s, l);
    var s' := Step(j, s, l);
    if s'.stage.Released? {
      ls := [l] + [];
      RunOn(j, s, l, []);
    } else {
      var rest := AlwaysFinishes(j, s');
      ls := [l] + rest;
      RunOn(j, s, l, rest);
    }
  }

  lemma RunOn(j: Job, s: State, l: Label, rest: seq<Label>)
    requires Usable(j.codec)
    ensures Run(j, s, [l] + rest) == Run(j, Step(j, s, l), rest)
    ensures rest == [] ==> Run(j, s, [l] + rest) == Step(j, s, l)
  {
    assert ([l] + rest)[1..] == rest;
  }

  /** No schedule without failures gets stuck: it can be extended until the target is released. */
  lemma NoScheduleStuck(j: Job, ls: seq<Label>) returns (more: seq<Label>)
    requires ValidJob(j) && Running(Run(j, Init(j), ls)) && !Run(j, Init(j), ls).target.phase.Died?
    ensures Run(j, Run(j, Init(j), ls), more).stage.Released?
  {
    ReachableInv(j, ls);
    var s := Run(j, Init(j), ls);
    WorkBounded(j, s);
    more := AlwaysFinishes(j, s);
  }

  // ---- the same of every reachable state ---------------------------------------------------------

  /**
   * Turn agreement, after every schedule: memcr waits for exactly the bytes that are in flight to it, being sent, or
   * asked for by requests still queued; and when it is not waiting, no byte is on its way back.
   */
  lemma TurnsAlwaysAgree(j: Job, ls: seq<Label>)
    requires ValidJob(j)
    ensures var s := Run(j, Init(j), ls);
            Running(s) && !s.target.phase.Died? ==>
              && 0 <= Awaited(s) == |s.back| + Unsent(s.target.phase) + RepliesIn(Pending(s.conns, s.accepted))
              && (s.todo == [] || !(s.todo[0].Fetch? || s.todo[0].RecvMap?) ==> s.back == [])
  {
    ReachableInv(j, ls);
    var s := Run(j, Init(j), ls);
    if Running(s) && !s.target.phase.Died? {
      TurnsAgree(j, s);
    }
  }

  /** After every schedule, with buffers of any size, one of the two sides can act until the target is released. */
  lemma NeverDeadlocks(j: Job, ls: seq<Label>, cap: nat)
    requires ValidJob(j) && cap > 0
    ensures var s := Run(j, Init(j), ls); Running(s) && !s.target.phase.Died? ==> Ready(s, cap)
  {
    ReachableInv(j, ls);
    var s := Run(j, Init(j), ls);
    if Running(s) && !s.target.phase.Died? {
      NoDeadlock(j, s, cap);
    }
  }

  /**
   * After every schedule, a step of either side that changes anything uses up work, of which there is a finite amount.
   */
  lemma EveryStepWorks(j: Job, ls: seq<Label>, l: Label)
    requires ValidJob(j) && (l.Memcr? || l.Para?)
    ensures var s := Run(j, Init(j), ls);
            Running(s) && !s.target.phase.Died? && Step(j, s, l) != s ==> 0 <= Work(Step(j, s, l)) < Work(s)
  {
    ReachableInv(j, ls);
    var s := Run(j, Init(j), ls);
    if Running(s) && !s.target.phase.Died? && Step(j, s, l) != s {
      OneStepWorks(j, s, l);
    }
  }

  lemma OneStepWorks(j: Job, s: State, l: Label)
    requires ValidJob(j) && Main(j, s) && Running(s) && !Down(s.target.phase)
    requires (l.Memcr? || l.Para?) && Step(j, s, l) != s
    ensures 0 <= Work(Step(j, s, l)) < Work(s)
  {
    MoveKeeps(j, s, l);
    if l.Memcr? {
      MemcrWorks(j, s);
    } else {
      ValidIsSound(j);
      ScriptSurvives(j, s.stage);
      ParasiteWorks(j, s, l.b);
    }
  }
}
