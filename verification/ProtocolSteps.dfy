/** Each step of the memcr-parasite system keeps the invariant. */
module ProtocolSteps {
  import opened Bytes
  import opened TargetMemory
  import opened DumpCodec
  import opened Parasite
  import opened Protocol
  import opened ProtocolInvariant

  // ---- memcr sends -------------------------------------------------------------------------------

  /** The three ways in which memcr adds to what is in flight. */
  predicate Sends(s: State, s': State, it: Item) {
    && s.todo != []
    && s' == s.(conns := s'.conns, sent := s.sent + [it], todo := s.todo[1..])
    && ((s.todo[0] == Connect && it == Accept && s'.conns == s.conns + [Conn([], false)])
        || (s.conns != [] && s.todo[0] == Put(it) && s'.conns == PutLast(s.conns, it))
        || (s.conns != [] && s.todo[0] == Close && it == Eof && s'.conns == CloseLast(s.conns)))
  }

  lemma SendPending(s: State, s': State, it: Item, ck: bool)
    requires Sends(s, s', it) && Wired(s) && FitsOne(ck, s.sent, s.todo[0], s.todo[1..])
    ensures Pending(s'.conns, s'.accepted) == Pending(s.conns, s.accepted) + [it]
  {
    match s.todo[0]
    case Connect => PendingConnect(s.conns, s.accepted);
    case Put(_) => PendingPut(s.conns, s.accepted, it);
    case Close => PendingClose(s.conns, s.accepted);
  }

  lemma SendWired(s: State, s': State, it: Item, ck: bool)
    requires Sends(s, s', it) && Wired(s) && FitsOne(ck, s.sent, s.todo[0], s.todo[1..])
    ensures Wired(s')
  {
    hide Pending;
    SendPending(s, s', it, ck);
    match s.todo[0]
    case Connect =>
      assert OlderClosed(s'.conns) && NoMarks(s'.conns);
    case Put(_) =>
      assert OlderClosed(s'.conns) && NoMarks(s'.conns);
    case Close =>
      assert OlderClosed(s'.conns) && NoMarks(s'.conns);
  }

  lemma SendTurn(j: Job, s: State, s': State, it: Item, ck: bool)
    requires Sends(s, s', it) && Wired(s) && Turn(j, s)
    requires FitsOne(ck, s.sent, s.todo[0], s.todo[1..]) && Fits(ck, s'.sent, s'.todo)
    ensures Turn(j, s')
  {
    SendPending(s, s', it, ck);
    var pend := Pending(s.conns, s.accepted);
    assert (pend + [it])[..|pend|] == pend;
  }

  lemma SendUnspoilt(j: Job, s: State, s': State, it: Item)
    requires Sends(s, s', it) && Unspoilt(j, s) && FitsOne(true, s.sent, s.todo[0], s.todo[1..])
    ensures Unspoilt(j, s')
  {
  }

  lemma PeelItems(sent: seq<Item>, todo: seq<Action>)
    requires todo != []
    ensures sent + Items(todo) == (sent + ItemsOf(todo[0])) + Items(todo[1..])
  {
  }

  lemma SendScripted(j: Job, s: State, s': State, it: Item)
    requires Scripted(j, s) && Sends(s, s', it)
    ensures Scripted(j, s')
  {
    PeelItems(s.sent, s.todo);
  }

  lemma SendSaved(j: Job, s: State, s': State, it: Item)
    requires Working(j.codec) && Saved(j, s) && Sends(s, s', it)
    ensures Saved(j, s')
  {
    assert Ahead(j.mem, s.todo) == Ahead(j.mem, s'.todo);
  }

  lemma SendKeeps(j: Job, s: State, s': State, it: Item)
    requires Working(j.codec) && Main(j, s) && Sends(s, s', it)
    ensures Main(j, s')
  {
    var ck := s.stage.Checkpointing?;
    SendScripted(j, s, s', it);
    SendWired(s, s', it, ck);
    SendTurn(j, s, s', it, ck);
    SendSaved(j, s, s', it);
    if ck {
      SendUnspoilt(j, s, s', it);
    }
  }

  // ---- memcr receives ----------------------------------------------------------------------------

  lemma ReceiveKeeps(j: Job, s: State, s': State)
    requires Working(j.codec) && Main(j, s) && s.todo != [] && s.back != []
    requires s.todo[0].Fetch? || s.todo[0].RecvMap?
    requires s' == s.(rx := s.rx + [s.back[0]], back := s.back[1..])
    ensures Main(j, s')
  {
    ReceiveTurn(j, s, s');
  }

  lemma ReceiveTurn(j: Job, s: State, s': State)
    requires Turn(j, s) && s.todo != [] && s.back != []
    requires s.todo[0].Fetch? || s.todo[0].RecvMap?
    requires s' == s.(rx := s.rx + [s.back[0]], back := s.back[1..])
    ensures Turn(j, s')
  {
    assert s'.rx + s'.back == s.rx + s.back;
  }

  /** A byte read through /proc/pid/mem is the byte the target started with. */
  lemma PeekedByte(j: Job, s: State, x: nat)
    requires Wired(s) && Unspoilt(j, s) && s.todo != [] && s.todo[0].PeekAt?
    requires Clear(s.sent, s.todo[0].r) && Covers(s.todo[0].r, x)
    ensures At(s.target.mem, x) == At(j.mem, x)
  {
    assert s.consumed <= s.sent;
    assert Untouched(s.consumed, x);
  }

  lemma PeekKeeps(j: Job, s: State, s': State)
    requires Working(j.codec) && Main(j, s) && s.todo != [] && s.todo[0].PeekAt?
    requires |s.rx| < s.todo[0].r.len
    requires s' == s.(rx := s.rx + [At(s.target.mem, s.todo[0].r.addr + |s.rx|)])
    ensures Main(j, s')
  {
    PeekTurn(j, s, s');
  }

  lemma PeekTurn(j: Job, s: State, s': State)
    requires Wired(s) && Unspoilt(j, s) && Turn(j, s) && s.todo != [] && s.todo[0].PeekAt?
    requires Clear(s.sent, s.todo[0].r) && |s.rx| < s.todo[0].r.len
    requires s' == s.(rx := s.rx + [At(s.target.mem, s.todo[0].r.addr + |s.rx|)])
    ensures Turn(j, s')
  {
    PeekedByte(j, s, s.todo[0].r.addr + |s.rx|);
    assert s'.rx <= Slice(j.mem, s.todo[0].r);
  }

  /** A finished reception: the bytes are the target's, and nothing more is owed. */
  lemma ReceivedAll(j: Job, s: State)
    requires s.todo != [] && FitsOne(true, s.sent, s.todo[0], s.todo[1..]) && Turn(j, s)
    requires match s.todo[0]
             case Fetch(r) => |s.rx| >= r.len
             case PeekAt(r) => |s.rx| >= r.len
             case RecvMap(n) => |s.rx| >= n
             case _ => false
    ensures s.back == [] && Quiet(s.target.phase) && NoReply(Pending(s.conns, s.accepted))
    ensures s.todo[0].Fetch? || s.todo[0].PeekAt? ==> s.rx == Slice(j.mem, s.todo[0].r)
  {
  }

  /** memcr goes on after a reception. */
  predicate Advances(s: State, s': State) {
    && s.todo != [] && (s.todo[0].Fetch? || s.todo[0].PeekAt? || s.todo[0].RecvMap?)
    && s' == s.(rx := [], todo := s.todo[1..], file := s'.file, dumped := s'.dumped)
  }

  lemma AdvanceTurn(j: Job, s: State, s': State)
    requires Advances(s, s') && Fits(true, s'.sent, s'.todo)
    requires s.back == [] && Quiet(s.target.phase) && NoReply(Pending(s.conns, s.accepted))
    requires FitsOne(true, s.sent, s.todo[0], s.todo[1..])
    requires Turn(j, s)
    ensures Turn(j, s')
  {
    if s'.todo != [] {
      assert FitsOne(true, s'.sent, s'.todo[0], s'.todo[1..]);
    }
  }

  lemma AdvanceScripted(j: Job, s: State, s': State)
    requires Scripted(j, s) && Advances(s, s')
    ensures Scripted(j, s')
  {
    PeelItems(s.sent, s.todo);
    assert s.sent + [] == s.sent;
  }

  lemma AdvanceWired(s: State, s': State)
    requires Wired(s) && Advances(s, s')
    ensures Wired(s')
  {
  }

  lemma SaveSaved(j: Job, s: State, s': State, rec: Record)
    requires Working(j.codec) && Saved(j, s) && s.stage.Checkpointing? && s.todo != []
    requires s.todo[0].Fetch? || s.todo[0].PeekAt?
    requires rec == Record(s.todo[0].r, Slice(j.mem, s.todo[0].r))
    requires s' == s.(file := s.file + WriteRegion(j.codec, rec), dumped := s.dumped + rec.region.len,
                      rx := [], todo := s.todo[1..])
    ensures Saved(j, s')
  {
    var ahead := Ahead(j.mem, s.todo);
    assert ahead[0] == rec && ahead[1..] == Ahead(j.mem, s'.todo);
    PeelDump(j.codec, s.file, ahead);
  }

  lemma PeelDump(c: Codec, file: seq<Byte>, recs: seq<Record>)
    requires Working(c) && recs != []
    ensures file + WriteDump(c, recs) == (file + WriteRegion(c, recs[0])) + WriteDump(c, recs[1..])
  {
  }

  /** memcr receives only while it checkpoints. */
  lemma ReceivesInCheckpoint(j: Job, s: State)
    requires Scripted(j, s) && Running(s) && s.todo != [] && (s.todo[0].Fetch? || s.todo[0].PeekAt?)
    ensures s.stage.Checkpointing? && FitsOne(true, s.sent, s.todo[0], s.todo[1..])
  {
  }

  lemma SaveKeeps(j: Job, s: State, r: Region)
    requires Working(j.codec) && Main(j, s) && s.todo != [] && Running(s)
    requires s.todo[0] == Fetch(r) || s.todo[0] == PeekAt(r)
    requires |s.rx| >= r.len
    ensures Main(j, Save(j, s, r))
  {
    hide Wired, Saved, Turn, WriteRegion, FitsOne;
    var s' := Save(j, s, r);
    ReceivesInCheckpoint(j, s);
    ReceivedAll(j, s);
    SaveSaved(j, s, s', Record(r, s.rx));
    AdvanceScripted(j, s, s');
    AdvanceWired(s, s');
    AdvanceTurn(j, s, s');
  }

  lemma MapKeeps(j: Job, s: State, s': State)
    requires Working(j.codec) && Main(j, s) && s.todo != [] && Running(s)
    requires s.todo[0].RecvMap? && |s.rx| >= s.todo[0].len
    requires s' == s.(rx := [], todo := s.todo[1..])
    ensures Main(j, s')
  {
    ReceivedAll(j, s);
    AdvanceScripted(j, s, s');
    AdvanceWired(s, s');
    AdvanceTurn(j, s, s');
    MapSaved(j, s, s');
  }

  lemma MapSaved(j: Job, s: State, s': State)
    requires Working(j.codec) && Saved(j, s) && s.todo != [] && s.todo[0].RecvMap?
    requires s' == s.(rx := [], todo := s.todo[1..])
    ensures Saved(j, s')
  {
    assert Ahead(j.mem, s.todo) == Ahead(j.mem, s'.todo);
  }
}
