/** What every step of the memcr-parasite system keeps. */
module ProtocolInvariant {
  import opened Bytes
  import opened TargetMemory
  import opened DumpCodec
  import opened Parasite
  import opened Protocol

  // ---- connections as one stream -----------------------------------------------------------------

  /** All that is in flight to the parasite, in the order in which it will consume it. */
  function Pending(conns: seq<Conn>, accepted: bool): seq<Item>
    decreases |conns|
  {
    if conns == [] then [] else
      (if accepted then [] else [Accept]) + conns[0].items + (if conns[0].closed then [Eof] else [])
      + Pending(conns[1..], false)
  }

  /** Only the newest connection can still be open. */
  predicate OlderClosed(conns: seq<Conn>) {
    forall i :: 0 <= i < |conns| - 1 ==> conns[i].closed
  }

  predicate NewestOpen(conns: seq<Conn>) {
    conns != [] && !conns[|conns| - 1].closed
  }

  /** Accept and Eof are marks of the connection itself and are never sent. */
  predicate NoMarks(conns: seq<Conn>) {
    forall i, k :: 0 <= i < |conns| && 0 <= k < |conns[i].items| ==>
      !conns[i].items[k].Accept? && !conns[i].items[k].Eof?
  }

  lemma {:induction false} PendingConnect(conns: seq<Conn>, accepted: bool)
    requires conns == [] ==> !accepted
    ensures Pending(conns + [Conn([], false)], accepted) == Pending(conns, accepted) + [Accept]
    decreases |conns|
  {
    var more := conns + [Conn([], false)];
    if conns == [] {
      assert more[1..] == [];
      assert Pending([], false) == [];
    } else {
      assert more[0] == conns[0] && more[1..] == conns[1..] + [Conn([], false)];
      PendingConnect(conns[1..], false);
    }
  }

  lemma {:induction false} PendingPut(conns: seq<Conn>, accepted: bool, it: Item)
    requires NewestOpen(conns)
    ensures Pending(PutLast(conns, it), accepted) == Pending(conns, accepted) + [it]
    decreases |conns|
  {
    var more := PutLast(conns, it);
    if |conns| == 1 {
      assert more[1..] == [] && conns[1..] == [];
    } else {
      assert more[1..] == PutLast(conns[1..], it);
      PendingPut(conns[1..], false, it);
    }
  }

  lemma {:induction false} PendingClose(conns: seq<Conn>, accepted: bool)
    requires NewestOpen(conns)
    ensures Pending(CloseLast(conns), accepted) == Pending(conns, accepted) + [Eof]
    decreases |conns|
  {
    var more := CloseLast(conns);
    if |conns| == 1 {
      assert more[1..] == [] && conns[1..] == [];
    } else {
      assert more[1..] == CloseLast(conns[1..]);
      PendingClose(conns[1..], false);
    }
  }

  // ---- memcr's agenda ----------------------------------------------------------------------------

  function ItemsOf(a: Action): seq<Item> {
    match a
    case Connect => [Accept]
    case Put(it) => [it]
    case Close => [Eof]
    case _ => []
  }

  /** What an agenda will send. */
  function Items(todo: seq<Action>): seq<Item>
    decreases |todo|
  {
    if todo == [] then [] else ItemsOf(todo[0]) + Items(todo[1..])
  }

  /** The records an agenda will save if every region still reads as in m. */
  function Ahead(m: TargetMemory.Mem, todo: seq<Action>): seq<Record>
    decreases |todo|
  {
    if todo == [] then []
    else
      (match todo[0]
       case Fetch(r) => [Record(r, Slice(m, r))]
       case PeekAt(r) => [Record(r, Slice(m, r))]
       case _ => [])
      + Ahead(m, todo[1..])
  }

  /** A connection is open at the start of this agenda. */
  predicate OpenTail(todo: seq<Action>)
    decreases |todo|
  {
    if todo == [] then false
    else match todo[0]
      case Connect => false
      case Close => true
      case _ => OpenTail(todo[1..])
  }

  /** No region asked for so far meets r. */
  predicate Clear(sent: seq<Item>, r: Region) {
    forall i :: 0 <= i < |sent| && sent[i].Mem? ==> Apart(sent[i].r, r)
  }

  /** No two regions asked for meet. */
  predicate Distinct(sent: seq<Item>) {
    forall i, k :: 0 <= i < k < |sent| && sent[i].Mem? && sent[k].Mem? ==> Apart(sent[i].r, sent[k].r)
  }

  /** A checkpoint sends no page data and neither of the commands that end it. */
  predicate Gentle(it: Item) {
    !it.Data? && it != Cmd(CmdSetPages) && it != Cmd(CmdEnd)
  }

  predicate WantsReply(it: Item) {
    (it.Mem? && it.tx) || it.Query?
  }

  predicate NoReply(items: seq<Item>) {
    forall i :: 0 <= i < |items| ==> !WantsReply(items[i])
  }

  predicate Receives(todo: seq<Action>) {
    todo != [] && (todo[0].Fetch? || todo[0].RecvMap?)
  }

  /** One action fits after what was sent: a request for a reply is followed by its reception, a checkpoint
      never asks for a region twice, and connections are opened and closed in turn. */
  predicate FitsOne(ck: bool, sent: seq<Item>, a: Action, rest: seq<Action>) {
    match a
    case Connect => OpenTail(rest)
    case Close => !OpenTail(rest)
    case Put(it) =>
      && OpenTail(rest)
      && !it.Accept? && !it.Eof?
      && (!ck ==> !WantsReply(it))
      && (ck ==> Gentle(it))
      && (ck && it.Mem? ==> Clear(sent, it.r))
      && (it.Mem? && it.tx ==> rest != [] && rest[0] == Fetch(it.r))
      && (it.Query? ==> rest != [] && rest[0] == RecvMap(it.len))
    case Fetch(r) => ck && r.len > 0 && !Receives(rest) && sent != [] && sent[|sent| - 1] == Mem(r, true)
    case PeekAt(r) => ck && Clear(sent, r) && rest != [] && rest[0] == Put(Mem(r, false))
    case RecvMap(n) => ck && n > 0 && !Receives(rest) && sent != [] && sent[|sent| - 1] == Query(n)
  }

  predicate Fits(ck: bool, sent: seq<Item>, todo: seq<Action>)
    decreases |todo|
  {
    todo == [] || (FitsOne(ck, sent, todo[0], todo[1..]) && Fits(ck, sent + ItemsOf(todo[0]), todo[1..]))
  }

  // ---- the invariant -----------------------------------------------------------------------------

  function Start(j: Job): Target {
    Target(j.mem, j.prot, Listening, [])
  }

  function Records(j: Job): seq<Record> {
    Ahead(j.mem, CheckpointActions(j))
  }

  function Script(j: Job, stage: Stage): seq<Item> {
    Items(CheckpointActions(j)) + (if stage.Checkpointing? then [] else Items(RestoreActions(j, Records(j))))
  }

  /** No page is dropped after a page was written back. */
  predicate Ordered(log: seq<Event>) {
    forall i, k :: 0 <= i < k < |log| && log[i].Wrote? ==> !log[k].Dropped?
  }

  /** What is needed of a job; the module ProtocolScript shows that every valid job has it. */
  ghost predicate Sound(j: Job) {
    && Working(j.codec)
    && Fits(true, [], CheckpointActions(j))
    && Fits(false, Items(CheckpointActions(j)), RestoreActions(j, Records(j)))
    && Exec(j.base, Start(j), Script(j, Checkpointing)).phase == Listening
    && Exec(j.base, Start(j), Script(j, Restoring)).phase == Exited
    && Ordered(Exec(j.base, Start(j), Script(j, Restoring)).log)
    && AllStorable(j.codec, Records(j))
  }

  /** Nothing more will come back to memcr for the request being served. */
  predicate Quiet(p: Phase) {
    match p
    case Sending(r, off) => off == r.len
    case Answering(left) => left == 0
    case _ => true
  }

  /** memcr expects `len` bytes for the request `it`: it is still queued, being answered, or answered. */
  ghost predicate Expecting(s: State, it: Item, full: seq<Byte>) {
    var pend := Pending(s.conns, s.accepted);
    || (s.rx == [] && s.back == [] && Quiet(s.target.phase)
        && pend != [] && pend[|pend| - 1] == it && NoReply(pend[..|pend| - 1]))
    || (pend == [] && it.Mem? && s.target.phase.Sending? && s.target.phase.r == it.r
        && s.target.phase.off <= |full| && s.rx + s.back == full[..s.target.phase.off])
    || (pend == [] && it.Mem? && s.target.phase.InGet? && s.rx + s.back == full)
    || (pend == [] && it.Query? && s.target.phase.Answering?
        && |s.rx| + |s.back| + s.target.phase.left == it.len)
    || (pend == [] && it.Query? && s.target.phase.InGet? && |s.rx| + |s.back| == it.len)
  }

  /** Both sides agree on whose turn it is and on how many bytes are owed. */
  ghost predicate Turn(j: Job, s: State) {
    if s.todo != [] && s.todo[0].Fetch? then
      Expecting(s, Mem(s.todo[0].r, true), Slice(j.mem, s.todo[0].r))
    else if s.todo != [] && s.todo[0].RecvMap? then
      Expecting(s, Query(s.todo[0].len), [])
    else
      && s.back == [] && Quiet(s.target.phase) && NoReply(Pending(s.conns, s.accepted))
      && (if s.todo != [] && s.todo[0].PeekAt? then s.rx <= Slice(j.mem, s.todo[0].r) else s.rx == [])
  }

  predicate Untouched(items: seq<Item>, x: nat) {
    forall i :: 0 <= i < |items| && items[i].Mem? ==> !Covers(items[i].r, x)
  }

  /** During a checkpoint the memory differs from the start only where a consumed request covers it. */
  ghost predicate Unspoilt(j: Job, s: State) {
    && Distinct(s.sent)
    && (forall i :: 0 <= i < |s.sent| ==> Gentle(s.sent[i]))
    && !s.target.phase.InSet? && !s.target.phase.Filling?
    && (forall x: nat :: Untouched(s.consumed, x) ==> At(s.target.mem, x) == At(j.mem, x))
    && (s.target.phase.Sending? ==>
          && s.consumed != [] && s.consumed[|s.consumed| - 1] == Mem(s.target.phase.r, true)
          && forall x: nat :: Covers(s.target.phase.r, x) ==> At(s.target.mem, x) == At(j.mem, x))
  }

  ghost predicate Wired(s: State) {
    && s.sent == s.consumed + Pending(s.conns, s.accepted)
    && (s.accepted ==> s.conns != [])
    && OlderClosed(s.conns) && NoMarks(s.conns)
    && (OpenTail(s.todo) <==> NewestOpen(s.conns))
    && (s.accepted <==> !s.target.phase.Listening?)
  }

  ghost predicate Saved(j: Job, s: State)
    requires Working(j.codec)
  {
    s.stage.Checkpointing? ==>
      && s.file + WriteDump(j.codec, Ahead(j.mem, s.todo)) == WriteDump(j.codec, Records(j))
      && s.dumped + TotalLen(Ahead(j.mem, s.todo)) == TotalLen(Records(j))
  }

  /** What was sent and what is on the agenda make up the script, and the agenda fits. */
  ghost predicate Scripted(j: Job, s: State) {
    && Fits(s.stage.Checkpointing?, s.sent, s.todo)
    && s.sent + Items(s.todo) == Script(j, s.stage)
  }

  /** The target is where the consumed items lead, up to a reply in progress. */
  ghost predicate Executed(j: Job, s: State) {
    Settle(j.base, s.target) == Exec(j.base, Start(j), s.consumed)
  }

  ghost predicate Main(j: Job, s: State)
    requires Working(j.codec)
  {
    && Wired(s)
    && Scripted(j, s)
    && Executed(j, s)
    && Turn(j, s)
    && Saved(j, s)
    && (s.stage.Checkpointing? ==> Unspoilt(j, s))
  }

  /** Holds in every reachable state: no fault, and the main invariant until the target or its parasite dies. */
  ghost predicate Inv(j: Job, s: State)
    requires Working(j.codec)
  {
    && !s.target.phase.Faulted?
    && Ordered(s.target.log)
    && (s.stage.Released? ==> s.target.phase.Exited?)
    && (s.stage.Killed? || s.target.phase.Died? || Main(j, s))
  }
}
