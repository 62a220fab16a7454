/**
 * memcr and the parasite as two processes joined by connections that deliver in order and with any delay.
 * memcr's side is the list of actions its code performs; every interleaving of the two sides is a run.
 */
module Protocol {
  import opened Bytes
  import opened TargetMemory
  import opened DumpCodec
  import opened Parasite

  /** A request get_vma_pages makes: dump and drop, drop only, or fetch the pagemap. */
  datatype Want = Dump(r: Region) | Free(r: Region) | Ask(len: nat)

  /**
   * One checkpoint and restore: the scanned mappings, the requests made for them, the mode, the target's
   * memory and protections as memcr finds them, and what dropped pages read as.
   */
  datatype Job = Job(vmas: seq<Vma>, wants: seq<Want>, procMem: bool, mem: TargetMemory.Mem,
                     base: TargetMemory.Mem, prot: ProtMap, codec: Codec, stale: nat -> Byte)

  /** What memcr does next: connect, send, close, or receive bytes of a region or of the pagemap. */
  datatype Action =
    | Connect
    | Put(it: Item)
    | Close
    | Fetch(r: Region)
    | PeekAt(r: Region)
    | RecvMap(len: nat)

  datatype Conn = Conn(items: seq<Item>, closed: bool)

  datatype Stage = Checkpointing | Restoring | Released | Killed

  /**
   * The whole system. `conns` are the connections the parasite has not finished, oldest first, the first one
   * being served when `accepted`; `back` is in flight to memcr; `sent` and `consumed` are histories.
   */
  datatype State = State(
    target: Target,
    consumed: seq<Item>,
    conns: seq<Conn>,
    accepted: bool,
    back: seq<Byte>,
    todo: seq<Action>,
    sent: seq<Item>,
    rx: seq<Byte>,
    file: seq<Byte>,
    dumped: nat,
    stage: Stage)

  // ---- memcr's side ------------------------------------------------------------------------------

  predicate ReadWrite(p: Prot) {
    p.read && p.write
  }

  /** The requests of target_mprotect_off (off) and target_mprotect_on (!off). */
  function ProtPuts(vmas: seq<Vma>, off: bool): seq<Action> {
    if vmas == [] then []
    else if ReadWrite(vmas[0].prot) then ProtPuts(vmas[1..], off)
    else
      var p := vmas[0].prot;
      [Put(Protect(Span(vmas[0]), if off then p.(read := true, write := true) else p))] + ProtPuts(vmas[1..], off)
  }

  function ProtActions(vmas: seq<Vma>, off: bool): seq<Action> {
    [Connect, Put(Cmd(CmdMprotect))] + ProtPuts(vmas, off) + [Close]
  }

  /** get_vm_region and free_vm_region: with --proc-mem the region is read before the drop is asked for. */
  function WantActions(w: Want, procMem: bool): seq<Action> {
    match w
    case Dump(r) => if procMem then [PeekAt(r), Put(Mem(r, false))] else [Put(Mem(r, true)), Fetch(r)]
    case Free(r) => [Put(Mem(r, false))]
    case Ask(n) => [Put(Query(n)), RecvMap(n)]
  }

  function WantsActions(wants: seq<Want>, procMem: bool): seq<Action> {
    if wants == [] then [] else WantActions(wants[0], procMem) + WantsActions(wants[1..], procMem)
  }

  /** get_target_pages. */
  function GetActions(wants: seq<Want>, procMem: bool): seq<Action> {
    [Connect, Put(Cmd(CmdGetPages))] + WantsActions(wants, procMem) + [Close]
  }

  function DataPuts(data: seq<Byte>): seq<Action> {
    if data == [] then [] else [Put(Data(data[0]))] + DataPuts(data[1..])
  }

  function SetPuts(recs: seq<Record>): seq<Action> {
    if recs == [] then []
    else [Put(Mem(recs[0].region, false))] + DataPuts(recs[0].data) + SetPuts(recs[1..])
  }

  /** target_set_pages for the records read back from the dump. */
  function SetActions(recs: seq<Record>): seq<Action> {
    [Connect, Put(Cmd(CmdSetPages))] + SetPuts(recs) + [Close]
  }

  /** cmd_checkpoint. */
  function CheckpointActions(j: Job): seq<Action> {
    ProtActions(j.vmas, true) + GetActions(j.wants, j.procMem)
  }

  /** cmd_restore. */
  function RestoreActions(j: Job, recs: seq<Record>): seq<Action> {
    SetActions(recs) + ProtActions(j.vmas, false) + [Connect, Put(Cmd(CmdEnd)), Close]
  }

  function Init(j: Job): State {
    State(Target(j.mem, j.prot, Listening, []), [], [], false, [], CheckpointActions(j), [], [], [], 0,
          Checkpointing)
  }

  predicate Running(s: State) {
    s.stage.Checkpointing? || s.stage.Restoring?
  }

  /** Appends to the connection memcr has open, the newest one. */
  function PutLast(conns: seq<Conn>, it: Item): seq<Conn>
    requires conns != []
  {
    var c := conns[|conns| - 1];
    conns[|conns| - 1 := Conn(c.items + [it], c.closed)]
  }

  function CloseLast(conns: seq<Conn>): seq<Conn>
    requires conns != []
  {
    conns[|conns| - 1 := conns[|conns| - 1].(closed := true)]
  }

  /** write_vm_region of the bytes received for r. */
  function Save(j: Job, s: State, r: Region): State
    requires Usable(j.codec)
    requires s.todo != []
  {
    s.(file := s.file + WriteRegion(j.codec, Record(r, s.rx)), dumped := s.dumped + r.len,
       rx := [], todo := s.todo[1..])
  }

  /** memcr's next step; a receive that finds nothing, and a finished agenda, change nothing. */
  function MemcrStep(j: Job, s: State): State
    requires Usable(j.codec)
  {
    if !Running(s) || s.todo == [] then s else
      match s.todo[0]
      case Connect => s.(conns := s.conns + [Conn([], false)], sent := s.sent + [Accept], todo := s.todo[1..])
      case Put(it) =>
        if s.conns == [] then s
        else s.(conns := PutLast(s.conns, it), sent := s.sent + [it], todo := s.todo[1..])
      case Close =>
        if s.conns == [] then s
        else s.(conns := CloseLast(s.conns), sent := s.sent + [Eof], todo := s.todo[1..])
      case Fetch(r) =>
        if |s.rx| >= r.len then Save(j, s, r)
        else if s.back == [] then s
        else s.(rx := s.rx + [s.back[0]], back := s.back[1..])
      case PeekAt(r) =>
        if |s.rx| >= r.len then Save(j, s, r)
        else s.(rx := s.rx + [At(s.target.mem, r.addr + |s.rx|)])
      case RecvMap(n) =>
        if |s.rx| >= n then s.(rx := [], todo := s.todo[1..])
        else if s.back == [] then s
        else s.(rx := s.rx + [s.back[0]], back := s.back[1..])
  }

  /** The restore command: the dump is read back and cmd_restore begins, or the target is killed. */
  function EnterRestore(j: Job, s: State): State
    requires Usable(j.codec)
  {
    if !s.stage.Checkpointing? || s.todo != [] then s else
      var r := ReadDump(j.codec, s.file, s.dumped, j.stale);
      if r.ok then s.(stage := Restoring, todo := RestoreActions(j, r.applied)) else s.(stage := Killed)
  }

  /** memcr lets the target go only after cmd_restore is done and the parasite has exited normally. */
  function Release(s: State): State {
    if s.stage.Restoring? && s.todo == [] && s.target.phase.Exited? then s.(stage := Released) else s
  }

  // ---- the parasite's side -----------------------------------------------------------------------

  /** One step of a reply: a byte of the region or of the pagemap, and in the end the drop. */
  function Emit(j: Job, s: State, b: Byte): State {
    match s.target.phase
    case Sending(r, off) =>
      if off >= r.len then s.(target := Drop(j.base, s.target, r))
      else if !Readable(s.target.prot, r.addr + off) then s.(target := s.target.(phase := Faulted))
      else s.(back := s.back + [At(s.target.mem, r.addr + off)],
              target := s.target.(phase := Sending(r, off + 1)))
    case Answering(left) =>
      if left == 0 then s.(target := s.target.(phase := InGet))
      else s.(back := s.back + [b], target := s.target.(phase := Answering(left - 1)))
    case _ => s
  }

  /**
   * The parasite's next step: reply, accept, read, or notice the end of the connection. It is a thread of the
   * target and dies with it.
   */
  function ParasiteStep(j: Job, s: State, b: Byte): State {
    if s.stage.Killed? then s
    else if s.target.phase.Sending? || s.target.phase.Answering? then Emit(j, s, b)
    else if s.target.phase in {Exited, Faulted, Died} || s.conns == [] then s
    else if !s.accepted then
      s.(accepted := true, target := Consume(j.base, s.target, Accept), consumed := s.consumed + [Accept])
    else
      var c := s.conns[0];
      if c.items != [] then
        s.(conns := s.conns[0 := c.(items := c.items[1..])],
           target := Consume(j.base, s.target, c.items[0]), consumed := s.consumed + [c.items[0]])
      else if c.closed then
        s.(conns := s.conns[1..], accepted := false,
           target := Consume(j.base, s.target, Eof), consumed := s.consumed + [Eof])
      else s
  }

  // ---- runs --------------------------------------------------------------------------------------

  /**
   * A scheduler's choice. `Fail` is any error memcr notices, after which it kills the target; `Die` is the
   * kernel refusing a call of the parasite, which then kills itself.
   */
  datatype Label = Memcr | Enter | Finish | Fail | Para(b: Byte) | Die

  function Step(j: Job, s: State, l: Label): State
    requires Usable(j.codec)
  {
    match l
    case Memcr => MemcrStep(j, s)
    case Enter => EnterRestore(j, s)
    case Finish => Release(s)
    case Fail => if Running(s) then s.(stage := Killed) else s
    case Para(b) => ParasiteStep(j, s, b)
    case Die => if s.target.phase.Exited? then s else s.(target := s.target.(phase := Died))
  }

  /** The state after a schedule. */
  function Run(j: Job, s: State, ls: seq<Label>): State
    requires Usable(j.codec)
    decreases |ls|
  {
    if ls == [] then s else Run(j, Step(j, s, ls[0]), ls[1..])
  }
}
