/**
 * The memcr service as a step system: the accept thread (service_command), the command thread
 * (service_command_thread) and the SIGCHLD handler interleave over the table, the queue and the table's lock.
 */
module ServiceSystem {
  import opened CommandQueue
  import opened ServiceTable

  /** Where the accept thread is with the request it has read. */
  datatype AcceptPc =
    | Idle
    | CanCheckpoint(r: Request)
    | Register(r: Request)
    | PushCheckpoint(r: Request)
    | RollBack(r: Request)
    | CanRestore(r: Request)
    | FindAbort(r: Request)
    | DoAbort(r: Request, i: nat)
    | PushRestore(r: Request)

  /** Where the command thread is with the request it has popped; `run` numbers its checkpoints. */
  datatype CommandPc =
    | Waiting
    | Starting(r: Request)
    | ForkFailed(r: Request)
    | Forked(r: Request, run: nat)
    | InCheckpoint(r: Request, run: nat)
    | Succeeded(r: Request, run: nat)
    | Failed(r: Request, run: nat)
    | LookUp(r: Request)
    | InRestore(r: Request)
    | Clearing(r: Request)
    | Dead

  datatype Lock = Free | Held | Leaked

  /** One checkpoint that was started: the worker forked for it, and its end of the command socket. */
  datatype Started = Started(pid: int, worker: int, cd: nat)

  /** Which registration of a slot is current, and what became of it. */
  datatype Entry = Entry(
    generation: nat,  // registrations of this slot so far
    owner: nat,       // client connection whose request registered it
    stale: bool,      // the abort mark of an earlier registration was still set
    asked: bool,      // a restore was accepted while its checkpoint was queued or running
    run: nat)         // checkpoint that took it over (meaningful once not RESTORED)

  datatype State = State(
    slots: Table,
    entries: seq<Entry>,
    queue: seq<Request>,
    accept: AcceptPc,
    command: CommandPc,
    lock: Lock,
    runs: seq<Started>,
    oks: set<nat>,                 // runs whose worker answered MEMCR_OK
    aborts: set<nat>,              // runs whose command socket was sent a RESTORE
    forwards: seq<(int, int)>,     // restores forwarded: pid, worker
    pushed: seq<Request>,
    handled: seq<Request>,
    answered: multiset<nat>,       // responses, by client connection
    dropped: multiset<nat>,        // connections left without a response
    next: nat)                     // next client connection

  datatype Outcome = NoSockets | NoFork | Worker(pid: int) | Says(ok: bool)

  datatype Label =
    | Arrive(kind: Kind, pid: int)
    | Accept
    | Command(outcome: Outcome)
    | Exited(worker: int)

  /** Process ids are positive: 0 marks a free slot. */
  predicate Legal(l: Label) {
    match l
    case Arrive(_, pid) => pid > 0
    case Accept => true
    case Command(o) => o.Worker? ==> o.pid > 0
    case Exited(w) => w > 0
  }

  function Init(): State {
    State(Empty(), seq(LIMIT, i => Entry(0, 0, false, false, 0)), [], Idle, Waiting, Free,
          [], {}, {}, [], [], [], multiset{}, multiset{}, 0)
  }

  function Respond(s: State, cd: nat): State {
    s.(answered := s.answered + multiset{cd})
  }

  function Push(s: State, r: Request): State {
    s.(queue := s.queue + [r], pushed := s.pushed + [r], accept := Idle)
  }

  // ---- accept thread -----------------------------------------------------------------------------

  function ArriveStep(s: State, kind: Kind, pid: int): State {
    if !s.accept.Idle? then s
    else
      var r := Request(kind, pid, s.next);
      var t := s.(next := s.next + 1);
      match kind
      case Checkpoint => t.(accept := CanCheckpoint(r))
      case Restore => t.(accept := CanRestore(r))
      case Unknown => Respond(t, r.cd)
  }

  /** The entry of a slot that is being registered. */
  function Registered(e: Entry, slot: Slot, cd: nat): Entry {
    Entry(e.generation + 1, cd, slot.abort, false, 0)
  }

  function RegisterStep(s: State, r: Request): (s': State)
    requires |s.entries| == |s.slots|
    ensures |s'.entries| == |s'.slots| == |s.slots|
  {
    var i := FindPid(s.slots, NO_PID);
    s.(slots := InitPid(s.slots, r.pid),
       entries := if i < |s.slots| then s.entries[i := Registered(s.entries[i], s.slots[i], r.cd)] else s.entries,
       accept := PushCheckpoint(r))
  }

  /** The slot may have been freed by SIGCHLD since it was found: the handler does not take the lock. */
  function AbortStep(s: State, r: Request, i: nat): (s': State)
    requires |s.entries| == |s.slots|
    ensures |s'.entries| == |s'.slots| == |s.slots|
  {
    if i >= |s.slots| then s
    else
      var slot := s.slots[i];
      s.(slots := Abort(s.slots, i),
         aborts := if slot.status == Checkpointing && slot.sd >= 0 then s.aborts + {slot.sd} else s.aborts,
         entries := if slot.pid == r.pid && slot.status != Checkpointed
                    then s.entries[i := s.entries[i].(asked := true)] else s.entries,
         lock := Free,
         accept := PushRestore(r))
  }

  function AcceptStep(s: State): (s': State)
    requires |s.entries| == |s.slots|
    ensures |s'.entries| == |s'.slots| == |s.slots|
  {
    match s.accept
    case Idle => s
    case CanCheckpoint(r) =>
      if s.lock != Free then s
      else if InUse(s.slots, r.pid) then Respond(s, r.cd).(accept := Idle)
      else s.(accept := Register(r))
    case Register(r) =>
      if s.lock != Free then s else RegisterStep(s, r)
    case PushCheckpoint(r) =>
      if |s.queue| < CAPACITY then Push(s, r) else s.(accept := RollBack(r))
    case RollBack(r) =>
      if s.lock != Free then s else Respond(s, r.cd).(slots := ClearPid(s.slots, r.pid), accept := Idle)
    case CanRestore(r) =>
      if s.lock != Free then s
      else if InUse(s.slots, r.pid) then s.(accept := FindAbort(r))
      else Respond(s, r.cd).(accept := Idle)
    case FindAbort(r) =>
      if s.lock != Free then s
      else if InUse(s.slots, r.pid) then s.(lock := Held, accept := DoAbort(r, FindPid(s.slots, r.pid)))
      else s.(lock := Leaked, accept := PushRestore(r))
    case DoAbort(r, i) => AbortStep(s, r, i)
    case PushRestore(r) =>
      if |s.queue| < CAPACITY then Push(s, r) else Respond(s, r.cd).(accept := Idle)
  }

  // ---- command thread ----------------------------------------------------------------------------

  /** set_pid_checkpointing, with the abort it sends when the slot is marked. */
  function TakeOver(s: State, r: Request, run: nat): (s': State)
    requires |s.entries| == |s.slots|
    ensures |s'.entries| == |s'.slots| == |s.slots|
  {
    var i := FindStatus(s.slots, r.pid, Restored);
    s.(slots := SetCheckpointing(s.slots, r.pid, run),
       entries := if i < |s.slots| then s.entries[i := s.entries[i].(run := run)] else s.entries,
       aborts := if i < |s.slots| && s.slots[i].abort then s.aborts + {run} else s.aborts,
       command := InCheckpoint(r, run))
  }

  function CommandStep(s: State, o: Outcome): (s': State)
    requires |s.entries| == |s.slots|
    ensures |s'.entries| == |s'.slots| == |s.slots|
  {
    match s.command
    case Waiting =>
      (if s.queue == [] then s
      else
        var r := s.queue[0];
        var t := s.(queue := s.queue[1..], handled := s.handled + [r]);
        match r.kind
        case Checkpoint => t.(command := Starting(r))
        case Restore => t.(command := LookUp(r))
        case Unknown => t.(dropped := t.dropped + multiset{r.cd}))
    case Starting(r) =>
      (match o
       case NoSockets => s.(dropped := s.dropped + multiset{r.cd}, command := Dead)
       case NoFork => s.(command := ForkFailed(r))
       case Worker(w) => s.(runs := s.runs + [Started(r.pid, w, r.cd)], command := Forked(r, |s.runs|))
       case Says(_) => s)
    case ForkFailed(r) =>
      if s.lock != Free then s
      else s.(slots := ClearPid(s.slots, r.pid), dropped := s.dropped + multiset{r.cd}, command := Waiting)
    case Forked(r, run) =>
      if s.lock != Free then s else TakeOver(s, r, run)
    case InCheckpoint(r, run) =>
      if !o.Says? then s
      else if o.ok then Respond(s, r.cd).(oks := s.oks + {run}, command := Succeeded(r, run))
      else Respond(s, r.cd).(command := Failed(r, run))
    case Succeeded(r, run) =>
      if s.lock != Free || run >= |s.runs| then s
      else s.(slots := SetCheckpointed(s.slots, r.pid, s.runs[run].worker), command := Waiting)
    case Failed(r, run) =>
      if s.lock != Free then s else s.(slots := ClearPid(s.slots, r.pid), command := Waiting)
    case LookUp(r) =>
      if s.lock != Free then s
      else
        var w := WorkerOf(s.slots, r.pid);
        if w == NO_PID then Respond(s, r.cd).(command := Waiting)
        else s.(forwards := s.forwards + [(r.pid, w)], command := InRestore(r))
    case InRestore(r) =>
      if o.Says? then Respond(s, r.cd).(command := Clearing(r)) else s
    case Clearing(r) =>
      if s.lock != Free then s else s.(slots := ClearPid(s.slots, r.pid), command := Waiting)
    case Dead => s
  }

  // ---- runs --------------------------------------------------------------------------------------

  /** One step; a step that cannot be taken leaves the state as it is. */
  function Step(s: State, l: Label): (s': State)
    requires |s.entries| == |s.slots|
    ensures |s'.entries| == |s'.slots| == |s.slots|
  {
    match l
    case Arrive(kind, pid) => ArriveStep(s, kind, pid)
    case Accept => AcceptStep(s)
    case Command(o) => CommandStep(s, o)
    case Exited(w) => s.(slots := ClearWorker(s.slots, w))
  }

  function Run(s: State, labels: seq<Label>): (s': State)
    requires |s.entries| == |s.slots|
    ensures |s'.entries| == |s'.slots| == |s.slots|
    decreases labels
  {
    if labels == [] then s else Run(Step(s, labels[0]), labels[1..])
  }

  predicate AllLegal(labels: seq<Label>) {
    forall l :: l in labels ==> Legal(l)
  }

  lemma {:induction false} RunAppend(s: State, a: seq<Label>, b: seq<Label>)
    requires |s.entries| == |s.slots|
    ensures Run(s, a + b) == Run(Run(s, a), b)
    decreases a
  {
    if a == [] {
      assert a + b == b;
    } else {
      assert (a + b)[0] == a[0] && (a + b)[1..] == a[1..] + b;
      RunAppend(Step(s, a[0]), a[1..], b);
    }
  }
}
