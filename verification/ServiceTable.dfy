/** checkpoint_service_data: the table of checkpointed processes of the service. */
module ServiceTable {

  /** CHECKPOINTED_PIDS_LIMIT, PID_INVALID and SOCKET_INVALID. */
  const LIMIT: nat := 48
  const NO_PID: int := 0
  const NO_SOCKET: int := -1

  datatype Status = Restored | Checkpointing | Checkpointed

  datatype Slot = Slot(pid: int, worker: int, status: Status, abort: bool, sd: int)

  type Table = seq<Slot>

  /** The table of a service that has just started: static storage, all zero. */
  function Empty(): (t: Table)
    ensures |t| == LIMIT
  {
    seq(LIMIT, i => Slot(NO_PID, NO_PID, Restored, false, 0))
  }

  // ---- what the operations do --------------------------------------------------------------------

  /** Index of the first slot with this pid (a free slot if the pid is 0), or the length. */
  function FindPid(t: Table, pid: int): (i: nat)
    ensures i <= |t|
    ensures i < |t| ==> t[i].pid == pid
    ensures forall k :: 0 <= k < i ==> t[k].pid != pid
  {
    if t == [] then 0
    else if t[0].pid == pid then 0
    else
      var i := FindPid(t[1..], pid);
      assert forall k :: 0 < k < |t| ==> t[k] == t[1..][k - 1];
      1 + i
  }

  /** Index of the first slot with this pid in this status, or the length. */
  function FindStatus(t: Table, pid: int, st: Status): (i: nat)
    ensures i <= |t|
    ensures i < |t| ==> t[i].pid == pid && t[i].status == st
    ensures forall k :: 0 <= k < i ==> !(t[k].pid == pid && t[k].status == st)
  {
    if t == [] then 0
    else if t[0].pid == pid && t[0].status == st then 0
    else
      var i := FindStatus(t[1..], pid, st);
      assert forall k :: 0 < k < |t| ==> t[k] == t[1..][k - 1];
      1 + i
  }

  predicate InUse(t: Table, pid: int) {
    FindPid(t, pid) < |t|
  }

  /** A cleared slot; the abort request in it is not forgotten. */
  function Freed(s: Slot): Slot {
    Slot(NO_PID, NO_PID, Restored, s.abort, NO_SOCKET)
  }

  function InitPid(t: Table, pid: int): (t': Table)
    ensures |t'| == |t|
  {
    var i := FindPid(t, NO_PID);
    if i < |t| then t[i := Slot(pid, NO_PID, Restored, t[i].abort, NO_SOCKET)] else t
  }

  function SetCheckpointing(t: Table, pid: int, sd: int): (t': Table)
    ensures |t'| == |t|
  {
    var i := FindStatus(t, pid, Restored);
    if i < |t| then t[i := t[i].(status := Checkpointing, sd := sd)] else t
  }

  function SetCheckpointed(t: Table, pid: int, worker: int): (t': Table)
    ensures |t'| == |t|
  {
    var i := FindStatus(t, pid, Checkpointing);
    if i < |t| then t[i := t[i].(status := Checkpointed, sd := NO_SOCKET, worker := worker)] else t
  }

  function ClearPid(t: Table, pid: int): (t': Table)
    ensures |t'| == |t|
    ensures forall i :: 0 <= i < |t| ==> t'[i] == if t[i].pid == pid then Freed(t[i]) else t[i]
  {
    seq(|t|, i requires 0 <= i < |t| => if t[i].pid == pid then Freed(t[i]) else t[i])
  }

  function ClearWorker(t: Table, worker: int): (t': Table)
    ensures |t'| == |t|
    ensures forall i :: 0 <= i < |t| ==> t'[i] == if t[i].worker == worker then Freed(t[i]) else t[i]
  {
    seq(|t|, i requires 0 <= i < |t| => if t[i].worker == worker then Freed(t[i]) else t[i])
  }

  /** The switch of try_to_abort_checkpoint: a checkpoint not yet started is only marked. */
  function Abort(t: Table, i: nat): (t': Table)
    requires i < |t|
    ensures |t'| == |t|
  {
    if t[i].status == Restored then t[i := t[i].(abort := true)] else t
  }

  function WorkerOf(t: Table, pid: int): int {
    if InUse(t, pid) then t[FindPid(t, pid)].worker else NO_PID
  }

  // ---- the operations as loops over the table ----------------------------------------------------

  class ServiceData {
    const slots: array<Slot>

    constructor ()
      ensures slots.Length == LIMIT && fresh(slots)
      ensures slots[..] == Empty()
    {
      slots := new Slot[LIMIT](i => Slot(NO_PID, NO_PID, Restored, false, 0));
    }

    /** init_pid_checkpoint_data: nothing happens when the table is full. */
    method InitPidCheckpointData(pid: int)
      modifies slots
      ensures slots[..] == InitPid(old(slots[..]), pid)
    {
      for i := 0 to slots.Length
        invariant slots[..] == old(slots[..])
        invariant forall k :: 0 <= k < i ==> slots[k].pid != NO_PID
      {
        if slots[i].pid == NO_PID {
          FoundPid(slots[..], NO_PID, i);
          slots[i] := Slot(pid, NO_PID, Restored, slots[i].abort, NO_SOCKET);
          return;
        }
      }
    }

    /** set_pid_checkpointing: says whether an abort was pending and is now sent on cmdSd. */
    method SetPidCheckpointing(pid: int, cmdSd: int) returns (abort: bool)
      modifies slots
      ensures slots[..] == SetCheckpointing(old(slots[..]), pid, cmdSd)
      ensures abort <==> var i := FindStatus(old(slots[..]), pid, Restored);
                         i < slots.Length && old(slots[..])[i].abort
    {
      for i := 0 to slots.Length
        invariant slots[..] == old(slots[..])
        invariant forall k :: 0 <= k < i ==> !(slots[k].pid == pid && slots[k].status == Restored)
      {
        if slots[i].pid == pid && slots[i].status == Restored {
          FoundStatus(slots[..], pid, Restored, i);
          abort := slots[i].abort;
          slots[i] := slots[i].(status := Checkpointing, sd := cmdSd);
          return;
        }
      }
      abort := false;
    }

    /** set_pid_checkpointed. */
    method SetPidCheckpointed(pid: int, worker: int)
      modifies slots
      ensures slots[..] == SetCheckpointed(old(slots[..]), pid, worker)
    {
      for i := 0 to slots.Length
        invariant slots[..] == old(slots[..])
        invariant forall k :: 0 <= k < i ==> !(slots[k].pid == pid && slots[k].status == Checkpointing)
      {
        if slots[i].pid == pid && slots[i].status == Checkpointing {
          FoundStatus(slots[..], pid, Checkpointing, i);
          slots[i] := slots[i].(status := Checkpointed, sd := NO_SOCKET, worker := worker);
          return;
        }
      }
    }

    /** clear_pid_checkpoint_data. */
    method ClearPidCheckpointData(pid: int)
      modifies slots
      ensures slots[..] == ClearPid(old(slots[..]), pid)
    {
      for i := 0 to slots.Length
        invariant forall k :: 0 <= k < i ==> slots[k] == ClearPid(old(slots[..]), pid)[k]
        invariant forall k :: i <= k < slots.Length ==> slots[k] == old(slots[k])
      {
        if slots[i].pid == pid {
          slots[i] := Freed(slots[i]);
        }
      }
    }

    /** clear_pid_on_worker_exit_non_blocking. */
    method ClearPidOnWorkerExit(worker: int)
      modifies slots
      ensures slots[..] == ClearWorker(old(slots[..]), worker)
    {
      for i := 0 to slots.Length
        invariant forall k :: 0 <= k < i ==> slots[k] == ClearWorker(old(slots[..]), worker)[k]
        invariant forall k :: i <= k < slots.Length ==> slots[k] == old(slots[k])
      {
        if slots[i].worker == worker {
          slots[i] := Freed(slots[i]);
        }
      }
    }

    /** get_pid_worker. */
    method GetPidWorker(pid: int) returns (worker: int)
      ensures worker == WorkerOf(slots[..], pid)
    {
      for i := 0 to slots.Length
        invariant forall k :: 0 <= k < i ==> slots[k].pid != pid
      {
        if slots[i].pid == pid {
          FoundPid(slots[..], pid, i);
          return slots[i].worker;
        }
      }
      worker := NO_PID;
    }

    /** try_to_abort_checkpoint: the socket that is sent the abort, if any; a missing pid leaves the lock held. */
    method TryToAbortCheckpoint(pid: int) returns (unlocked: bool, sd: int)
      modifies slots
      ensures unlocked <==> InUse(old(slots[..]), pid)
      ensures var i := FindPid(old(slots[..]), pid);
              && slots[..] == (if unlocked then Abort(old(slots[..]), i) else old(slots[..]))
              && sd == (if unlocked && slots[i].status == Checkpointing then slots[i].sd else NO_SOCKET)
    {
      sd := NO_SOCKET;
      for i := 0 to slots.Length
        invariant slots[..] == old(slots[..])
        invariant forall k :: 0 <= k < i ==> slots[k].pid != pid
        invariant sd == NO_SOCKET
      {
        if slots[i].pid == pid {
          FoundPid(slots[..], pid, i);
          match slots[i].status {
            case Restored => slots[i] := slots[i].(abort := true);
            case Checkpointing => sd := slots[i].sd;
            case Checkpointed =>
          }
          return true, sd;
        }
      }
      unlocked := false;
    }

    /** can_restore_pid, and the negation of can_checkpoint_pid. */
    method PidInUse(pid: int) returns (used: bool)
      ensures used <==> exists i :: 0 <= i < slots.Length && slots[i].pid == pid
    {
      for i := 0 to slots.Length
        invariant forall k :: 0 <= k < i ==> slots[k].pid != pid
      {
        if slots[i].pid == pid {
          return true;
        }
      }
      used := false;
    }
  }

  lemma FoundPid(t: Table, pid: int, i: nat)
    requires i < |t| && t[i].pid == pid && forall k :: 0 <= k < i ==> t[k].pid != pid
    ensures FindPid(t, pid) == i
  {
  }

  lemma FoundStatus(t: Table, pid: int, st: Status, i: nat)
    requires i < |t| && t[i].pid == pid && t[i].status == st
    requires forall k :: 0 <= k < i ==> !(t[k].pid == pid && t[k].status == st)
    ensures FindStatus(t, pid, st) == i
  {
  }

  // ---- what the operations keep ------------------------------------------------------------------

  /** An unused slot has no worker; a used one has a worker iff checkpointed and an abort socket iff checkpointing. */
  predicate SlotOk(s: Slot) {
    if s.pid == NO_PID then s.worker == NO_PID && s.status == Restored
    else
      && (s.worker != NO_PID <==> s.status == Checkpointed)
      && (s.sd != NO_SOCKET <==> s.status == Checkpointing)
  }

  predicate TableOk(t: Table) {
    && (forall i :: 0 <= i < |t| ==> SlotOk(t[i]))
    && (forall i, k :: 0 <= i < k < |t| && t[i].pid == t[k].pid ==> t[i].pid == NO_PID)
  }

  lemma InitKeeps(t: Table, pid: int)
    requires TableOk(t) && !InUse(t, pid) && pid != NO_PID
    ensures TableOk(InitPid(t, pid))
  {
  }

  lemma CheckpointingKeeps(t: Table, pid: int, sd: int)
    requires TableOk(t) && pid != NO_PID && sd != NO_SOCKET
    ensures TableOk(SetCheckpointing(t, pid, sd))
  {
  }

  lemma CheckpointedKeeps(t: Table, pid: int, worker: int)
    requires TableOk(t) && pid != NO_PID && worker != NO_PID
    ensures TableOk(SetCheckpointed(t, pid, worker))
  {
  }

  lemma ClearPidKeeps(t: Table, pid: int)
    requires TableOk(t)
    ensures TableOk(ClearPid(t, pid))
  {
  }

  lemma ClearWorkerKeeps(t: Table, worker: int)
    requires TableOk(t) && worker != NO_PID
    ensures TableOk(ClearWorker(t, worker))
  {
  }
}
