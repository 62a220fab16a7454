/** service_cmds_ctx: the ring of client requests between the accept thread and the command thread. */
module CommandQueue {

  datatype Kind = Checkpoint | Restore | Unknown

  /** struct service_command_ctx: the command, the target pid, and the client's connection. */
  datatype Request = Request(kind: Kind, pid: int, cd: nat)

  /** MAX_CLIENT_CONNECTIONS. */
  const CAPACITY: nat := 8

  /** One return of pthread_cond_wait: its result, and what happened to the queue meanwhile. */
  datatype Wakeup = Wakeup(ret: int, arrived: seq<Request>, stop: bool)

  predicate AllFit(wakeups: seq<Wakeup>) {
    forall w :: w in wakeups ==> |w.arrived| <= CAPACITY
  }

  /** What the waiting loop looks at. */
  datatype Wait = Wait(contents: seq<Request>, interrupt: bool, ret: int)

  predicate Waits(w: Wait) {
    w.contents == [] && !w.interrupt && w.ret == 0
  }

  /** Where the loop stands after these wakeups; those it does not wait for are not its own. */
  function Woken(w: Wait, wakeups: seq<Wakeup>): Wait
    decreases wakeups
  {
    if !Waits(w) || wakeups == [] then w
    else Woken(Wait(wakeups[0].arrived, wakeups[0].stop, wakeups[0].ret), wakeups[1..])
  }

  lemma WokenNone(w: Wait)
    ensures Woken(w, []) == w
  {
  }

  lemma {:induction false} WokenOnce(w: Wait, wakeups: seq<Wakeup>, i: nat)
    requires i < |wakeups| && Waits(Woken(w, wakeups[..i]))
    ensures Woken(w, wakeups[..i + 1]) == Wait(wakeups[i].arrived, wakeups[i].stop, wakeups[i].ret)
    decreases i
  {
    if i == 0 {
      assert wakeups[..1] == [wakeups[0]] && wakeups[..1][1..] == [];
    } else {
      var next := Wait(wakeups[0].arrived, wakeups[0].stop, wakeups[0].ret);
      assert wakeups[..i][0] == wakeups[0] && wakeups[..i][1..] == wakeups[1..][..i - 1];
      assert wakeups[..i + 1][0] == wakeups[0] && wakeups[..i + 1][1..] == wakeups[1..][..i];
      if Waits(w) {
        WokenOnce(next, wakeups[1..], i - 1);
      }
    }
  }

  lemma {:induction false} WokenFor(w: Wait, wakeups: seq<Wakeup>, i: nat)
    requires i <= |wakeups| && (i == |wakeups| || !Waits(Woken(w, wakeups[..i])))
    ensures Woken(w, wakeups) == Woken(w, wakeups[..i])
    decreases i
  {
    if i == |wakeups| {
      assert wakeups[..i] == wakeups;
    } else if i > 0 && Waits(w) {
      assert wakeups[..i][0] == wakeups[0] && wakeups[..i][1..] == wakeups[1..][..i - 1];
      WokenFor(Wait(wakeups[0].arrived, wakeups[0].stop, wakeups[0].ret), wakeups[1..], i - 1);
    } else {
      assert i == 0 ==> wakeups[..i] == [];
    }
  }

  class Queue {
    const svcCtxs: array<Request>
    var frontIdx: nat
    var backIdx: nat
    var size: nat
    var interrupt: bool

    ghost predicate Valid()
      reads this, svcCtxs
    {
      && svcCtxs.Length == CAPACITY
      && frontIdx < CAPACITY && backIdx < CAPACITY && size <= CAPACITY
      && backIdx == (if frontIdx + size < CAPACITY then frontIdx + size else frontIdx + size - CAPACITY)
    }

    /** The waiting requests, oldest first. */
    ghost function Contents(): (s: seq<Request>)
      requires Valid()
      reads this, svcCtxs
      ensures |s| == size
    {
      if frontIdx + size <= CAPACITY then svcCtxs[frontIdx..frontIdx + size]
      else svcCtxs[frontIdx..] + svcCtxs[..frontIdx + size - CAPACITY]
    }

    constructor ()
      ensures Valid() && Contents() == [] && !interrupt && fresh(svcCtxs)
    {
      svcCtxs := new Request[CAPACITY](i => Request(Unknown, 0, 0));
      frontIdx, backIdx, size, interrupt := 0, 0, 0, false;
    }

    /** service_cmds_push_back: refuses the ninth request, otherwise appends. */
    method PushBack(r: Request) returns (ret: int)
      requires Valid()
      modifies this`backIdx, this`size, svcCtxs
      ensures Valid()
      ensures ret == (if |old(Contents())| == CAPACITY then 1 else 0)
      ensures Contents() == if ret == 0 then old(Contents()) + [r] else old(Contents())
    {
      if size >= CAPACITY {
        return 1;
      }
      svcCtxs[backIdx] := r;
      backIdx := backIdx + 1;
      size := size + 1;
      if backIdx >= CAPACITY {
        backIdx := 0;
      }
      ret := 0;
    }

    /**
     * service_cmds_wait_and_pop_front: waits while there is nothing to do, through whatever wakeups come, and then
     * takes the oldest request unless the service is stopping or the wait failed. `asleep` when it still waits.
     */
    method WaitAndPopFront(wakeups: seq<Wakeup>) returns (ret: int, r: Request, asleep: bool)
      requires Valid() && AllFit(wakeups)
      modifies this, svcCtxs
      ensures Valid()
      ensures var w := Woken(Wait(old(Contents()), old(interrupt), 0), wakeups);
              && interrupt == w.interrupt
              && (asleep <==> Waits(w))
              && (!asleep ==> ret == (if w.interrupt then 1 else w.ret))
              && (if !asleep && ret == 0 then w.contents == [r] + Contents() else w.contents == Contents())
    {
      hide Woken;
      ret := 0;
      ghost var start := Wait(Contents(), interrupt, 0);
      WokenNone(start);
      var i := 0;
      while size == 0 && !interrupt && ret == 0 && i < |wakeups|
        invariant Valid() && i <= |wakeups|
        invariant Wait(Contents(), interrupt, ret) == Woken(start, wakeups[..i])
        decreases |wakeups| - i
      {
        WokenOnce(start, wakeups, i);
        ret := WakeUp(wakeups[i]);
        i := i + 1;
      }
      WokenFor(start, wakeups, i);
      r := svcCtxs[frontIdx];
      asleep := size == 0 && !interrupt && ret == 0;
      if asleep {
        return;
      }
      if ret == 0 && size > 0 && !interrupt {
        r := Take();
      } else if interrupt {
        ret := 1;
      }
    }

    /** While this thread sleeps the lock is free: others push and may stop the service. */
    method WakeUp(w: Wakeup) returns (ret: int)
      requires Valid() && size == 0 && |w.arrived| <= CAPACITY
      modifies this, svcCtxs
      ensures Valid() && Contents() == w.arrived && interrupt == (old(interrupt) || w.stop) && ret == w.ret
    {
      for i := 0 to |w.arrived|
        invariant Valid() && Contents() == w.arrived[..i] && interrupt == old(interrupt)
      {
        var full := PushBack(w.arrived[i]);
      }
      assert w.arrived[..|w.arrived|] == w.arrived;
      if w.stop {
        Interrupt();
      }
      ret := w.ret;
    }

    /** The oldest request leaves the ring. */
    method Take() returns (r: Request)
      requires Valid() && size > 0
      modifies this`frontIdx, this`size
      ensures Valid() && old(Contents()) == [r] + Contents()
    {
      r := svcCtxs[frontIdx];
      ghost var was := Contents();
      frontIdx := frontIdx + 1;
      size := size - 1;
      if frontIdx >= CAPACITY {
        frontIdx := 0;
      }
      assert was[1..] == Contents();
    }

    /** service_cmds_interrupt. */
    method Interrupt()
      requires Valid()
      modifies this`interrupt
      ensures Valid() && interrupt && Contents() == old(Contents())
    {
      interrupt := true;
    }
  }
}
