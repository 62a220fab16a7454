/**
 * Running system calls inside the seized target: execute_blob with its retry loop, ctx_save and ctx_restore,
 * signals_block and signals_unblock. ptrace and the kernel are abstract; a blob is one system call and a trap.
 */
module Injection {
  import opened Bytes
  import opened TargetMemory

  /** sizeof(unsigned long), sizeof(ctx.stack) and the two words execute_blob saves. */
  const WORD: nat := 8
  const SAVED_STACK: nat := 128
  const SCRATCH: nat := 16

  datatype Regs = Regs(pc: nat, sp: nat, arg0: nat, arg1: nat, ret: int, other: seq<int>)

  /** A signal mask as the kernel stores it: one bit a signal, eight bytes. */
  type Mask = m: seq<Byte> | |m| == 8 witness [0, 0, 0, 0, 0, 0, 0, 0]

  const ONES: Mask := [255, 255, 255, 255, 255, 255, 255, 255]
  const ZEROS: Mask := [0, 0, 0, 0, 0, 0, 0, 0]

  /** The kernel never blocks SIGKILL (bit 8) and SIGSTOP (bit 18). */
  function Kept(m: Mask): Mask {
    m[1 := m[1] / 2 * 2][2 := if m[2] / 4 % 2 == 1 then m[2] - 4 else m[2]]
  }

  /**
   * The thread under ptrace, and how many threads its process has; `lost` when it died in a way that makes an
   * assertion of memcr fail.
   */
  datatype Image = Image(regs: Regs, mem: Mem, mask: Mask, alive: bool, lost: bool, threads: int)

  /**
   * What a signal does to the target: nothing it does not come back from; its death, which the wait after the delivery
   * reports; or, by SIGKILL at any moment, a death that memcr finds where it asserts a stopped target.
   */
  datatype Fate = Handled | Fatal | Sudden

  /**
   * A signal that is let through while execute_blob retries. Unless it kills the target, the kernel has built a
   * handler frame, moved the registers to the handler, and perhaps blocked further signals.
   */
  datatype Signal = Signal(fate: Fate, regs: Regs, frame: map<nat, Byte>, mask: Option<Mask>)

  /** A stop of the running blob by signals; `late` when its system call was already done, with this answer. */
  datatype Stop = Stop(late: bool, answer: int, signals: seq<Signal>)

  /**
   * What happens during one execute_blob: the stops, then the run that reaches the trap, unless SIGKILL hits that run.
   * The wait for the trap then reports no stop, or reports the exit event, which is taken for the trap.
   */
  datatype Schedule = Schedule(stops: seq<Stop>, answer: int, killed: bool)

  datatype Call = SetMask | Map | Clone | Unmap

  datatype Blob = Blob(code: seq<Byte>, call: Call)

  /** struct target_context. */
  datatype Context = Context(pc: nat, sp: nat, code: seq<Byte>, stack: seq<Byte>, sigset: Mask)

  // ---- the kernel --------------------------------------------------------------------------------

  function Overlay(m: Mem, frame: map<nat, Byte>): (m': Mem)
    ensures m'.Keys == m.Keys
  {
    map x | x in m :: if x in frame then frame[x] else m[x]
  }

  function Addresses(r: Region): (s: set<nat>)
    ensures forall x: nat :: x in s <==> Covers(r, x)
  {
    set x: nat | r.addr <= x < r.addr + r.len && Covers(r, x)
  }

  function AddArea(m: Mem, r: Region): (m': Mem)
    ensures m'.Keys == m.Keys + Addresses(r)
    ensures forall x :: x in m ==> m'[x] == m[x]
  {
    (map x | x in Addresses(r) :: 0 as Byte) + m
  }

  function DropArea(m: Mem, r: Region): (m': Mem)
    ensures m'.Keys == m.Keys - Addresses(r)
  {
    map x | x in m && !Covers(r, x) :: m[x]
  }

  /** The system call of a blob; a negative answer of mmap and a nonzero one of munmap are errors. */
  function Kernel(call: Call, answer: int, s: Image): Image {
    var a0, a1 := s.regs.arg0, s.regs.arg1;
    match call
    case SetMask =>
      s.(mem := Store(s.mem, a0, s.mask), mask := Kept(Slice(s.mem, Region(a0, 8))), regs := s.regs.(ret := 0))
    case Map =>
      s.(mem := if answer < 0 then s.mem else AddArea(s.mem, Region(answer, a0)), regs := s.regs.(ret := answer))
    case Clone =>
      s.(threads := if answer > 0 then s.threads + 1 else s.threads, regs := s.regs.(ret := answer))
    case Unmap =>
      s.(mem := if answer != 0 then s.mem else DropArea(s.mem, Region(a0, a1)), regs := s.regs.(ret := answer))
  }

  /** The signal is let through with the saved registers in place. */
  function Deliver(saved: Regs, s: Image, g: Signal): Image {
    match g.fate
    case Fatal => s.(regs := saved, alive := false)
    case Sudden => s.(regs := saved, alive := false, lost := true)
    case Handled =>
      s.(regs := g.regs, mem := Overlay(s.mem, g.frame), mask := if g.mask.Some? then g.mask.value else s.mask)
  }

  function DeliverAll(saved: Regs, s: Image, gs: seq<Signal>): Image
    decreases gs
  {
    if gs == [] || !s.alive then s else DeliverAll(saved, Deliver(saved, s, gs[0]), gs[1..])
  }

  // ---- execute_blob ------------------------------------------------------------------------------

  /** What execute_blob keeps at hand while it retries. */
  datatype Shot = Shot(saved: Regs, c: Context, call: Call, a0: nat, a1: nat, stack: seq<Byte>)

  /** set_cpu_regs: the saved registers, pointed at the blob and its arguments. */
  function Arm(h: Shot, s: Image): Image {
    s.(regs := h.saved.(pc := h.c.pc, arg0 := h.a0, arg1 := h.a1))
  }

  /** One pass of the retry loop that is stopped: the signals are delivered, then the two stack words are put back. */
  function Retry(h: Shot, s: Image, p: Stop): Image {
    var t := DeliverAll(h.saved, if p.late then Kernel(h.call, p.answer, Arm(h, s)) else Arm(h, s), p.signals);
    if t.alive then t.(mem := Store(t.mem, h.c.sp, h.stack)) else t
  }

  function Retries(h: Shot, s: Image, stops: seq<Stop>): Image
    decreases stops
  {
    if stops == [] || !s.alive then s else Retries(h, Retry(h, s, stops[0]), stops[1..])
  }

  function ShotAt(s: Image, c: Context, b: Blob, a0: nat, a1: nat): Shot {
    Shot(s.regs, c, b.call, a0, a1, Slice(Store(s.mem, c.pc, b.code), Region(c.sp, SCRATCH)))
  }

  /** The target when the blob is started for the run that reaches the trap. */
  function BeforeTrap(s: Image, c: Context, b: Blob, a0: nat, a1: nat, sch: Schedule): Image {
    Retries(ShotAt(s, c, b, a0, a1), s.(mem := Store(s.mem, c.pc, b.code)), sch.stops)
  }

  /** The last run: the system call and the trap, after which the registers are put back, or SIGKILL. */
  function Trapped(h: Shot, u: Image, sch: Schedule): Image {
    if sch.killed then u.(alive := false, lost := true)
    else Kernel(h.call, sch.answer, Arm(h, u)).(regs := h.saved)
  }

  /** The target after execute_blob: the registers are put back, whatever the signals did to them. */
  function AfterBlob(s: Image, c: Context, b: Blob, a0: nat, a1: nat, sch: Schedule): Image {
    var u := BeforeTrap(s, c, b, a0, a1, sch);
    if u.alive then Trapped(ShotAt(s, c, b, a0, a1), u, sch) else u
  }

  lemma TrappedAlive(h: Shot, u: Image, sch: Schedule)
    requires u.alive
    ensures Trapped(h, u, sch).alive <==> !sch.killed
  {
  }

  lemma RetriesNone(h: Shot, s: Image)
    ensures Retries(h, s, []) == s
  {
  }

  /** What ctx_save records. */
  function Saved(s: Image, codeSize: nat, pageSize: nat): Context
    requires pageSize > 0 && s.regs.sp >= SAVED_STACK
  {
    var pc, sp := s.regs.pc / pageSize * pageSize, s.regs.sp - SAVED_STACK;
    Context(pc, sp, Slice(s.mem, Region(pc, codeSize)), Slice(s.mem, Region(sp, SAVED_STACK)), ZEROS)
  }

  /** A new mask is put on the stack and the mask blob run over it. */
  function AfterMask(s: Image, c: Context, b: Blob, m: Mask, sch: Schedule): Image {
    AfterBlob(s.(mem := Store(s.mem, c.sp, m)), c, b, c.sp, 0, sch)
  }

  function RestoredCtx(s: Image, c: Context): Image {
    s.(mem := Store(Store(s.mem, c.pc, c.code), c.sp, c.stack))
  }

  lemma {:induction false} RetriesSplit(h: Shot, s: Image, stops: seq<Stop>, k: nat)
    requires k < |stops| && Retries(h, s, stops[..k]).alive
    ensures Retries(h, s, stops[..k + 1]) == Retry(h, Retries(h, s, stops[..k]), stops[k])
    decreases k
  {
    if k > 0 {
      assert stops[..k][0] == stops[0] && stops[..k][1..] == stops[1..][..k - 1];
      assert stops[..k + 1][1..] == stops[1..][..k];
      RetriesSplit(h, Retry(h, s, stops[0]), stops[1..], k - 1);
    } else {
      assert stops[..1] == [stops[0]] && stops[..1][1..] == [];
    }
  }

  lemma {:induction false} RetriesDead(h: Shot, s: Image, stops: seq<Stop>, k: nat)
    requires k <= |stops| && !Retries(h, s, stops[..k]).alive
    ensures Retries(h, s, stops) == Retries(h, s, stops[..k])
    decreases k
  {
    if k > 0 && s.alive {
      assert stops[..k][0] == stops[0] && stops[..k][1..] == stops[1..][..k - 1];
      RetriesDead(h, Retry(h, s, stops[0]), stops[1..], k - 1);
    } else {
      assert k == 0 ==> stops[..k] == [];
    }
  }

  lemma {:induction false} DeliverSplit(saved: Regs, s: Image, gs: seq<Signal>, k: nat)
    requires k < |gs| && DeliverAll(saved, s, gs[..k]).alive
    ensures DeliverAll(saved, s, gs[..k + 1]) == Deliver(saved, DeliverAll(saved, s, gs[..k]), gs[k])
    decreases k
  {
    if k > 0 {
      assert gs[..k][0] == gs[0] && gs[..k][1..] == gs[1..][..k - 1];
      assert gs[..k + 1][1..] == gs[1..][..k];
      DeliverSplit(saved, Deliver(saved, s, gs[0]), gs[1..], k - 1);
    } else {
      assert gs[..1] == [gs[0]] && gs[..1][1..] == [];
    }
  }

  lemma {:induction false} DeliverDead(saved: Regs, s: Image, gs: seq<Signal>, k: nat)
    requires k <= |gs| && !DeliverAll(saved, s, gs[..k]).alive
    ensures DeliverAll(saved, s, gs) == DeliverAll(saved, s, gs[..k])
    decreases k
  {
    if k > 0 && s.alive {
      assert gs[..k][0] == gs[0] && gs[..k][1..] == gs[1..][..k - 1];
      DeliverDead(saved, Deliver(saved, s, gs[0]), gs[1..], k - 1);
    } else {
      assert k == 0 ==> gs[..k] == [];
    }
  }

  lemma StoreAppend(m: Mem, a: nat, x: seq<Byte>, y: seq<Byte>)
    ensures Store(Store(m, a, x), a + |x|, y) == Store(m, a, x + y)
  {
  }

  /** The seized thread, driven by ptrace requests. */
  class Tracee {
    var regs: Regs
    var mem: Mem
    var mask: Mask
    var alive: bool
    var lost: bool
    var threads: int

    function Now(): Image
      reads this
    {
      Image(regs, mem, mask, alive, lost, threads)
    }

    constructor (s: Image)
      ensures Now() == s
    {
      regs, mem, mask, alive, lost, threads := s.regs, s.mem, s.mask, s.alive, s.lost, s.threads;
    }

    method Become(s: Image)
      modifies this
      ensures Now() == s
    {
      regs, mem, mask, alive, lost, threads := s.regs, s.mem, s.mask, s.alive, s.lost, s.threads;
    }

    /** poke: one POKEDATA a word. */
    method Poke(addr: nat, data: seq<Byte>)
      requires |data| % WORD == 0
      modifies this`mem
      ensures mem == Store(old(mem), addr, data)
    {
      var i := 0;
      assert Store(mem, addr, []) == mem;
      while i < |data| / WORD
        invariant i <= |data| / WORD
        invariant mem == Store(old(mem), addr, data[..i * WORD])
      {
        var word := data[i * WORD..i * WORD + WORD];
        StoreAppend(old(mem), addr, data[..i * WORD], word);
        assert data[..i * WORD] + word == data[..(i + 1) * WORD];
        mem := Store(mem, addr + i * WORD, word);
        i := i + 1;
      }
      assert data[..i * WORD] == data;
    }

    /** peek: one PEEKDATA a word. */
    method Peek(addr: nat, len: nat) returns (data: seq<Byte>)
      requires len % WORD == 0
      ensures data == Slice(mem, Region(addr, len))
    {
      data := [];
      var i := 0;
      while i < len / WORD
        invariant i <= len / WORD
        invariant data == Slice(mem, Region(addr, i * WORD))
      {
        data := data + Slice(mem, Region(addr + i * WORD, WORD));
        i := i + 1;
      }
    }

    /** The retry_signal loop: registers as saved, let the signal through, until the job control trap. */
    method DeliverSignals(saved: Regs, gs: seq<Signal>)
      modifies this
      ensures Now() == DeliverAll(saved, old(Now()), gs)
    {
      var i := 0;
      while i < |gs| && alive
        invariant i <= |gs| && Now() == DeliverAll(saved, old(Now()), gs[..i])
      {
        DeliverSplit(saved, old(Now()), gs, i);
        regs := saved;
        Become(Deliver(saved, Now(), gs[i]));
        i := i + 1;
      }
      if i == |gs| {
        assert gs[..i] == gs;
      } else {
        DeliverDead(saved, old(Now()), gs, i);
      }
    }

    /** A pass of the retry loop that is stopped. */
    method StoppedPass(h: Shot, p: Stop)
      requires |h.stack| % WORD == 0
      modifies this
      ensures Now() == Retry(h, old(Now()), p)
    {
      regs := h.saved.(pc := h.c.pc, arg0 := h.a0, arg1 := h.a1);
      if p.late {
        Become(Kernel(h.call, p.answer, Now()));
      }
      DeliverSignals(h.saved, p.signals);
      if alive {
        Poke(h.c.sp, h.stack);
      }
    }

    /** The pass that reaches the trap, unless SIGKILL hits it. */
    method LastPass(h: Shot, sch: Schedule) returns (ret: int)
      modifies this
      ensures Now() == Trapped(h, old(Now()), sch)
      ensures ret == if sch.killed then -1 else if h.call == SetMask then 0 else sch.answer
    {
      if sch.killed {
        alive, lost := false, true;
        return -1;
      }
      regs := h.saved.(pc := h.c.pc, arg0 := h.a0, arg1 := h.a1);
      Become(Kernel(h.call, sch.answer, Now()));
      ret := regs.ret;
      regs := h.saved;
    }

    /** execute_blob. */
    method ExecuteBlob(c: Context, b: Blob, a0: nat, a1: nat, sch: Schedule) returns (ret: int)
      requires |b.code| % WORD == 0 && alive
      modifies this
      ensures Now() == AfterBlob(old(Now()), c, b, a0, a1, sch)
      ensures ret == if !alive then -1 else if b.call == SetMask then 0 else sch.answer
    {
      hide Retry, Retries, Kernel, Store, Slice;
      Poke(c.pc, b.code);
      var stack := Peek(c.sp, SCRATCH);
      var h := Shot(regs, c, b.call, a0, a1, stack);
      ghost var s := Now();
      RetriesNone(h, s);
      var k := 0;
      while k < |sch.stops|
        invariant k <= |sch.stops| && alive && Now() == Retries(h, s, sch.stops[..k])
      {
        RetriesSplit(h, s, sch.stops, k);
        StoppedPass(h, sch.stops[k]);
        if !alive {
          RetriesDead(h, s, sch.stops, k + 1);
          return -1;
        }
        k := k + 1;
      }
      assert sch.stops[..k] == sch.stops;
      TrappedAlive(h, Now(), sch);
      ret := LastPass(h, sch);
    }

    /** ctx_save. */
    method CtxSave(codeSize: nat, pageSize: nat) returns (c: Context)
      requires codeSize % WORD == 0 && pageSize > 0 && regs.sp >= SAVED_STACK
      ensures c == Saved(Now(), codeSize, pageSize)
    {
      var pc := regs.pc / pageSize * pageSize;
      var code := Peek(pc, codeSize);
      var sp := regs.sp - SAVED_STACK;
      var stack := Peek(sp, SAVED_STACK);
      c := Context(pc, sp, code, stack, ZEROS);
    }

    /** signals_block: all ones go to the stack, the call swaps them with the old mask, which is fetched back. */
    method SignalsBlock(c: Context, b: Blob, sch: Schedule) returns (c': Context)
      requires |b.code| % WORD == 0 && b.call == SetMask && alive
      modifies this
      ensures Now() == AfterMask(old(Now()), c, b, ONES, sch)
      ensures c' == c.(sigset := Slice(mem, Region(c.sp, 8)))
    {
      Poke(c.sp, ONES);
      var ret := ExecuteBlob(c, b, c.sp, 0, sch);
      var old' := Peek(c.sp, 8);
      c' := c.(sigset := old');
    }

    /** signals_unblock. */
    method SignalsUnblock(c: Context, b: Blob, sch: Schedule) returns (ret: int)
      requires |b.code| % WORD == 0 && b.call == SetMask && alive
      modifies this
      ensures Now() == AfterMask(old(Now()), c, b, c.sigset, sch)
      ensures ret == (if alive then 0 else -1)
    {
      Poke(c.sp, c.sigset);
      ret := ExecuteBlob(c, b, c.sp, 0, sch);
    }

    /** ctx_restore. */
    method CtxRestore(c: Context)
      requires |c.code| % WORD == 0 && |c.stack| % WORD == 0
      modifies this`mem
      ensures Now() == RestoredCtx(old(Now()), c)
    {
      Poke(c.pc, c.code);
      Poke(c.sp, c.stack);
    }
  }
}
