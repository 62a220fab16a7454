/** What injected system calls leave behind: nothing but dead stack, and the signal mask unless a stop came late. */
module InjectionUndone {
  import opened Bytes
  import opened TargetMemory
  import opened Injection

  // ---- memory ------------------------------------------------------------------------------------

  /** Handler frames are built inside z. */
  predicate FramesIn(gs: seq<Signal>, z: Region) {
    forall i, x :: 0 <= i < |gs| && x in gs[i].frame ==> Covers(z, x)
  }

  predicate StopsIn(stops: seq<Stop>, z: Region) {
    forall i :: 0 <= i < |stops| ==> FramesIn(stops[i].signals, z)
  }

  /**
   * m is m0 with some of the addresses e mapped as well, and with changes confined to the stack zone z and the code k.
   */
  predicate Around(m0: Mem, m: Mem, e: set<nat>, z: Region, k: Region) {
    && (forall x :: x in m0 ==> x in m)
    && (forall x :: x in m ==> x in m0 || x in e)
    && (forall x :: x in m0 && !Covers(z, x) && !Covers(k, x) ==> m[x] == m0[x])
  }

  predicate Inside(r: Region, z: Region) {
    z.addr <= r.addr && r.addr + r.len <= z.addr + z.len
  }

  predicate Fresh(m0: Mem, e: set<nat>) {
    m0.Keys !! e
  }

  lemma StoreAround(m0: Mem, m: Mem, e: set<nat>, z: Region, k: Region, addr: nat, data: seq<Byte>)
    requires Around(m0, m, e, z, k) && Fresh(m0, e)
    requires Inside(Region(addr, |data|), z) || Inside(Region(addr, |data|), k) || Addresses(Region(addr, |data|)) <= e
    ensures Around(m0, Store(m, addr, data), e, z, k)
  {
  }

  lemma {:induction false} DeliverAround(saved: Regs, s: Image, gs: seq<Signal>, m0: Mem, e: set<nat>, z: Region,
                                         k: Region)
    requires Around(m0, s.mem, e, z, k) && FramesIn(gs, z)
    ensures Around(m0, DeliverAll(saved, s, gs).mem, e, z, k)
    decreases gs
  {
    if gs != [] && s.alive {
      var t := Deliver(saved, s, gs[0]);
      assert Around(m0, t.mem, e, z, k);
      DeliverAround(saved, t, gs[1..], m0, e, z, k);
    }
  }

  /** A system call that the injector makes stays inside what it may change. */
  predicate Modest(call: Call, a0: nat, a1: nat, answer: int, e: set<nat>, z: Region) {
    match call
    case SetMask => Inside(Region(a0, 8), z)
    case Map => answer >= 0 ==> Addresses(Region(answer, a0)) <= e
    case Clone => true
    case Unmap => Addresses(Region(a0, a1)) <= e
  }

  lemma KernelAround(call: Call, answer: int, s: Image, m0: Mem, e: set<nat>, z: Region, k: Region)
    requires Around(m0, s.mem, e, z, k) && Fresh(m0, e) && Modest(call, s.regs.arg0, s.regs.arg1, answer, e, z)
    ensures Around(m0, Kernel(call, answer, s).mem, e, z, k)
  {
    match call
    case SetMask => StoreAround(m0, s.mem, e, z, k, s.regs.arg0, s.mask);
    case _ =>
  }

  /** The calls that late stops have let happen are modest too. */
  predicate ModestStops(call: Call, a0: nat, a1: nat, stops: seq<Stop>, e: set<nat>, z: Region) {
    && StopsIn(stops, z)
    && forall i :: 0 <= i < |stops| && stops[i].late ==> Modest(call, a0, a1, stops[i].answer, e, z)
  }

  lemma {:induction false} RetriesAround(h: Shot, s: Image, stops: seq<Stop>, m0: Mem, e: set<nat>, z: Region,
                                         k: Region)
    requires Around(m0, s.mem, e, z, k) && Fresh(m0, e) && ModestStops(h.call, h.a0, h.a1, stops, e, z)
    requires Inside(Region(h.c.sp, |h.stack|), z)
    ensures Around(m0, Retries(h, s, stops).mem, e, z, k)
    decreases stops
  {
    if stops != [] && s.alive {
      var p := stops[0];
      if p.late {
        KernelAround(h.call, p.answer, Arm(h, s), m0, e, z, k);
      }
      var u := if p.late then Kernel(h.call, p.answer, Arm(h, s)) else Arm(h, s);
      DeliverAround(h.saved, u, p.signals, m0, e, z, k);
      StoreAround(m0, DeliverAll(h.saved, u, p.signals).mem, e, z, k, h.c.sp, h.stack);
      RetriesAround(h, Retry(h, s, p), stops[1..], m0, e, z, k);
    }
  }

  /** The blob fits where the code was saved, and its call and its stops stay inside what they may change. */
  predicate ModestBlob(c: Context, b: Blob, a0: nat, a1: nat, sch: Schedule, e: set<nat>, z: Region, k: Region) {
    && k == Region(c.pc, k.len) && |b.code| <= k.len
    && Inside(Region(c.sp, SCRATCH), z) && Apart(z, k)
    && ModestStops(b.call, a0, a1, sch.stops, e, z)
    && Modest(b.call, a0, a1, sch.answer, e, z)
  }

  lemma BlobAround(s: Image, c: Context, b: Blob, a0: nat, a1: nat, sch: Schedule, m0: Mem, e: set<nat>, z: Region,
                   k: Region)
    requires Around(m0, s.mem, e, z, k) && Fresh(m0, e) && ModestBlob(c, b, a0, a1, sch, e, z, k)
    ensures Around(m0, AfterBlob(s, c, b, a0, a1, sch).mem, e, z, k)
  {
    var h, t := ShotAt(s, c, b, a0, a1), s.(mem := Store(s.mem, c.pc, b.code));
    StoreAround(m0, s.mem, e, z, k, c.pc, b.code);
    RetriesAround(h, t, sch.stops, m0, e, z, k);
    var u := BeforeTrap(s, c, b, a0, a1, sch);
    KernelAround(b.call, sch.answer, Arm(h, u), m0, e, z, k);
  }

  /** Whatever signals came, the run that reaches the trap executes the blob: its code is where it was put. */
  lemma BlobIsRun(s: Image, c: Context, b: Blob, a0: nat, a1: nat, sch: Schedule, e: set<nat>, z: Region, k: Region)
    requires ModestBlob(c, b, a0, a1, sch, e, z, k) && Fresh(s.mem, e)
    requires forall x: nat :: Covers(k, x) ==> x in s.mem
    ensures Slice(BeforeTrap(s, c, b, a0, a1, sch).mem, Region(c.pc, |b.code|)) == b.code
  {
    var h, t := ShotAt(s, c, b, a0, a1), s.(mem := Store(s.mem, c.pc, b.code));
    hide Retries, ModestStops;
    var none := Region(c.pc, 0);
    assert Around(t.mem, t.mem, e, z, none);
    RetriesAround(h, t, sch.stops, t.mem, e, z, none);
    var u := Retries(h, t, sch.stops);
    forall i | 0 <= i < |b.code| ensures At(u.mem, c.pc + i) == b.code[i] {
      var x := c.pc + i;
      assert Covers(k, x) && x in t.mem && !Covers(z, x) && !Covers(none, x);
    }
  }

  // ---- the signal mask ---------------------------------------------------------------------------

  function MaskAfter(m: Mask, gs: seq<Signal>): Mask
    decreases gs
  {
    if gs == [] then m else MaskAfter(if gs[0].mask.Some? then gs[0].mask.value else m, gs[1..])
  }

  /** The mask when the last run of a blob that sets it to w starts. */
  function MaskBefore(m: Mask, stops: seq<Stop>, w: Mask): Mask
    decreases stops
  {
    if stops == [] then m
    else MaskBefore(MaskAfter(if stops[0].late then Kept(w) else m, stops[0].signals), stops[1..], w)
  }

  lemma {:induction false} DeliverMask(saved: Regs, s: Image, gs: seq<Signal>)
    requires DeliverAll(saved, s, gs).alive
    ensures DeliverAll(saved, s, gs).mask == MaskAfter(s.mask, gs)
    ensures DeliverAll(saved, s, gs).mem.Keys == s.mem.Keys && s.alive
    decreases gs
  {
    if gs != [] && s.alive {
      DeliverMask(saved, Deliver(saved, s, gs[0]), gs[1..]);
    }
  }

  /** The first word of the stack, which holds the mask to be set, is mapped and holds w. */
  predicate Holds(m: Mem, sp: nat, w: Mask) {
    && (forall x: nat :: sp <= x < sp + SCRATCH ==> x in m)
    && Slice(m, Region(sp, 8)) == w
  }

  lemma StoreHolds(m: Mem, sp: nat, stack: seq<Byte>, w: Mask)
    requires |stack| == SCRATCH && stack[..8] == w && forall x: nat :: sp <= x < sp + SCRATCH ==> x in m
    ensures Holds(Store(m, sp, stack), sp, w)
  {
    var m' := Store(m, sp, stack);
    forall i | 0 <= i < 8 ensures Slice(m', Region(sp, 8))[i] == w[i] {
      assert sp + i in m';
    }
  }

  lemma {:induction false} RetriesMask(h: Shot, s: Image, stops: seq<Stop>, w: Mask)
    requires h.call == SetMask && h.a0 == h.c.sp && |h.stack| == SCRATCH && h.stack[..8] == w
    requires Holds(s.mem, h.c.sp, w) && Retries(h, s, stops).alive
    ensures Retries(h, s, stops).mask == MaskBefore(s.mask, stops, w)
    ensures Holds(Retries(h, s, stops).mem, h.c.sp, w)
    decreases stops
  {
    if stops != [] && s.alive {
      var p := stops[0];
      var u := if p.late then Kernel(SetMask, p.answer, Arm(h, s)) else Arm(h, s);
      var t := DeliverAll(h.saved, u, p.signals);
      AliveBefore(h, Retry(h, s, p), stops[1..]);
      DeliverMask(h.saved, u, p.signals);
      StoreHolds(t.mem, h.c.sp, h.stack, w);
      RetriesMask(h, Retry(h, s, p), stops[1..], w);
    }
  }

  lemma AliveBefore(h: Shot, s: Image, stops: seq<Stop>)
    requires Retries(h, s, stops).alive
    ensures s.alive
  {
  }

  /** Injecting the code does not disturb the mask on the stack. */
  lemma CodeHolds(m: Mem, pc: nat, code: seq<Byte>, sp: nat, w: Mask)
    requires Apart(Region(pc, |code|), Region(sp, SCRATCH))
    requires forall x: nat :: sp <= x < sp + SCRATCH ==> x in m
    ensures Holds(Store(Store(m, sp, w), pc, code), sp, w)
  {
    var m' := Store(Store(m, sp, w), pc, code);
    forall i | 0 <= i < 8 ensures At(m', sp + i) == w[i] {
      assert sp + i in m && !Covers(Region(pc, |code|), sp + i);
    }
  }

  lemma SetMaskEffect(s: Image, answer: int, w: Mask)
    requires Holds(s.mem, s.regs.arg0, w)
    ensures Kernel(SetMask, answer, s).mask == Kept(w)
    ensures Slice(Kernel(SetMask, answer, s).mem, Region(s.regs.arg0, 8)) == s.mask
  {
    var v := Kernel(SetMask, answer, s);
    forall i | 0 <= i < 8 ensures At(v.mem, s.regs.arg0 + i) == s.mask[i] {
      assert s.regs.arg0 + i in s.mem;
    }
  }

  lemma SlicePrefix(m: Mem, sp: nat)
    ensures Slice(m, Region(sp, SCRATCH))[..8] == Slice(m, Region(sp, 8))
  {
  }

  /** The mask blob sets the mask it was given, and leaves on the stack the mask that its last run found. */
  lemma MaskIsSet(s: Image, c: Context, b: Blob, w: Mask, sch: Schedule)
    requires b.call == SetMask && AfterMask(s, c, b, w, sch).alive
    requires Apart(Region(c.pc, |b.code|), Region(c.sp, SCRATCH))
    requires forall x: nat :: c.sp <= x < c.sp + SCRATCH ==> x in s.mem
    ensures AfterMask(s, c, b, w, sch).mask == Kept(w)
    ensures Slice(AfterMask(s, c, b, w, sch).mem, Region(c.sp, 8)) == MaskBefore(s.mask, sch.stops, w)
  {
    var s1 := s.(mem := Store(s.mem, c.sp, w));
    var h, t := ShotAt(s1, c, b, c.sp, 0), s1.(mem := Store(s1.mem, c.pc, b.code));
    CodeHolds(s.mem, c.pc, b.code, c.sp, w);
    SlicePrefix(t.mem, c.sp);
    RetriesMask(h, t, sch.stops, w);
    SetMaskEffect(Arm(h, Retries(h, t, sch.stops)), sch.answer, w);
  }

  // ---- without mask changes by handlers ----------------------------------------------------------

  predicate Quiet(stops: seq<Stop>) {
    forall i, g :: 0 <= i < |stops| && g in stops[i].signals ==> g.mask.None?
  }

  predicate AnyLate(stops: seq<Stop>) {
    exists i :: 0 <= i < |stops| && stops[i].late
  }

  lemma {:induction false} QuietAfter(m: Mask, gs: seq<Signal>)
    requires forall g :: g in gs ==> g.mask.None?
    ensures MaskAfter(m, gs) == m
    decreases gs
  {
    if gs != [] {
      assert gs[0] in gs;
      QuietAfter(m, gs[1..]);
    }
  }

  lemma {:induction false} QuietBefore(m: Mask, stops: seq<Stop>, w: Mask)
    requires Quiet(stops)
    ensures MaskBefore(m, stops, w) == if AnyLate(stops) then Kept(w) else m
    decreases stops
  {
    if stops != [] {
      var m' := if stops[0].late then Kept(w) else m;
      QuietAfter(m', stops[0].signals);
      QuietBefore(m', stops[1..], w);
      assert AnyLate(stops) <==> stops[0].late || AnyLate(stops[1..]) by {
        if AnyLate(stops[1..]) {
          var i :| 0 <= i < |stops[1..]| && stops[1..][i].late;
          assert stops[i + 1].late;
        }
        if AnyLate(stops) && !stops[0].late {
          var i :| 0 <= i < |stops| && stops[i].late;
          assert stops[1..][i - 1].late;
        }
      }
    }
  }

  lemma KeptTwice(m: Mask)
    ensures Kept(Kept(m)) == Kept(m)
  {
    var x := m[2];
    assert x / 4 % 2 == 1 ==> (x - 4) / 4 % 2 == 0;
  }

  lemma KeptOnes()
    ensures Kept(ONES)[0] == 255
  {
  }

  lemma OnceAlive(s: Image, c: Context, b: Blob)
    requires b.call == SetMask && s.alive
    ensures AfterMask(s, c, b, ONES, Schedule([Stop(true, 0, [])], 0, false)).alive
  {
    var once := Schedule([Stop(true, 0, [])], 0, false);
    var s1 := s.(mem := Store(s.mem, c.sp, ONES));
    var h, t := ShotAt(s1, c, b, c.sp, 0), s1.(mem := Store(s1.mem, c.pc, b.code));
    assert Retry(h, t, once.stops[0]).alive;
    assert once.stops[1..] == [];
  }

  /** One stop between the call and the trap of the blocking blob is enough to lose an empty mask. */
  lemma LateStopLosesMask(s: Image, c: Context, b: Blob)
    requires b.call == SetMask && s.alive && s.mask == ZEROS
    requires Apart(Region(c.pc, |b.code|), Region(c.sp, SCRATCH))
    requires forall x: nat :: c.sp <= x < c.sp + SCRATCH ==> x in s.mem
    ensures var once := Schedule([Stop(true, 0, [])], 0, false);
            Slice(AfterMask(s, c, b, ONES, once).mem, Region(c.sp, 8)) == Kept(ONES) != s.mask
  {
    var once := Schedule([Stop(true, 0, [])], 0, false);
    OnceAlive(s, c, b);
    MaskIsSet(s, c, b, ONES, once);
    QuietBefore(s.mask, once.stops, ONES);
    assert once.stops[0].late;
    KeptOnes();
  }

  // ---- putting everything back -------------------------------------------------------------------

  /** ctx_restore gives the code and the saved stack back; only stack below the saved words can differ. */
  lemma RestoreAround(s0: Image, s: Image, codeSize: nat, pageSize: nat, lo: nat, e: set<nat>)
    requires pageSize > 0 && s0.regs.sp >= SAVED_STACK && lo <= s0.regs.sp - SAVED_STACK
    requires var c := Saved(s0, codeSize, pageSize);
             var z, k := Region(lo, s0.regs.sp - lo), Region(c.pc, codeSize);
             Apart(z, k) && Around(s0.mem, s.mem, e, z, k)
    ensures var c := Saved(s0, codeSize, pageSize);
            var t := RestoredCtx(s, c);
            && t.mem.Keys == s.mem.Keys
            && (forall x :: x in s0.mem ==> x in t.mem)
            && (forall x :: x in s0.mem && !(lo <= x < c.sp) ==> t.mem[x] == s0.mem[x])
            && t == s.(mem := t.mem)
  {
  }

  // ---- what stays mapped -------------------------------------------------------------------------

  /** The areas that late stops of the mmap blob have mapped. */
  function LateAreas(len: nat, stops: seq<Stop>): set<nat> {
    if stops == [] then {}
    else
      (if stops[0].late && stops[0].answer >= 0 then Addresses(Region(stops[0].answer, len)) else {})
      + LateAreas(len, stops[1..])
  }

  lemma {:induction false} DeliverKeys(saved: Regs, s: Image, gs: seq<Signal>)
    ensures DeliverAll(saved, s, gs).mem.Keys == s.mem.Keys
    decreases gs
  {
    if gs != [] && s.alive {
      DeliverKeys(saved, Deliver(saved, s, gs[0]), gs[1..]);
    }
  }

  /** What one stopped pass does to the set of mapped addresses is what its system call did. */
  lemma RetryKeys(h: Shot, s: Image, p: Stop)
    ensures Retry(h, s, p).mem.Keys
         == if p.late then Kernel(h.call, p.answer, Arm(h, s)).mem.Keys else s.mem.Keys
  {
    DeliverKeys(h.saved, if p.late then Kernel(h.call, p.answer, Arm(h, s)) else Arm(h, s), p.signals);
  }

  lemma {:induction false} MapKeys(h: Shot, s: Image, stops: seq<Stop>)
    requires h.call == Map && Retries(h, s, stops).alive
    ensures Retries(h, s, stops).mem.Keys == s.mem.Keys + LateAreas(h.a0, stops)
    decreases stops
  {
    if stops != [] {
      AliveBefore(h, s, stops);
      RetryKeys(h, s, stops[0]);
      MapKeys(h, Retry(h, s, stops[0]), stops[1..]);
    }
  }

  lemma {:induction false} SameKeys(h: Shot, s: Image, stops: seq<Stop>)
    requires h.call == SetMask || h.call == Clone
    ensures Retries(h, s, stops).mem.Keys == s.mem.Keys
    decreases stops
  {
    if stops != [] && s.alive {
      RetryKeys(h, s, stops[0]);
      SameKeys(h, Retry(h, s, stops[0]), stops[1..]);
    }
  }

  lemma {:induction false} UnmapKeys(h: Shot, s: Image, stops: seq<Stop>)
    requires h.call == Unmap
    ensures var left := Retries(h, s, stops).mem.Keys;
            s.mem.Keys - Addresses(Region(h.a0, h.a1)) <= left <= s.mem.Keys
    decreases stops
  {
    if stops != [] && s.alive {
      RetryKeys(h, s, stops[0]);
      UnmapKeys(h, Retry(h, s, stops[0]), stops[1..]);
    }
  }

  /** The addresses mapped after a blob that the target survived. */
  lemma BlobKeys(s: Image, c: Context, b: Blob, a0: nat, a1: nat, sch: Schedule)
    requires AfterBlob(s, c, b, a0, a1, sch).alive
    ensures var keys := AfterBlob(s, c, b, a0, a1, sch).mem.Keys;
            && (b.call == SetMask || b.call == Clone ==> keys == s.mem.Keys)
            && (b.call == Map ==>
                  keys == s.mem.Keys + LateAreas(a0, sch.stops)
                          + (if sch.answer < 0 then {} else Addresses(Region(sch.answer, a0))))
            && (b.call == Unmap && sch.answer == 0 ==> keys == s.mem.Keys - Addresses(Region(a0, a1)))
  {
    var h, t := ShotAt(s, c, b, a0, a1), s.(mem := Store(s.mem, c.pc, b.code));
    match b.call
    case Map => MapKeys(h, t, sch.stops);
    case Unmap => UnmapKeys(h, t, sch.stops);
    case _ => SameKeys(h, t, sch.stops);
  }

  /** One stop between the call and the trap of the mmap blob leaves an area that the munmap does not know of. */
  lemma LateStopLeavesArea(s: Image, c: Context, map_: Blob, unmap: Blob, x: nat, y: nat, len: nat)
    requires map_.call == Map && unmap.call == Unmap && s.alive && len > 0
    requires Addresses(Region(x, len)) !! Addresses(Region(y, len))
    ensures var once := Schedule([Stop(true, y, [])], x, false);
            var s1 := AfterBlob(s, c, map_, len, 0, once);
            y in AfterBlob(s1, c, unmap, x, len, Schedule([], 0, false)).mem
  {
    var once := Schedule([Stop(true, y, [])], x, false);
    var s1 := AfterBlob(s, c, map_, len, 0, once);
    var h, t := ShotAt(s, c, map_, len, 0), s.(mem := Store(s.mem, c.pc, map_.code));
    assert once.stops[1..] == [] && Retry(h, t, once.stops[0]).alive;
    assert Retries(h, t, once.stops) == Retries(h, Retry(h, t, once.stops[0]), []);
    BlobKeys(s, c, map_, len, 0, once);
    BlobKeys(s1, c, unmap, x, len, Schedule([], 0, false));
    assert LateAreas(len, once.stops) == Addresses(Region(y, len)) + LateAreas(len, []);
    assert Covers(Region(y, len), y);
  }

  /** A late stop of the mmap blob got an address. */
  predicate LateMapping(stops: seq<Stop>) {
    exists i :: 0 <= i < |stops| && stops[i].late && stops[i].answer >= 0
  }

  lemma {:induction false} LateAreasEmptyIff(len: nat, stops: seq<Stop>)
    requires len > 0
    ensures LateAreas(len, stops) == {} <==> !LateMapping(stops)
    decreases stops
  {
    if stops != [] {
      LateAreasEmptyIff(len, stops[1..]);
      if stops[0].late && stops[0].answer >= 0 {
        assert Covers(Region(stops[0].answer, len), stops[0].answer);
        assert stops[0].answer in LateAreas(len, stops);
      }
      if LateMapping(stops[1..]) {
        var i :| 0 <= i < |stops[1..]| && stops[1..][i].late && stops[1..][i].answer >= 0;
        assert stops[i + 1] == stops[1..][i];
      }
      if LateMapping(stops) && !(stops[0].late && stops[0].answer >= 0) {
        var i :| 0 <= i < |stops| && stops[i].late && stops[i].answer >= 0;
        assert stops[1..][i - 1] == stops[i];
      }
    }
  }

  // ---- threads ------------------------------------------------------------------------------------

  /** The parasites that late stops of the clone blob have started, besides the one memcr goes on with. */
  function LateClones(stops: seq<Stop>): nat {
    if stops == [] then 0
    else (if stops[0].late && stops[0].answer > 0 then 1 else 0) + LateClones(stops[1..])
  }

  lemma {:induction false} DeliverThreads(saved: Regs, s: Image, gs: seq<Signal>)
    ensures DeliverAll(saved, s, gs).threads == s.threads
    decreases gs
  {
    if gs != [] && s.alive {
      DeliverThreads(saved, Deliver(saved, s, gs[0]), gs[1..]);
    }
  }

  lemma {:induction false} RetriesThreads(h: Shot, s: Image, stops: seq<Stop>)
    requires Retries(h, s, stops).alive
    ensures Retries(h, s, stops).threads == s.threads + if h.call == Clone then LateClones(stops) else 0
    decreases stops
  {
    if stops != [] {
      AliveBefore(h, s, stops);
      var p := stops[0];
      DeliverThreads(h.saved, if p.late then Kernel(h.call, p.answer, Arm(h, s)) else Arm(h, s), p.signals);
      RetriesThreads(h, Retry(h, s, p), stops[1..]);
    }
  }

  /** Only the clone blob starts threads: one for its last run and one for every late stop that got one. */
  lemma BlobThreads(s: Image, c: Context, b: Blob, a0: nat, a1: nat, sch: Schedule)
    requires AfterBlob(s, c, b, a0, a1, sch).alive
    ensures AfterBlob(s, c, b, a0, a1, sch).threads
         == s.threads + if b.call == Clone then LateClones(sch.stops) + (if sch.answer > 0 then 1 else 0) else 0
  {
    RetriesThreads(ShotAt(s, c, b, a0, a1), s.(mem := Store(s.mem, c.pc, b.code)), sch.stops);
  }

  // ---- what becomes of the target -----------------------------------------------------------------

  /** The fate that a sequence of signals has for the target: that of the first one it does not survive. */
  function SignalsFate(gs: seq<Signal>): Fate {
    if gs == [] then Handled else if gs[0].fate != Handled then gs[0].fate else SignalsFate(gs[1..])
  }

  function StopsFate(stops: seq<Stop>): Fate {
    if stops == [] then Handled
    else if SignalsFate(stops[0].signals) != Handled then SignalsFate(stops[0].signals)
    else StopsFate(stops[1..])
  }

  function BlobFate(sch: Schedule): Fate {
    if StopsFate(sch.stops) != Handled then StopsFate(sch.stops) else if sch.killed then Sudden else Handled
  }

  /** t is what the target s is after something of this fate happened to it. */
  predicate Meets(t: Image, fate: Fate) {
    (t.alive <==> fate == Handled) && (t.lost <==> fate == Sudden)
  }

  lemma {:induction false} DeliverMeets(saved: Regs, s: Image, gs: seq<Signal>)
    requires s.alive && !s.lost
    ensures Meets(DeliverAll(saved, s, gs), SignalsFate(gs))
    decreases gs
  {
    if gs != [] {
      var t := Deliver(saved, s, gs[0]);
      if t.alive {
        DeliverMeets(saved, t, gs[1..]);
      } else {
        assert DeliverAll(saved, t, gs[1..]) == t;
      }
    }
  }

  lemma {:induction false} RetriesMeet(h: Shot, s: Image, stops: seq<Stop>)
    requires s.alive && !s.lost
    ensures Meets(Retries(h, s, stops), StopsFate(stops))
    decreases stops
  {
    if stops != [] {
      var p := stops[0];
      DeliverMeets(h.saved, if p.late then Kernel(h.call, p.answer, Arm(h, s)) else Arm(h, s), p.signals);
      if Retry(h, s, p).alive {
        RetriesMeet(h, Retry(h, s, p), stops[1..]);
      } else {
        assert Retries(h, Retry(h, s, p), stops[1..]) == Retry(h, s, p);
      }
    }
  }

  /** The target survives a blob, dies reported, or dies where memcr asserts that it lives, as its schedule says. */
  lemma BlobMeets(s: Image, c: Context, b: Blob, a0: nat, a1: nat, sch: Schedule)
    requires s.alive && !s.lost
    ensures Meets(AfterBlob(s, c, b, a0, a1, sch), BlobFate(sch))
  {
    RetriesMeet(ShotAt(s, c, b, a0, a1), s.(mem := Store(s.mem, c.pc, b.code)), sch.stops);
  }
}
