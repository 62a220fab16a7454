/** From the scanned mappings and the pagemap to the released target: a checkpoint and restore end to end. */
module WholeRun {
  import opened Bytes
  import opened TargetMemory
  import opened DumpCodec
  import opened Protocol
  import opened ProtocolScript
  import opened ProtocolGuarantees
  import opened Coalescing
  import opened FileDrops
  import opened ProtocolProgress

  /**
   * A run of memcr: its options, the mappings it scanned, and the pagemap answers it got for the mappings it
   * visited, which are fewer than all of them when the checkpoint was aborted in between.
   */
  datatype Setup = Setup(vmas: seq<Vma>, answers: seq<seq<Answer>>, pageSize: nat, rssFile: bool, remote: bool,
                         procMem: bool, mem: TargetMemory.Mem, base: TargetMemory.Mem, prot: ProtMap,
                         transport: Transport, packing: Packing, stale: nat -> Byte)

  function ScanOf(u: Setup, i: nat): Scan
    requires i < |u.vmas|
  {
    Scan(u.vmas[i], u.pageSize, u.rssFile)
  }

  /** The loop of get_target_pages over the mappings. */
  function Plan(u: Setup, i: nat): seq<Want>
    requires |u.answers| <= |u.vmas|
    decreases |u.answers| - i
  {
    if i >= |u.answers| then [] else PagesWanted(ScanOf(u, i), u.remote, u.answers[i]) + Plan(u, i + 1)
  }

  function JobOf(u: Setup): Job
    requires |u.answers| <= |u.vmas|
  {
    Job(u.vmas, Plan(u, 0), u.procMem, u.mem, u.base, u.prot, Codec(u.transport, u.packing, u.pageSize), u.stale)
  }

  /** Which reads of the pagemap failed. */
  function Fails(answers: seq<Answer>): (fails: seq<bool>)
    ensures |fails| == |answers|
  {
    seq(|answers|, i requires 0 <= i < |answers| => answers[i].Failed?)
  }

  /** The answers for a file mapping come in sequence from a pagemap that tells file pages from private ones. */
  ghost predicate FileAnswers(u: Setup, i: nat)
    requires |u.answers| <= |u.vmas| && i < |u.answers|
  {
    u.vmas[i].kind.File? && u.rssFile ==>
      exists pm: seq<Answer> ::
        && |pm| == |u.answers[i]| && AllEntries(pm)
        && u.answers[i] == Sequential(pm, Fails(u.answers[i]))
        && Consistent(ScanOf(u, i), pm, u.mem, u.base)
  }

  /** No failed read of the pagemap of a file mapping is followed by one that starts a region which is later dropped. */
  predicate FailuresSettled(u: Setup)
    requires |u.answers| <= |u.vmas|
  {
    forall i :: 0 <= i < |u.answers| && u.vmas[i].kind.File? && u.rssFile ==> Settled(Fails(u.answers[i]))
  }

  /** What /proc and the kernel give: disjoint ascending mappings, scanned right, with one answer a page. */
  ghost predicate ValidSetup(u: Setup) {
    && |u.answers| <= |u.vmas|
    && Working(Codec(u.transport, u.packing, u.pageSize))
    && (forall i :: 0 <= i < |u.vmas| ==> Proper(ScanOf(u, i)) && u.vmas[i].start <= u.vmas[i].end < Pow256(8))
    && (forall i, k :: 0 <= i < k < |u.vmas| ==> u.vmas[i].end <= u.vmas[k].start)
    && (forall v, x: nat :: v in u.vmas && InVma(v, x) ==> x in u.mem && x in u.prot && u.prot[x] == v.prot)
    && (forall i :: 0 <= i < |u.answers| ==> |u.answers[i]| == PageCount(ScanOf(u, i)) && FileAnswers(u, i))
  }

  // ---- the plan of one mapping -------------------------------------------------------------------

  /** Requests that lie between two addresses, are apart, and are good for the job. */
  ghost predicate Lodged(j: Job, wants: seq<Want>, lo: nat, hi: nat)
    requires j.codec.pageSize > 0
  {
    && WantsApart(wants)
    && (forall i :: 0 <= i < |wants| ==> GoodWant(j, wants[i]))
    && (forall i :: 0 <= i < |wants| && HasRegion(wants[i]) ==>
          lo <= wants[i].r.addr && wants[i].r.addr + wants[i].r.len <= hi)
  }

  lemma {:induction false} NoFileRequests(c: Scan, answers: seq<Answer>, k: nat)
    requires c.vma.kind.File? && !c.rssFile && k <= |answers|
    ensures After(c, answers, k) == Cursor(0, 0, [])
  {
    if k > 0 {
      NoFileRequests(c, answers, k - 1);
    }
  }

  lemma DumpIsGood(u: Setup, i: nat, w: Want)
    requires ValidSetup(u) && i < |u.answers| && w.Dump?
    requires w in After(ScanOf(u, i), u.answers[i], |u.answers[i]|).out
    ensures GoodWant(JobOf(u), w)
  {
    var c := ScanOf(u, i);
    CoalescingSafe(c, u.answers[i]);
    assert Within(w.r, u.vmas[i]);
    assert u.vmas[i] in u.vmas;
    assert Housed(u.vmas, w.r);
  }

  lemma OutIsGood(u: Setup, i: nat, w: Want)
    requires ValidSetup(u) && i < |u.answers|
    requires w in After(ScanOf(u, i), u.answers[i], |u.answers[i]|).out
    ensures GoodWant(JobOf(u), w)
  {
    CoalescingSafe(ScanOf(u, i), u.answers[i]);
    if w.Dump? {
      DumpIsGood(u, i, w);
    }
  }

  lemma OutSits(u: Setup, i: nat)
    requires ValidSetup(u) && i < |u.answers|
    ensures Lodged(JobOf(u), After(ScanOf(u, i), u.answers[i], |u.answers[i]|).out, u.vmas[i].start, u.vmas[i].end)
  {
    var out := After(ScanOf(u, i), u.answers[i], |u.answers[i]|).out;
    CoalescingSafe(ScanOf(u, i), u.answers[i]);
    forall k | 0 <= k < |out| ensures GoodWant(JobOf(u), out[k]) {
      OutIsGood(u, i, out[k]);
    }
  }

  lemma LodgedAppend(j: Job, a: seq<Want>, b: seq<Want>, lo: nat, mid: nat, mid': nat, hi: nat)
    requires j.codec.pageSize > 0 && mid <= mid' && lo <= mid' && mid <= hi
    requires Lodged(j, a, lo, mid) && Lodged(j, b, mid', hi)
    ensures Lodged(j, a + b, lo, hi)
  {
    var ab := a + b;
    forall i | 0 <= i < |ab|
      ensures GoodWant(j, ab[i])
      ensures HasRegion(ab[i]) ==> lo <= ab[i].r.addr && ab[i].r.addr + ab[i].r.len <= hi
    {
      assert ab[i] == if i < |a| then a[i] else b[i - |a|];
    }
    forall i, k | 0 <= i < k < |ab| && HasRegion(ab[i]) && HasRegion(ab[k])
      ensures Apart(ab[i].r, ab[k].r)
    {
      assert ab[i] == if i < |a| then a[i] else b[i - |a|];
      assert ab[k] == if k < |a| then a[k] else b[k - |a|];
    }
  }

  lemma OnePlan(u: Setup, i: nat)
    requires ValidSetup(u) && i < |u.answers|
    ensures Lodged(JobOf(u), PagesWanted(ScanOf(u, i), u.remote, u.answers[i]), u.vmas[i].start, u.vmas[i].end)
  {
    var c, answers, lo := ScanOf(u, i), u.answers[i], u.vmas[i].start;
    var out := After(c, answers, |answers|).out;
    OutSits(u, i);
    if u.remote && answers != [] {
      assert Lodged(JobOf(u), [Ask(8 * |answers|)], lo, lo);
      LodgedAppend(JobOf(u), [Ask(8 * |answers|)], out, lo, lo, lo, u.vmas[i].end);
    } else {
      assert [] + out == out;
    }
  }

  // ---- the plan of all mappings ------------------------------------------------------------------

  lemma {:induction false} PlanSits(u: Setup, i: nat)
    requires ValidSetup(u) && i < |u.vmas|
    ensures Lodged(JobOf(u), Plan(u, i), u.vmas[i].start, Pow256(8) - 1)
    decreases |u.vmas| - i
  {
    var j := JobOf(u);
    if i < |u.answers| {
      OnePlan(u, i);
      var one := PagesWanted(ScanOf(u, i), u.remote, u.answers[i]);
      if i + 1 < |u.vmas| {
        PlanSits(u, i + 1);
        LodgedAppend(j, one, Plan(u, i + 1), u.vmas[i].start, u.vmas[i].end, u.vmas[i + 1].start, Pow256(8) - 1);
      } else {
        assert Plan(u, i) == one;
      }
    }
  }

  /** Every run of memcr on a sane system is a valid job of the protocol. */
  lemma SetupIsValidJob(u: Setup)
    requires ValidSetup(u)
    ensures ValidJob(JobOf(u))
  {
    if |u.vmas| > 0 {
      PlanSits(u, 0);
    }
  }

  // ---- what is dropped without being dumped ------------------------------------------------------

  /** With settled failures the drops of one mapping harm nothing. */
  lemma OutClean(u: Setup, i: nat, w: Want, x: nat)
    requires ValidSetup(u) && FailuresSettled(u) && i < |u.answers|
    requires w in After(ScanOf(u, i), u.answers[i], |u.answers[i]|).out && w.Free? && Covers(w.r, x)
    ensures At(u.mem, x) == At(u.base, x)
  {
    var c := ScanOf(u, i);
    var out := After(c, u.answers[i], |u.answers[i]|).out;
    CoalescingSafe(c, u.answers[i]);
    if !u.rssFile {
      NoFileRequests(c, u.answers[i], |u.answers[i]|);
    } else {
      assert FileAnswers(u, i);
      var pm: seq<Answer> :|
        && |pm| == |u.answers[i]| && AllEntries(pm)
        && u.answers[i] == Sequential(pm, Fails(u.answers[i]))
        && Consistent(c, pm, u.mem, u.base);
      var fails := Fails(u.answers[i]);
      AfterTracked(c, pm, fails, |fails|, u.mem, u.base);
      var k :| 0 <= k < |out| && out[k] == w;
      assert Covered(out, x);
    }
  }

  lemma {:induction false} PlanClean(u: Setup, i: nat, w: Want, x: nat)
    requires ValidSetup(u) && FailuresSettled(u) && w in Plan(u, i) && w.Free? && Covers(w.r, x)
    ensures At(u.mem, x) == At(u.base, x)
    decreases |u.answers| - i
  {
    var one := PagesWanted(ScanOf(u, i), u.remote, u.answers[i]);
    if w in one {
      assert w in After(ScanOf(u, i), u.answers[i], |u.answers[i]|).out;
      OutClean(u, i, w, x);
    } else {
      PlanClean(u, i + 1, w, x);
    }
  }

  lemma SettledIsClean(u: Setup)
    requires ValidSetup(u) && FailuresSettled(u)
    ensures FreesClean(JobOf(u))
  {
    var wants := JobOf(u).wants;
    forall i, x: nat | 0 <= i < |wants| && wants[i].Free? && Covers(wants[i].r, x) && x in u.mem
      ensures u.mem[x] == At(u.base, x)
    {
      PlanClean(u, 0, wants[i], x);
    }
  }

  /**
   * Whole-run round trip: for every memory, every list of mappings, every pagemap (unevictable pages, failed reads and
   * an abort between mappings included), both ways of reading pages, every dump format and every schedule of memcr and
   * the parasite, a target that is released has every protection it had before and, if the failed reads of file
   * mappings are settled, every byte.
   */
  lemma RoundTrip(u: Setup, ls: seq<Label>)
    requires ValidSetup(u)
    ensures var s := Run(JobOf(u), Init(JobOf(u)), ls);
            s.stage.Released? ==> s.target.prot == u.prot && (FailuresSettled(u) ==> s.target.mem == u.mem)
  {
    SetupIsValidJob(u);
    ReleasedIntactIff(JobOf(u), ls);
    if FailuresSettled(u) {
      SettledIsClean(u);
    }
  }

  // ---- and when they are not settled -------------------------------------------------------------

  /**
   * A target with this one file mapping, whose page j was written to, and the reads of whose pagemap fail like this.
   */
  function Misled(c: Scan, fails: seq<bool>, j: nat): Setup
    requires j < |fails|
  {
    Setup([c.vma], [Sequential(Misleading(fails, j), fails)], c.pageSize, true, false, false,
          Written(c, j), FileContent(c), map x | x in FileContent(c) :: c.vma.prot, Raw, Plainly, i => 0 as Byte)
  }

  lemma MisledIsValid(c: Scan, fails: seq<bool>, f: nat, j: nat)
    requires FileScan(c) && c.vma.start <= c.vma.end < Pow256(8) && |fails| == PageCount(c)
    requires f < j < |fails| && fails[f] && Completes(fails, j)
    ensures ValidSetup(Misled(c, fails, j)) && Fails(Misled(c, fails, j).answers[0]) == fails
  {
    var u, pm := Misled(c, fails, j), Misleading(fails, j);
    MisledDrop(c, fails, f, j);
    assert ScanOf(u, 0) == c;
    assert Fails(u.answers[0]) == fails;
    assert FileAnswers(u, 0);
    forall v, x: nat | v in u.vmas && InVma(v, x) ensures x in u.mem && x in u.prot && u.prot[x] == v.prot {
      assert x in FileContent(c);
    }
  }

  /**
   * For every file mapping and every pattern of failures that is not settled there is a target and a complete run that
   * releases it with a byte lost.
   */
  lemma UnsettledLoses(c: Scan, fails: seq<bool>, f: nat, j: nat) returns (u: Setup, ls: seq<Label>)
    requires FileScan(c) && c.vma.start <= c.vma.end < Pow256(8) && |fails| == PageCount(c)
    requires f < j < |fails| && fails[f] && Completes(fails, j)
    ensures ValidSetup(u) && u.vmas == [c.vma] && |u.answers| == 1 && Fails(u.answers[0]) == fails
    ensures var s := Run(JobOf(u), Init(JobOf(u)), ls); s.stage.Released? && s.target.mem != u.mem
  {
    u := Misled(c, fails, j);
    MisledIsValid(c, fails, f, j);
    SetupIsValidJob(u);
    var job, x := JobOf(u), PageAddr(c, j);
    MisledDrop(c, fails, f, j);
    assert Plan(u, 1) == [];
    assert ScanOf(u, 0) == c;
    assert job.wants == [Free(Region(x, c.pageSize))];
    assert Covers(job.wants[0].r, x) && job.mem[x] == 1;
    PageIsMapped(c, j);
    assert At(job.base, x) == 0 && !FreesClean(job);
    assert Run(job, Init(job), []) == Init(job);
    ls := NoScheduleStuck(job, []);
    ReleasedIntactIff(job, ls);
  }

  lemma PageIsMapped(c: Scan, j: nat)
    requires Proper(c) && j < PageCount(c)
    ensures InVma(c.vma, PageAddr(c, j))
  {
    PagesWithin(c, j + 1);
  }
}
