/**
 * Dropping the file pages of a mapping (--rss-file) when reads of the pagemap fail. A failed read does not move
 * the file offset, so the next read answers for the page before: what is dropped may not be what was looked at.
 */
module FileDrops {
  import opened Bytes
  import opened TargetMemory
  import opened Protocol
  import opened Coalescing

  /** Successful reads among the first k. */
  function Good(fails: seq<bool>, k: nat): (g: nat)
    requires k <= |fails|
    ensures g <= k
  {
    if k == 0 then 0 else Good(fails, k - 1) + (if fails[k - 1] then 0 else 1)
  }

  /** What successive 8-byte reads of the pagemap pm return when those marked in `fails` fail. */
  function Sequential(pm: seq<Answer>, fails: seq<bool>): (answers: seq<Answer>)
    requires |pm| == |fails|
    ensures |answers| == |pm|
  {
    seq(|pm|, i requires 0 <= i < |pm| => if fails[i] then Failed else pm[Good(fails, i)])
  }

  /** No failed read is followed by a read that starts a region which is then dropped. */
  predicate Settled(fails: seq<bool>) {
    !exists f, j :: 0 <= f < j < |fails| && fails[f] && Completes(fails, j)
  }

  /** A region started at page j will be flushed: j is the last page, or some later read succeeds. */
  predicate Completes(fails: seq<bool>, j: nat)
    requires j < |fails|
  {
    !fails[j] && (j == |fails| - 1 || exists k :: j < k < |fails| && !fails[k])
  }

  /** File pages hold what the file holds, everything else may differ from it. */
  ghost predicate Consistent(c: Scan, pm: seq<Answer>, mem: TargetMemory.Mem, base: TargetMemory.Mem) {
    forall i: nat, x: nat {:trigger OnPage(c, i, x)} ::
      i < |pm| && OnPage(c, i, x) && pm[i].Entry? && pm[i].fileShared ==> At(mem, x) == At(base, x)
  }

  predicate AllEntries(pm: seq<Answer>) {
    forall i :: 0 <= i < |pm| ==> pm[i].Entry?
  }

  /** The drops change no byte, whatever the pagemap and the memory that it describes. */
  ghost predicate Harmless(c: Scan, fails: seq<bool>) {
    forall pm: seq<Answer>, mem: TargetMemory.Mem, base: TargetMemory.Mem
      {:trigger Consistent(c, pm, mem, base), Sequential(pm, fails)} ::
      |pm| == |fails| && AllEntries(pm) && Consistent(c, pm, mem, base) ==>
        Unharmed(After(c, Sequential(pm, fails), |fails|).out, mem, base)
  }

  ghost predicate Unharmed(out: seq<Want>, mem: TargetMemory.Mem, base: TargetMemory.Mem) {
    forall x: nat :: Covered(out, x) ==> At(mem, x) == At(base, x)
  }

  predicate FileScan(c: Scan) {
    Proper(c) && c.vma.kind.File? && c.rssFile
  }

  // ---- settled failures are harmless -------------------------------------------------------------

  /** The pending region began at page s and has as many pages as reads succeeded since, all on file pages. */
  ghost predicate Began(c: Scan, pm: seq<Answer>, fails: seq<bool>, cur: Cursor, k: nat, s: nat)
    requires |pm| == |fails| && k <= |fails|
  {
    && s < k && !fails[s] && cur.start == PageAddr(c, s)
    && Good(fails, s) <= Good(fails, k)
    && cur.len == (Good(fails, k) - Good(fails, s)) * c.pageSize
    && forall q :: Good(fails, s) <= q < Good(fails, k) ==> pm[q].Entry? && pm[q].fileShared
  }

  lemma {:induction false} GoodWithoutFailures(fails: seq<bool>, s: nat)
    requires s <= |fails| && forall f :: 0 <= f < s ==> !fails[f]
    ensures Good(fails, s) == s
  {
    if s > 0 {
      GoodWithoutFailures(fails, s - 1);
    }
  }

  /** A byte of m pages from page s on lies on one of them. */
  lemma PageOf(c: Scan, s: nat, m: nat, x: nat) returns (i: nat)
    requires PageAddr(c, s) <= x < PageAddr(c, s) + m * c.pageSize
    ensures s <= i < s + m && OnPage(c, i, x)
    decreases m
  {
    if x < PageAddr(c, s) + c.pageSize {
      i := s;
    } else {
      assert PageAddr(c, s + 1) == PageAddr(c, s) + c.pageSize;
      assert m * c.pageSize == c.pageSize + (m - 1) * c.pageSize;
      i := PageOf(c, s + 1, m - 1, x);
    }
  }

  /** A flushed region began before the first failure, so its pages are the ones that were looked at. */
  lemma FlushHarmless(c: Scan, pm: seq<Answer>, fails: seq<bool>, cur: Cursor, k: nat, s: nat,
                      mem: TargetMemory.Mem, base: TargetMemory.Mem)
    requires FileScan(c) && |pm| == |fails| && k <= |fails| && Consistent(c, pm, mem, base)
    requires Began(c, pm, fails, cur, k, s) && Good(fails, s) == s && cur.start != 0
    requires Unharmed(cur.out, mem, base)
    ensures Unharmed(Flush(c, cur).out, mem, base)
  {
    forall x: nat | Covered(Flush(c, cur).out, x) ensures At(mem, x) == At(base, x) {
      CoveredFlush(c, cur, x);
      if !Covered(cur.out, x) {
        var i := PageOf(c, s, Good(fails, k) - s, x);
        assert pm[i].fileShared;
      }
    }
  }

  /** After k reads: nothing dropped so far was harmed, and the pending region is accounted for. */
  ghost predicate Tracked(c: Scan, pm: seq<Answer>, fails: seq<bool>, cur: Cursor, k: nat,
                          mem: TargetMemory.Mem, base: TargetMemory.Mem)
    requires |pm| == |fails| && k <= |fails|
  {
    && Unharmed(cur.out, mem, base)
    && (cur.start == 0 ==> cur.len == 0)
    && (cur.start != 0 ==> exists s :: Began(c, pm, fails, cur, k, s))
  }

  lemma SettledStart(fails: seq<bool>, s: nat, k: nat)
    requires Settled(fails) && s <= k < |fails| && !fails[s] && !fails[k]
    requires s < k || k == |fails| - 1
    ensures Good(fails, s) == s
  {
    assert Completes(fails, s);
    GoodWithoutFailures(fails, s);
  }

  lemma VisitTracked(c: Scan, pm: seq<Answer>, fails: seq<bool>, cur: Cursor, k: nat,
                     mem: TargetMemory.Mem, base: TargetMemory.Mem)
    requires FileScan(c) && |pm| == |fails| && k < |fails| && Consistent(c, pm, mem, base)
    requires Settled(fails) && AllEntries(pm) && Tracked(c, pm, fails, cur, k, mem, base)
    ensures Tracked(c, pm, fails, Visit(c, |fails|, cur, k, Sequential(pm, fails)[k]), k + 1, mem, base)
  {
    if cur.start != 0 {
      VisitPending(c, pm, fails, cur, k, mem, base);
    } else {
      VisitFresh(c, pm, fails, cur, k, mem, base);
    }
  }

  /** A region is pending: it is skipped over, grows, or is flushed. */
  lemma VisitPending(c: Scan, pm: seq<Answer>, fails: seq<bool>, cur: Cursor, k: nat,
                     mem: TargetMemory.Mem, base: TargetMemory.Mem)
    requires FileScan(c) && |pm| == |fails| && k < |fails| && Consistent(c, pm, mem, base)
    requires Settled(fails) && AllEntries(pm) && Tracked(c, pm, fails, cur, k, mem, base) && cur.start != 0
    ensures Tracked(c, pm, fails, Visit(c, |fails|, cur, k, Sequential(pm, fails)[k]), k + 1, mem, base)
  {
    var a := Sequential(pm, fails)[k];
    var s :| Began(c, pm, fails, cur, k, s);
    if fails[k] {
      assert Began(c, pm, fails, Visit(c, |fails|, cur, k, a), k + 1, s);
    } else if a.fileShared {
      var more := Extend(c, cur, k);
      GrowLen(Good(fails, k) - Good(fails, s), c.pageSize);
      assert Began(c, pm, fails, more, k + 1, s);
      if k + 1 == |fails| {
        SettledStart(fails, s, k);
        FlushHarmless(c, pm, fails, more, k + 1, s, mem, base);
      }
    } else {
      SettledStart(fails, s, k);
      FlushHarmless(c, pm, fails, cur, k, s, mem, base);
    }
  }

  /** No region is pending: one may begin. */
  lemma VisitFresh(c: Scan, pm: seq<Answer>, fails: seq<bool>, cur: Cursor, k: nat,
                   mem: TargetMemory.Mem, base: TargetMemory.Mem)
    requires FileScan(c) && |pm| == |fails| && k < |fails| && Consistent(c, pm, mem, base)
    requires Settled(fails) && AllEntries(pm) && Tracked(c, pm, fails, cur, k, mem, base) && cur.start == 0
    ensures Tracked(c, pm, fails, Visit(c, |fails|, cur, k, Sequential(pm, fails)[k]), k + 1, mem, base)
  {
    var a := Sequential(pm, fails)[k];
    if !fails[k] && a.fileShared {
      var more := Extend(c, cur, k);
      GrowLen(0, c.pageSize);
      assert Began(c, pm, fails, more, k + 1, k);
      if k + 1 == |fails| {
        SettledStart(fails, k, k);
        FlushHarmless(c, pm, fails, more, k + 1, k, mem, base);
      }
    }
  }

  lemma GrowLen(m: nat, p: nat)
    ensures m * p + p == (m + 1) * p
  {
  }

  lemma {:induction false} AfterTracked(c: Scan, pm: seq<Answer>, fails: seq<bool>, k: nat,
                                        mem: TargetMemory.Mem, base: TargetMemory.Mem)
    requires FileScan(c) && |pm| == |fails| && k <= |fails| && Consistent(c, pm, mem, base)
    requires Settled(fails) && AllEntries(pm)
    ensures Tracked(c, pm, fails, After(c, Sequential(pm, fails), k), k, mem, base)
  {
    if k > 0 {
      AfterTracked(c, pm, fails, k - 1, mem, base);
      VisitTracked(c, pm, fails, After(c, Sequential(pm, fails), k - 1), k - 1, mem, base);
    }
  }

  // ---- other failures can harm -------------------------------------------------------------------

  const PAGE_OF_FILE := Entry(true, false, true, false)
  const PRIVATE_PAGE := Entry(true, false, false, false)

  /** A pagemap with a single file page, the one that is looked at in place of page j. */
  function Misleading(fails: seq<bool>, j: nat): (pm: seq<Answer>)
    requires j < |fails|
    ensures |pm| == |fails| && AllEntries(pm)
  {
    seq(|fails|, i requires 0 <= i < |fails| => if i == Good(fails, j) then PAGE_OF_FILE else PRIVATE_PAGE)
  }

  lemma {:induction false} GoodGrows(fails: seq<bool>, i: nat, k: nat)
    requires i <= k <= |fails|
    ensures Good(fails, i) <= Good(fails, k)
    ensures i < k && !fails[i] ==> Good(fails, i) < Good(fails, k)
    ensures i < k && fails[i] ==> Good(fails, k) < k
    decreases k
  {
    if i < k {
      GoodGrows(fails, i, k - 1);
    }
  }

  /** Nothing is pending before page j, page j is pending or dropped after it, and in the end it is dropped. */
  lemma {:induction false} MisledScan(c: Scan, fails: seq<bool>, j: nat, k: nat)
    requires FileScan(c) && j < |fails| && !fails[j] && k <= |fails|
    ensures var cur := After(c, Sequential(Misleading(fails, j), fails), k);
            && (k <= j ==> cur == Cursor(0, 0, []))
            && (k > j && (j == |fails| - 1 || exists q :: j < q < k && !fails[q]) ==>
                  cur == Cursor(0, 0, [Free(Region(PageAddr(c, j), c.pageSize))]))
            && (k > j && j < |fails| - 1 && (forall q :: j < q < k ==> fails[q]) ==>
                  cur == Cursor(PageAddr(c, j), c.pageSize, []))
    decreases k
  {
    if k > 0 {
      MisledScan(c, fails, j, k - 1);
      var answers := Sequential(Misleading(fails, j), fails);
      assert Good(fails, k - 1) < |fails|;
      if !fails[k - 1] {
        if k - 1 < j {
          GoodGrows(fails, k - 1, j);
        } else if k - 1 > j {
          GoodGrows(fails, j, k - 1);
        }
        assert answers[k - 1] == if k - 1 == j then PAGE_OF_FILE else PRIVATE_PAGE;
      }
    }
  }

  /** A mapping whose file holds zeros, and the same mapping with the first byte of page j written. */
  function FileContent(c: Scan): TargetMemory.Mem {
    map x: nat | c.vma.start <= x < c.vma.end && InVma(c.vma, x) :: 0 as Byte
  }

  function Written(c: Scan, j: nat): TargetMemory.Mem {
    FileContent(c)[PageAddr(c, j) := 1]
  }

  /** The scan is misled into dropping page j, which the pagemap rightly calls private. */
  lemma MisledDrop(c: Scan, fails: seq<bool>, f: nat, j: nat)
    requires FileScan(c) && f < j < |fails| && fails[f] && Completes(fails, j)
    ensures Consistent(c, Misleading(fails, j), Written(c, j), FileContent(c))
    ensures After(c, Sequential(Misleading(fails, j), fails), |fails|).out == [Free(Region(PageAddr(c, j), c.pageSize))]
  {
    var pm, mem, base := Misleading(fails, j), Written(c, j), FileContent(c);
    GoodGrows(fails, f, j);
    forall i: nat, y: nat | i < |pm| && OnPage(c, i, y) && pm[i].fileShared ensures At(mem, y) == At(base, y) {
      assert i == Good(fails, j) < j;
      PagesApart(c, i, j, y);
    }
    MisledScan(c, fails, j, |fails|);
  }

  lemma UnsettledHarms(c: Scan, fails: seq<bool>, f: nat, j: nat)
    requires FileScan(c) && f < j < |fails| && fails[f] && Completes(fails, j)
    ensures !Harmless(c, fails)
  {
    var pm, mem, base, x := Misleading(fails, j), Written(c, j), FileContent(c), PageAddr(c, j);
    MisledDrop(c, fails, f, j);
    var out := After(c, Sequential(pm, fails), |fails|).out;
    assert out[0].Free? && Covers(out[0].r, x);
    assert Covered(out, x) && At(mem, x) == 1 && At(base, x) == 0;
    assert !Unharmed(out, mem, base);
  }

  /**
   * Dropping the file pages of a mapping loses nothing for every pagemap and every memory exactly when no read
   * of the pagemap that fails is followed by a read that starts a region which later gets dropped.
   */
  lemma FileDropsHarmlessIff(c: Scan, fails: seq<bool>)
    requires FileScan(c)
    ensures Harmless(c, fails) <==> Settled(fails)
  {
    if Settled(fails) {
      forall pm: seq<Answer>, mem: TargetMemory.Mem, base: TargetMemory.Mem
        | |pm| == |fails| && AllEntries(pm) && Consistent(c, pm, mem, base)
        ensures Unharmed(After(c, Sequential(pm, fails), |fails|).out, mem, base)
      {
        AfterTracked(c, pm, fails, |fails|, mem, base);
      }
    } else {
      var f, j :| 0 <= f < j < |fails| && fails[f] && Completes(fails, j);
      UnsettledHarms(c, fails, f, j);
    }
  }
}
