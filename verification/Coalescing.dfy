/** get_vma_pages: from the pagemap of one mapping to the regions that are dumped or dropped. */
module Coalescing {
  import opened Arithmetic
  import opened TargetMemory
  import opened DumpCodec
  import opened Protocol

  /** What memcr learns of a page: nothing, or its pagemap bits and whether its frame is unevictable. */
  datatype Answer = Failed | Entry(present: bool, swapped: bool, fileShared: bool, unevictable: bool)

  /** Settings and geometry of one scan. */
  datatype Scan = Scan(vma: Vma, pageSize: nat, rssFile: bool)

  /** The variables of the loop: region_start (0: no region), region_length, and the requests made. */
  datatype Cursor = Cursor(start: nat, len: nat, out: seq<Want>)

  function PageCount(c: Scan): nat
    requires c.pageSize > 0
  {
    if c.vma.end <= c.vma.start then 0 else (c.vma.end - c.vma.start) / c.pageSize
  }

  function PageAddr(c: Scan, i: nat): nat {
    c.vma.start + i * c.pageSize
  }

  predicate Live(a: Answer) {
    a.Entry? && (a.present || a.swapped)
  }

  /** The pending region, if there is one, goes to get_vm_region or free_vm_region and is forgotten. */
  function Flush(c: Scan, cur: Cursor): Cursor {
    var r := Region(cur.start, cur.len);
    if cur.start == 0 then cur
    else Cursor(0, 0, cur.out + [if c.vma.kind.File? then Free(r) else Dump(r)])
  }

  function Extend(c: Scan, cur: Cursor, i: nat): Cursor {
    Cursor(if cur.start == 0 then PageAddr(c, i) else cur.start, cur.len + c.pageSize, cur.out)
  }

  /** The body of the loop for page i of n. */
  function Visit(c: Scan, n: nat, cur: Cursor, i: nat, a: Answer): Cursor {
    if a.Failed? || (c.vma.kind.File? && !c.rssFile) then cur
    else if c.vma.kind.File? then
      if a.fileShared then
        var more := Extend(c, cur, i);
        if i + 1 < n then more else Flush(c, more)
      else Flush(c, cur)
    else if Live(a) then
      if a.present && a.unevictable then cur
      else
        var more := Extend(c, cur, i);
        if i + 1 < n && more.len < MAX_REGION then more else Flush(c, more)
    else Flush(c, cur)
  }

  /** The loop's variables after the first k pages. */
  function After(c: Scan, answers: seq<Answer>, k: nat): Cursor
    requires k <= |answers|
  {
    if k == 0 then Cursor(0, 0, [])
    else Visit(c, |answers|, After(c, answers, k - 1), k - 1, answers[k - 1])
  }

  /** The requests made for one mapping; a remote pagemap costs one request of its own. */
  function PagesWanted(c: Scan, remote: bool, answers: seq<Answer>): seq<Want> {
    (if remote && answers != [] then [Ask(8 * |answers|)] else []) + After(c, answers, |answers|).out
  }

  /** get_vma_pages as the loop it is. */
  method GetVmaPages(c: Scan, remote: bool, answers: seq<Answer>) returns (wants: seq<Want>)
    requires c.pageSize > 0 && |answers| == PageCount(c)
    ensures wants == PagesWanted(c, remote, answers)
  {
    var nrpages := PageCount(c);
    var regionStart, regionLength := 0, 0;
    wants := [];
    ghost var asked: seq<Want> := if remote && answers != [] then [Ask(8 * |answers|)] else [];
    var idx := 0;
    if remote && nrpages > 0 {
      wants := [Ask(8 * nrpages)];
    }
    while idx < nrpages
      invariant 0 <= idx <= nrpages
      invariant wants == asked + After(c, answers, idx).out
      invariant regionStart == After(c, answers, idx).start && regionLength == After(c, answers, idx).len
    {
      var addr := c.vma.start + idx * c.pageSize;
      var map_ := answers[idx];
      idx := idx + 1;
      if map_.Failed? {
        continue;
      }
      if !c.vma.kind.File? {
        if map_.present || map_.swapped {
          if map_.present && map_.unevictable {
            continue;
          }
          if regionStart == 0 {
            regionStart := addr;
          }
          regionLength := regionLength + c.pageSize;
          if idx < nrpages && regionLength < MAX_REGION {
            continue;
          }
        }
        if regionStart == 0 {
          continue;
        }
        wants := wants + [Dump(Region(regionStart, regionLength))];
        regionStart, regionLength := 0, 0;
        continue;
      }
      if c.rssFile {
        if map_.fileShared {
          if regionStart == 0 {
            regionStart := addr;
          }
          regionLength := regionLength + c.pageSize;
          if idx < nrpages {
            continue;
          }
        }
        if regionStart == 0 {
          continue;
        }
        wants := wants + [Free(Region(regionStart, regionLength))];
        regionStart, regionLength := 0, 0;
      }
    }
  }

  // ---- geometry ----------------------------------------------------------------------------------

  lemma {:induction false} PageAligned(c: Scan, i: nat)
    requires c.pageSize > 0 && c.vma.start % c.pageSize == 0
    ensures PageAddr(c, i) % c.pageSize == 0
  {
    if i > 0 {
      PageAligned(c, i - 1);
      assert i * c.pageSize == (i - 1) * c.pageSize + c.pageSize;
      ModStep(PageAddr(c, i - 1), c.pageSize);
    }
  }

  // ---- safety for arbitrary answers --------------------------------------------------------------

  /** A scan as memcr makes it: page-aligned, above page zero, with a page size dividing the region limit. */
  predicate Proper(c: Scan) {
    && c.pageSize > 0 && MAX_REGION % c.pageSize == 0
    && 0 < c.vma.start && c.vma.start % c.pageSize == 0
  }

  /** A nonempty page-aligned region between two addresses, not too long if it is to be dumped. */
  predicate Sits(c: Scan, r: Region, lo: nat, hi: nat)
    requires c.pageSize > 0
  {
    && lo <= r.addr && r.addr + r.len <= hi
    && r.len > 0 && r.addr % c.pageSize == 0 && r.len % c.pageSize == 0
    && (!c.vma.kind.File? ==> r.len <= MAX_REGION)
  }

  predicate RightKind(c: Scan, w: Want) {
    if c.vma.kind.File? then w.Free? else w.Dump?
  }

  /** The requests are ascending regions between lo and hi. */
  predicate Ascending(c: Scan, out: seq<Want>, lo: nat, hi: nat)
    requires c.pageSize > 0
  {
    && (forall i :: 0 <= i < |out| ==> RightKind(c, out[i]) && Sits(c, out[i].r, lo, hi))
    && (forall i, k :: 0 <= i < k < |out| ==> out[i].r.addr + out[i].r.len <= out[k].r.addr)
  }

  /** The cursor after pages below `here`: finished regions lie below the pending one, which lies below here. */
  predicate Steady(c: Scan, cur: Cursor, here: nat)
    requires c.pageSize > 0
  {
    && c.vma.start <= here
    && (cur.start == 0 ==> cur.len == 0)
    && (cur.start != 0 ==> Sits(c, Region(cur.start, cur.len), c.vma.start, here))
    && (cur.start != 0 && !c.vma.kind.File? ==> cur.len < MAX_REGION)
    && Ascending(c, cur.out, c.vma.start, if cur.start == 0 then here else cur.start)
  }

  lemma FlushSteady(c: Scan, cur: Cursor, here: nat)
    requires c.pageSize > 0 && c.vma.start <= here
    requires cur.start == 0 ==> cur.len == 0
    requires cur.start != 0 ==> Sits(c, Region(cur.start, cur.len), c.vma.start, here)
    requires Ascending(c, cur.out, c.vma.start, if cur.start == 0 then here else cur.start)
    ensures Steady(c, Flush(c, cur), here)
  {
  }

  lemma ExtendSits(c: Scan, cur: Cursor, i: nat)
    requires Proper(c) && Steady(c, cur, PageAddr(c, i))
    ensures var more := Extend(c, cur, i);
            && more.start != 0
            && Sits(c, Region(more.start, more.len), c.vma.start, PageAddr(c, i + 1))
            && Ascending(c, more.out, c.vma.start, more.start)
  {
    PageAligned(c, i);
    assert PageAddr(c, i + 1) == PageAddr(c, i) + c.pageSize;
    ModStep(cur.len, c.pageSize);
    if cur.start != 0 && !c.vma.kind.File? {
      MultiplesApart(cur.len, MAX_REGION, c.pageSize);
    }
    PageFits(c);
  }

  lemma PageFits(c: Scan)
    requires Proper(c)
    ensures c.pageSize <= MAX_REGION
  {
    MultiplesApart(0, MAX_REGION, c.pageSize);
  }

  lemma VisitSteady(c: Scan, n: nat, cur: Cursor, i: nat, a: Answer)
    requires Proper(c) && Steady(c, cur, PageAddr(c, i))
    ensures Steady(c, Visit(c, n, cur, i, a), PageAddr(c, i + 1))
  {
    assert PageAddr(c, i + 1) == PageAddr(c, i) + c.pageSize;
    assert Steady(c, cur, PageAddr(c, i + 1));
    ExtendSits(c, cur, i);
    FlushSteady(c, cur, PageAddr(c, i + 1));
    FlushSteady(c, Extend(c, cur, i), PageAddr(c, i + 1));
  }

  lemma {:induction false} AfterSteady(c: Scan, answers: seq<Answer>, k: nat)
    requires Proper(c) && k <= |answers|
    ensures Steady(c, After(c, answers, k), PageAddr(c, k))
  {
    if k > 0 {
      AfterSteady(c, answers, k - 1);
      VisitSteady(c, |answers|, After(c, answers, k - 1), k - 1, answers[k - 1]);
    }
  }

  /** Pages of a mapping end within it. */
  lemma PagesWithin(c: Scan, k: nat)
    requires Proper(c) && k <= PageCount(c)
    ensures k > 0 ==> PageAddr(c, k) <= c.vma.end
  {
    if k > 0 {
      var size := c.vma.end - c.vma.start;
      assert size == (size / c.pageSize) * c.pageSize + size % c.pageSize;
      assert k * c.pageSize <= PageCount(c) * c.pageSize;
    }
  }

  /**
   * Whatever the pagemap says, unevictable pages and failed reads included: the regions are nonempty, page
   * aligned, ascending, inside the mapping, and no longer than the limit when they are to be dumped.
   */
  lemma CoalescingSafe(c: Scan, answers: seq<Answer>)
    requires Proper(c) && |answers| == PageCount(c)
    ensures Ascending(c, After(c, answers, |answers|).out, c.vma.start, c.vma.end)
  {
    var n := |answers|;
    AfterSteady(c, answers, n);
    if n > 0 {
      PagesWithin(c, n);
    }
  }

  // ---- exactness ---------------------------------------------------------------------------------

  predicate OnPage(c: Scan, i: nat, x: nat) {
    PageAddr(c, i) <= x < PageAddr(c, i) + c.pageSize
  }

  predicate Covered(wants: seq<Want>, x: nat) {
    exists i :: 0 <= i < |wants| && (wants[i].Dump? || wants[i].Free?) && Covers(wants[i].r, x)
  }

  /** The pages a scan is after, when the page could be read and is not pinned. */
  predicate Chosen(c: Scan, a: Answer) {
    a.Entry? && (if c.vma.kind.File? then c.rssFile && a.fileShared else Live(a))
  }

  /** No page is skipped: every read worked and no frame that matters is unevictable. */
  predicate Smooth(c: Scan, answers: seq<Answer>) {
    forall i :: 0 <= i < |answers| ==>
      answers[i].Entry? && (!c.vma.kind.File? ==> !(answers[i].present && answers[i].unevictable))
  }

  /** The cursor holds, in finished regions or in the pending one, exactly the chosen pages so far. */
  ghost predicate Exact(c: Scan, answers: seq<Answer>, cur: Cursor, k: nat)
    requires k <= |answers|
  {
    && (cur.start != 0 ==> cur.start + cur.len == PageAddr(c, k))
    && forall i: nat, x: nat {:trigger OnPage(c, i, x)} :: i < k && OnPage(c, i, x) ==>
         ((Covered(cur.out, x) || Covers(Region(cur.start, cur.len), x)) <==> Chosen(c, answers[i]))
  }

  lemma CoveredFlush(c: Scan, cur: Cursor, x: nat)
    requires cur.start == 0 ==> cur.len == 0
    ensures Covered(Flush(c, cur).out, x) <==> Covered(cur.out, x) || Covers(Region(cur.start, cur.len), x)
    ensures !Covers(Region(Flush(c, cur).start, Flush(c, cur).len), x)
  {
    var after := Flush(c, cur).out;
    if cur.start != 0 {
      assert after[|cur.out|].r == Region(cur.start, cur.len);
      if Covered(cur.out, x) {
        var i :| 0 <= i < |cur.out| && (cur.out[i].Dump? || cur.out[i].Free?) && Covers(cur.out[i].r, x);
        assert after[i] == cur.out[i];
      }
    }
  }

  /** Everything held lies on the pages already visited. */
  lemma HeldBelow(c: Scan, cur: Cursor, here: nat, x: nat)
    requires c.pageSize > 0 && Steady(c, cur, here)
    requires Covered(cur.out, x) || Covers(Region(cur.start, cur.len), x)
    ensures x < here
  {
  }

  lemma VisitExact(c: Scan, answers: seq<Answer>, cur: Cursor, k: nat)
    requires Proper(c) && Smooth(c, answers) && k < |answers|
    requires !c.vma.kind.File? || c.rssFile
    requires Steady(c, cur, PageAddr(c, k)) && Exact(c, answers, cur, k)
    ensures Exact(c, answers, Visit(c, |answers|, cur, k, answers[k]), k + 1)
  {
    var a := answers[k];
    var next := Visit(c, |answers|, cur, k, a);
    assert PageAddr(c, k + 1) == PageAddr(c, k) + c.pageSize;
    var more := if Chosen(c, a) then Extend(c, cur, k) else cur;
    assert next == more || next == Flush(c, more);
    forall i: nat, x: nat | i < k + 1 && OnPage(c, i, x)
      ensures (Covered(next.out, x) || Covers(Region(next.start, next.len), x)) <==> Chosen(c, answers[i])
    {
      CoveredFlush(c, more, x);
      PagesApart(c, i, k, x);
      if i == k && (Covered(cur.out, x) || Covers(Region(cur.start, cur.len), x)) {
        HeldBelow(c, cur, PageAddr(c, k), x);
      }
    }
  }

  lemma PagesApart(c: Scan, i: nat, k: nat, x: nat)
    requires i <= k && OnPage(c, i, x)
    ensures i < k ==> x < PageAddr(c, k)
  {
    if i < k {
      MulOrder(i + 1, k, c.pageSize);
    }
  }

  lemma {:induction false} AfterExact(c: Scan, answers: seq<Answer>, k: nat)
    requires Proper(c) && Smooth(c, answers) && k <= |answers|
    requires !c.vma.kind.File? || c.rssFile
    ensures Exact(c, answers, After(c, answers, k), k)
  {
    if k > 0 {
      AfterExact(c, answers, k - 1);
      AfterSteady(c, answers, k - 1);
      VisitExact(c, answers, After(c, answers, k - 1), k - 1);
    }
  }

  /**
   * Without skipped pages the regions hold exactly the present or swapped pages of an anonymous, heap or stack
   * mapping, and exactly the file pages of a file mapping under --rss-file: no other page, and by
   * CoalescingSafe no page twice.
   */
  lemma CoalescingExact(c: Scan, answers: seq<Answer>)
    requires Proper(c) && Smooth(c, answers)
    requires !c.vma.kind.File? || c.rssFile
    ensures forall i: nat, x: nat {:trigger OnPage(c, i, x)} :: i < |answers| && OnPage(c, i, x) ==>
              (Covered(After(c, answers, |answers|).out, x) <==> Chosen(c, answers[i]))
  {
    var n := |answers|;
    AfterExact(c, answers, n);
    if n > 0 {
      AfterSteady(c, answers, n - 1);
      var cur := After(c, answers, n - 1);
      ExtendSits(c, cur, n - 1);
      assert After(c, answers, n).start == 0 && After(c, answers, n).len == 0;
    }
  }
}
