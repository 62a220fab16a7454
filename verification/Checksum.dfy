/** What the running digest over the dumped regions guarantees, and what a restore without it lets through. */
module Checksum {
  import opened Bytes
  import opened TargetMemory
  import opened DumpCodec

  // ---- the digested stream -----------------------------------------------------------------------

  /** What is fed to the digest for one record: its header and its data, uncompressed. */
  function Fed(rec: Record): (s: seq<Byte>) {
    Header(rec.region) + rec.data
  }

  function Digested(recs: seq<Record>): (s: seq<Byte>) {
    if recs == [] then [] else Fed(recs[0]) + Digested(recs[1..])
  }

  predicate Sized(rec: Record) {
    rec.region.addr < Pow256(8) && rec.region.len < Pow256(8) && |rec.data| == rec.region.len
  }

  predicate AllSized(recs: seq<Record>) {
    forall i :: 0 <= i < |recs| ==> Sized(recs[i])
  }

  lemma {:induction false} DigestedSnoc(recs: seq<Record>, rec: Record)
    ensures Digested(recs + [rec]) == Digested(recs) + Fed(rec)
  {
    if recs == [] {
    } else {
      assert (recs + [rec])[0] == recs[0] && (recs + [rec])[1..] == recs[1..] + [rec];
      DigestedSnoc(recs[1..], rec);
    }
  }

  lemma AppliedOneMore(recs: seq<Record>, rec: Record)
    requires AllSized(recs) && Sized(rec)
    ensures AllSized(recs + [rec])
    ensures forall s: seq<Byte> :: (s + Digested(recs)) + Fed(rec) == s + Digested(recs + [rec])
  {
    hide Fed, Digested;
    DigestedSnoc(recs, rec);
    forall s: seq<Byte> ensures (s + Digested(recs)) + Fed(rec) == s + Digested(recs + [rec]) {
      Regrouped(s, Digested(recs), Fed(rec));
    }
  }

  /** Header and data can be told apart from the bytes that follow. */
  lemma FirstRecord(a: Record, b: Record, s: seq<Byte>, t: seq<Byte>)
    requires Sized(a) && Sized(b)
    requires Fed(a) + s == Fed(b) + t
    ensures a == b && s == t
  {
    hide Header;
    Regrouped(Header(a.region), a.data, s);
    Regrouped(Header(b.region), b.data, t);
    SameHeader(a.region, b.region, a.data + s, b.data + t);
    SplitEqual(a.data, s, b.data, t);
  }

  lemma Regrouped(h: seq<Byte>, d: seq<Byte>, s: seq<Byte>)
    ensures (h + d) + s == h + (d + s)
  {
  }

  lemma SameHeader(p: Region, q: Region, s: seq<Byte>, t: seq<Byte>)
    requires p.addr < Pow256(8) && p.len < Pow256(8) && q.addr < Pow256(8) && q.len < Pow256(8)
    requires Header(p) + s == Header(q) + t
    ensures p == q && s == t
  {
    SplitEqual(Header(p), s, Header(q), t);
    HeaderRoundTrip(p);
    HeaderRoundTrip(q);
  }

  /** Unique decodability: equal streams come from equal lists of records. */
  lemma {:induction false} DigestedInjective(a: seq<Record>, b: seq<Record>)
    requires AllSized(a) && AllSized(b) && Digested(a) == Digested(b)
    ensures a == b
    decreases |a|
  {
    if a == [] || b == [] {
      assert |Digested(a)| == 0 <==> a == [];
      assert |Digested(b)| == 0 <==> b == [];
    } else {
      FirstRecord(a[0], b[0], Digested(a[1..]), Digested(b[1..]));
      DigestedInjective(a[1..], b[1..]);
      assert a == [a[0]] + a[1..] && b == [b[0]] + b[1..];
    }
  }

  /** The digest is taken as collision-free. */
  ghost predicate CollisionFree(digest: seq<Byte> -> seq<Byte>) {
    forall x, y {:trigger digest(x), digest(y)} :: digest(x) == digest(y) ==> x == y
  }

  /** What was applied and what the rest of the file gives make up the whole. */
  ghost predicate Remains(applied: seq<Record>, rest: Restore, all: Restore) {
    rest.ok == all.ok && applied + rest.applied == all.applied && rest.budget == all.budget
  }

  lemma ReadDumpStep(c: Codec, file: seq<Byte>, budget: nat, stale: nat -> Byte, applied: seq<Record>, all: Restore)
    requires Usable(c) && Remains(applied, ReadDump(c, file, budget, stale), all)
    ensures var one := ReadRegion(c, file, budget, stale);
            && (one.NoMore? ==> all == Restore(true, applied, budget))
            && (one.Bad? ==> all == Restore(false, applied, one.budget))
            && (one.Rec? ==> Sized(one.rec)
                             && Remains(applied + [one.rec], ReadDump(c, one.rest, one.budget, stale), all))
  {
    var one := ReadRegion(c, file, budget, stale);
    if one.Rec? {
      var r := ReadDump(c, one.rest, one.budget, stale);
      assert applied + ([one.rec] + r.applied) == (applied + [one.rec]) + r.applied;
    } else {
      assert applied + [] == applied;
    }
  }

  lemma {:induction false} AppliedSized(c: Codec, file: seq<Byte>, budget: nat, stale: nat -> Byte)
    requires Usable(c)
    ensures AllSized(ReadDump(c, file, budget, stale).applied)
    decreases |file|
  {
    var one := ReadRegion(c, file, budget, stale);
    if one.Rec? {
      AppliedSized(c, one.rest, one.budget, stale);
    }
  }

  /**
   * Checksum soundness: for every content of the dump file, if the digest of what the restore applied is the
   * digest of what the checkpoint dumped, then it applied exactly the dumped records, in order.
   */
  lemma ChecksumSound(c: Codec, file: seq<Byte>, budget: nat, stale: nat -> Byte, dumped: seq<Record>,
                      digest: seq<Byte> -> seq<Byte>)
    requires Usable(c) && CollisionFree(digest) && AllSized(dumped)
    requires digest(Digested(ReadDump(c, file, budget, stale).applied)) == digest(Digested(dumped))
    ensures ReadDump(c, file, budget, stale).applied == dumped
  {
    AppliedSized(c, file, budget, stale);
    DigestedInjective(ReadDump(c, file, budget, stale).applied, dumped);
  }

  lemma SameDigest(digest: seq<Byte> -> seq<Byte>, applied: seq<Record>, dumped: seq<Record>)
    requires AllSized(applied) && AllSized(dumped) && digest(Digested(applied)) == digest(Digested(dumped))
    ensures CollisionFree(digest) ==> applied == dumped
  {
    if CollisionFree(digest) {
      DigestedInjective(applied, dumped);
    }
  }

  lemma NothingDigested()
    ensures Digested([]) == []
  {
  }

  lemma WrittenNone(c: Codec)
    requires Lawfully(c.transport)
    ensures WriteDump(c, []) == [] && TotalLen([]) == 0 && Digested([]) == []
  {
  }

  lemma WrittenOneMore(c: Codec, recs: seq<Record>, i: nat)
    requires Lawfully(c.transport) && i < |recs|
    ensures WriteDump(c, recs[..i + 1]) == WriteDump(c, recs[..i]) + WriteRegion(c, recs[i])
    ensures TotalLen(recs[..i + 1]) == TotalLen(recs[..i]) + recs[i].region.len
    ensures Digested(recs[..i + 1]) == Digested(recs[..i]) + Fed(recs[i])
  {
    hide WriteRegion, Fed;
    assert recs[..i + 1] == recs[..i] + [recs[i]];
    assert [recs[i]][1..] == [];
    WriteDumpAppend(c, recs[..i], [recs[i]]);
    TotalLenAppend(recs[..i], [recs[i]]);
    DigestedSnoc(recs[..i], recs[i]);
  }

  lemma StorableSized(c: Codec, recs: seq<Record>)
    requires c.pageSize > 0 && AllStorable(c, recs)
    ensures AllSized(recs)
  {
    Pow256Values();
  }

  // ---- the dump file and its counters ------------------------------------------------------------

  /** The globals behind a dump: the file, dumped_vm_size, and what went into the two digests. */
  class DumpFile {
    const codec: Codec
    const checksum: bool
    const digest: seq<Byte> -> seq<Byte>
    var file: seq<Byte>
    var dumpedVmSize: nat
    var checkpointFed: seq<Byte>
    var restoreFed: seq<Byte>

    constructor (codec: Codec, checksum: bool, digest: seq<Byte> -> seq<Byte>)
      ensures this.codec == codec && this.checksum == checksum && this.digest == digest
      ensures file == [] && dumpedVmSize == 0 && checkpointFed == [] && restoreFed == []
    {
      this.codec, this.checksum, this.digest := codec, checksum, digest;
      file, dumpedVmSize, checkpointFed, restoreFed := [], 0, [], [];
    }

    /** write_vm_region. */
    method WriteVmRegion(rec: Record) returns (ret: int)
      requires Usable(codec) && |rec.data| == rec.region.len
      modifies this`file, this`dumpedVmSize, this`checkpointFed
      ensures rec.region.addr % codec.pageSize != 0 || rec.region.len % codec.pageSize != 0 ==>
                ret == -1 && unchanged(this)
      ensures rec.region.addr % codec.pageSize == 0 && rec.region.len % codec.pageSize == 0 ==>
                && ret == rec.region.len
                && file == old(file) + WriteRegion(codec, rec)
                && dumpedVmSize == old(dumpedVmSize) + rec.region.len
                && checkpointFed == old(checkpointFed) + (if checksum && ret > 0 then Fed(rec) else [])
    {
      hide PackWrite, DumpWrite, Header;
      if rec.region.addr % codec.pageSize != 0 || rec.region.len % codec.pageSize != 0 {
        return -1;
      }
      file := file + DumpWrite(codec.transport, Header(rec.region));
      file := file + PackWrite(codec, rec.data);
      ret := rec.region.len;
      dumpedVmSize := dumpedVmSize + rec.region.len;
      if checksum && ret > 0 {
        checkpointFed := checkpointFed + Header(rec.region);
        checkpointFed := checkpointFed + rec.data;
      }
    }

    /** The dump that get_target_pages writes, region by region. */
    method WriteRecords(recs: seq<Record>)
      requires Usable(codec) && AllStorable(codec, recs)
      modifies this`file, this`dumpedVmSize, this`checkpointFed
      ensures file == old(file) + WriteDump(codec, recs)
      ensures dumpedVmSize == old(dumpedVmSize) + TotalLen(recs)
      ensures checkpointFed == old(checkpointFed) + (if checksum then Digested(recs) else [])
    {
      hide WriteRegion, Fed, WriteDump, TotalLen, Digested;
      WrittenNone(codec);
      for i := 0 to |recs|
        invariant file == old(file) + WriteDump(codec, recs[..i])
        invariant dumpedVmSize == old(dumpedVmSize) + TotalLen(recs[..i])
        invariant checkpointFed == old(checkpointFed) + (if checksum then Digested(recs[..i]) else [])
      {
        WrittenOneMore(codec, recs, i);
        assert Storable(codec, recs[i]);
        var ret := WriteVmRegion(recs[i]);
      }
      assert recs[..|recs|] == recs;
    }

    /**
     * A checkpoint of these records followed by a restore from whatever the file holds by then: the untouched file
     * restores them all; with a checksum and a collision-free digest no other file restores anything else unnoticed.
     */
    method CheckpointRestore(recs: seq<Record>, found: seq<Byte>, stale: nat -> Byte)
      returns (ret: int, applied: seq<Record>)
      requires Working(codec) && AllStorable(codec, recs)
      requires file == [] && dumpedVmSize == 0 && checkpointFed == []
      modifies this
      ensures applied == ReadDump(codec, found, TotalLen(recs), stale).applied
      ensures found == WriteDump(codec, recs) ==> ret == 0 && applied == recs && dumpedVmSize == 0
      ensures checksum && CollisionFree(digest) && ret == 0 ==> applied == recs
    {
      hide WriteDump, ReadDump, Digested, TotalLen;
      WriteRecords(recs);
      file := found;
      StorableSized(codec, recs);
      ReadDumpWrite(codec, recs, stale);
      ret, applied := CmdRestore(stale, recs);
    }

    /** read_vm_region from what is left of the file. */
    method ReadVmRegion(rest: seq<Byte>, stale: nat -> Byte) returns (ret: int, rec: Record, rest': seq<Byte>)
      requires Usable(codec)
      modifies this`dumpedVmSize, this`restoreFed
      ensures var one := ReadRegion(codec, rest, old(dumpedVmSize), stale);
              && (one.Rec? ==> ret > 0 && rec == one.rec && rest' == one.rest && dumpedVmSize == one.budget)
              && (one.NoMore? ==> ret == 0 && dumpedVmSize == old(dumpedVmSize))
              && (one.Bad? ==> ret < 0 && dumpedVmSize == one.budget)
      ensures restoreFed == old(restoreFed) + (if checksum && ret > 0 then Fed(rec) else [])
    {
      rec, rest' := Record(Region(0, 0), []), [];
      var got := DumpRead(codec.transport, rest, HEADER, stale);
      if got.Ended? {
        return 0, rec, rest';
      }
      if got.Failed? {
        return -1, rec, rest';
      }
      var r := FromHeader(got.data);
      if r.len > dumpedVmSize {
        return -1, rec, rest';
      }
      dumpedVmSize := dumpedVmSize - r.len;
      if r.addr % codec.pageSize != 0 || r.len % codec.pageSize != 0 {
        return -1, rec, rest';
      }
      var data := PackRead(codec, got.rest, r.len, stale);
      if data.Failed? {
        return -1, rec, rest';
      }
      ret, rec, rest' := r.len, Record(r, data.data), data.rest;
      if checksum && ret > 0 {
        FeedRestore(rec);
      }
    }

    /** The restore digest takes in the header of a region, then its content. */
    method FeedRestore(rec: Record)
      modifies this`restoreFed
      ensures restoreFed == old(restoreFed) + Fed(rec)
    {
      restoreFed := restoreFed + Header(rec.region);
      restoreFed := restoreFed + rec.data;
    }

    /** One turn of the restore loop, told against the outcome of the whole. */
    method ReadNext(rest: seq<Byte>, stale: nat -> Byte, ghost applied: seq<Record>, ghost all: Restore)
      returns (ret: int, rec: Record, rest': seq<Byte>)
      requires Usable(codec) && Remains(applied, ReadDump(codec, rest, dumpedVmSize, stale), all)
      modifies this`dumpedVmSize, this`restoreFed
      ensures restoreFed == old(restoreFed) + (if checksum && ret > 0 then Fed(rec) else [])
      ensures ret <= 0 ==> all == Restore(ret == 0, applied, dumpedVmSize)
      ensures ret > 0 ==> Sized(rec) && |rest'| < |rest|
      ensures ret > 0 ==> Remains(applied + [rec], ReadDump(codec, rest', dumpedVmSize, stale), all)
    {
      ReadDumpStep(codec, rest, dumpedVmSize, stale, applied, all);
      ret, rec, rest' := ReadVmRegion(rest, stale);
    }

    /** The loop of target_set_pages; `applied` are the records sent to the parasite. */
    method TargetSetPages(stale: nat -> Byte) returns (ret: int, applied: seq<Record>)
      requires Usable(codec)
      modifies this`dumpedVmSize, this`restoreFed
      ensures var r := ReadDump(codec, file, old(dumpedVmSize), stale);
              && (ret == 0 <==> r.ok) && applied == r.applied && dumpedVmSize == r.budget
      ensures restoreFed == old(restoreFed) + (if checksum then Digested(applied) else [])
      ensures AllSized(applied)
    {
      hide ReadDump, Digested, Fed;
      var rest := file;
      applied := [];
      ghost var all := ReadDump(codec, file, dumpedVmSize, stale);
      NothingDigested();
      while true
        invariant AllSized(applied)
        invariant restoreFed == old(restoreFed) + (if checksum then Digested(applied) else [])
        invariant Remains(applied, ReadDump(codec, rest, dumpedVmSize, stale), all)
        decreases |rest|
      {
        var rec: Record;
        ret, rec, rest := ReadNext(rest, stale, applied, all);
        if ret <= 0 {
          return;
        }
        AppliedOneMore(applied, rec);
        applied := applied + [rec];
      }
    }

    /** cmd_restore up to the verdict on the checksum. */
    method CmdRestore(stale: nat -> Byte, ghost dumped: seq<Record>) returns (ret: int, applied: seq<Record>)
      requires Usable(codec) && checkpointFed == (if checksum then Digested(dumped) else []) && AllSized(dumped)
      modifies this`dumpedVmSize, this`restoreFed
      ensures applied == ReadDump(codec, file, old(dumpedVmSize), stale).applied
      ensures dumpedVmSize == ReadDump(codec, file, old(dumpedVmSize), stale).budget
      ensures checksum && CollisionFree(digest) && ret == 0 ==> applied == dumped
      ensures ReadDump(codec, file, old(dumpedVmSize), stale).ok && applied == dumped ==> ret == 0
    {
      hide ReadDump, Digested, AllSized;
      restoreFed := [];
      ret, applied := TargetSetPages(stale);
      if ret != 0 {
        return;
      }
      assert [] + Digested(applied) == Digested(applied);
      ret := CompareDigests(applied, dumped);
    }

    /** The verdict on the two digests. */
    method CompareDigests(ghost applied: seq<Record>, ghost dumped: seq<Record>) returns (ret: int)
      requires checksum ==> restoreFed == Digested(applied) && checkpointFed == Digested(dumped)
      requires AllSized(applied) && AllSized(dumped)
      ensures checksum && CollisionFree(digest) && ret == 0 ==> applied == dumped
      ensures applied == dumped ==> ret == 0
    {
      if checksum && digest(checkpointFed) != digest(restoreFed) {
        return 1;
      }
      if checksum {
        SameDigest(digest, applied, dumped);
      }
      ret := 0;
    }
  }
}
