/**
 * The dump file: region records over compression frames (compress.c) over a transport that is either the
 * plain file or libencrypt's frames. Compression and the block cipher are abstract; framing is not.
 */
module DumpCodec {
  import opened Arithmetic
  import opened Bytes
  import opened TargetMemory
  import opened Cbc

  /** MAX_VM_REGION_SIZE: no region the dumper emits is longer. */
  const MAX_REGION: nat := 1024 * 1024

  /** sizeof(struct vm_region): two 64-bit words. */
  const HEADER: nat := 16

  /** sizeof(uint32_t): the length in front of a compressed block. */
  const PREFIX: nat := 4

  datatype Transport = Raw | Encrypted(cipher: Cipher)

  /**
   * Plain, or a compressor with its decompressor. `unpack(src, cap)` is None on a decompression error and
   * otherwise the bytes written to a destination of capacity cap; `bound` is the size of the source buffer.
   */
  datatype Packing =
    | Plainly
    | Packed(pack: seq<Byte> -> seq<Byte>, unpack: (seq<Byte>, nat) -> Option<seq<Byte>>, bound: nat)

  datatype Codec = Codec(transport: Transport, packing: Packing, pageSize: nat)

  ghost predicate Lawfully(t: Transport) {
    t.Encrypted? ==> Lawful(t.cipher)
  }

  /** All that is needed to run the codec, on whatever bytes. */
  ghost predicate Usable(c: Codec) {
    c.pageSize > 0 && Lawfully(c.transport)
  }

  /** What is assumed of a compressor: it fits its buffer and is undone by its decompressor. */
  ghost predicate Working(c: Codec) {
    && Usable(c)
    && (c.packing.Packed? ==> c.packing.bound < Pow256(PREFIX))
    && (c.packing.Packed? ==>
          forall b: seq<Byte> {:trigger c.packing.pack(b)} :: 0 < |b| <= MAX_REGION ==>
            && 0 < |c.packing.pack(b)| <= c.packing.bound
            && c.packing.unpack(c.packing.pack(b), |b|) == Some(b))
  }

  datatype Record = Record(region: Region, data: seq<Byte>)

  /** A record the dumper may write: vm_region_valid, within the buffer, within 64-bit words. */
  predicate Storable(c: Codec, rec: Record)
    requires c.pageSize > 0
  {
    && rec.region.addr < Pow256(8)
    && rec.region.addr % c.pageSize == 0 && rec.region.len % c.pageSize == 0
    && 0 < rec.region.len <= MAX_REGION
    && |rec.data| == rec.region.len
  }

  predicate AllStorable(c: Codec, recs: seq<Record>)
    requires c.pageSize > 0
  {
    forall i :: 0 <= i < |recs| ==> Storable(c, recs[i])
  }

  lemma StorableTail(c: Codec, recs: seq<Record>)
    requires c.pageSize > 0 && AllStorable(c, recs) && recs != []
    ensures Storable(c, recs[0]) && AllStorable(c, recs[1..])
  {
  }

  /** dump_write: the bytes one call appends to the file. */
  function DumpWrite(t: Transport, b: seq<Byte>): (out: seq<Byte>)
    requires Lawfully(t)
    ensures t.Raw? ==> out == b
  {
    match t
    case Raw => b
    case Encrypted(c) => Frame(c, b)
  }

  /** A caller's buffer of n bytes after s was copied into it; `stale` is what it held before. */
  function Fit(s: seq<Byte>, stale: nat -> Byte, n: nat): (b: seq<Byte>)
    ensures |b| == n
    ensures |s| == n ==> b == s
  {
    seq(n, i requires 0 <= i < n => if i < |s| then s[i] else stale(i))
  }

  datatype Got = Bytes(data: seq<Byte>, rest: seq<Byte>) | Ended | Failed

  /**
   * dump_read of count bytes. On the plain file a short read looks like the end of file, even after some
   * bytes (memcr.c, __read); a count of zero trips an assertion there. lib__read of zero bytes returns zero,
   * which is what was asked for.
   */
  function DumpRead(t: Transport, file: seq<Byte>, count: nat, stale: nat -> Byte): (r: Got)
    requires Lawfully(t)
    ensures r.Bytes? ==> |r.rest| <= |file| && |r.data| == count
    ensures r.Bytes? && count > 0 ==> |r.rest| < |file|
  {
    match t
    case Raw =>
      if count == 0 then Failed
      else if count <= |file| then Bytes(file[..count], file[count..])
      else Ended
    case Encrypted(c) =>
      if count == 0 then Bytes([], file) else
      match ReadFrame(c, file, count)
      case End => Ended
      case Corrupt => Failed
      case Plain(p, rest) => Bytes(Fit(p, stale, count), rest)
  }

  lemma DumpReadWrite(t: Transport, b: seq<Byte>, rest: seq<Byte>, stale: nat -> Byte)
    requires Lawfully(t)
    requires b != []
    ensures DumpRead(t, DumpWrite(t, b) + rest, |b|, stale) == Bytes(b, rest)
  {
    match t
    case Raw =>
      assert (b + rest)[..|b|] == b && (b + rest)[|b|..] == rest;
    case Encrypted(c) =>
      ReadFrameRoundTrip(c, b, rest);
  }

  /** compress_write: plain_write, or the length-prefixed block of lz4_write and zstd_write. */
  function PackWrite(c: Codec, data: seq<Byte>): (out: seq<Byte>)
    requires Lawfully(c.transport)
  {
    match c.packing
    case Plainly => DumpWrite(c.transport, data)
    case Packed(pack, _, _) =>
      var z := pack(data);
      DumpWrite(c.transport, Le(|z|, PREFIX)) + DumpWrite(c.transport, z)
  }

  /** compress_read of len bytes: anything but success is an error, also a clean end of file. */
  function PackRead(c: Codec, file: seq<Byte>, len: nat, stale: nat -> Byte): (r: Got)
    requires Lawfully(c.transport)
    ensures !r.Ended?
    ensures r.Bytes? ==> |r.rest| <= |file| && |r.data| == len
  {
    match c.packing
    case Plainly =>
      var r := DumpRead(c.transport, file, len, stale);
      if r.Ended? then Failed else r
    case Packed(_, unpack, bound) =>
      match DumpRead(c.transport, file, PREFIX, stale)
      case Ended => Failed
      case Failed => Failed
      case Bytes(prefix, rest) =>
        if FromLe(prefix) > bound then Failed else
          match DumpRead(c.transport, rest, FromLe(prefix), stale)
          case Ended => Failed
          case Failed => Failed
          case Bytes(z, rest') =>
            match unpack(z, len)
            case None => Failed
            case Some(b) => Bytes(Fit(b, stale, len), rest')
  }

  lemma PackReadWrite(c: Codec, data: seq<Byte>, rest: seq<Byte>, stale: nat -> Byte)
    requires Working(c) && 0 < |data| <= MAX_REGION
    ensures PackRead(c, PackWrite(c, data) + rest, |data|, stale) == Bytes(data, rest)
  {
    match c.packing
    case Plainly =>
      DumpReadWrite(c.transport, data, rest, stale);
    case Packed(pack, unpack, bound) =>
      var z := pack(data);
      var prefix := Le(|z|, PREFIX);
      LeRoundTrip(|z|, PREFIX);
      var tail := DumpWrite(c.transport, z) + rest;
      assert PackWrite(c, data) + rest == DumpWrite(c.transport, prefix) + tail;
      DumpReadWrite(c.transport, prefix, tail, stale);
      DumpReadWrite(c.transport, z, rest, stale);
  }

  function Header(r: Region): (b: seq<Byte>)
    ensures |b| == HEADER
  {
    Le(r.addr, 8) + Le(r.len, 8)
  }

  function FromHeader(b: seq<Byte>): (r: Region)
    requires |b| == HEADER
  {
    Region(FromLe(b[..8]), FromLe(b[8..]))
  }

  lemma HeaderRoundTrip(r: Region)
    requires r.addr < Pow256(8) && r.len < Pow256(8)
    ensures FromHeader(Header(r)) == r
  {
    LeRoundTrip(r.addr, 8);
    LeRoundTrip(r.len, 8);
    assert Header(r)[..8] == Le(r.addr, 8) && Header(r)[8..] == Le(r.len, 8);
  }

  /** write_vm_region. */
  function WriteRegion(c: Codec, rec: Record): (out: seq<Byte>)
    requires Lawfully(c.transport)
  {
    DumpWrite(c.transport, Header(rec.region)) + PackWrite(c, rec.data)
  }

  /** Outcome of read_vm_region: a record, the end of the file (return value 0), or an error. */
  datatype RegionRead = Rec(rec: Record, rest: seq<Byte>, budget: nat) | NoMore | Bad(budget: nat)

  /**
   * read_vm_region with `budget` standing for dumped_vm_size. The length is checked against the budget and
   * charged to it before the alignment check; a record of length zero that decodes ends the restore loop.
   */
  function ReadRegion(c: Codec, file: seq<Byte>, budget: nat, stale: nat -> Byte): (r: RegionRead)
    requires Usable(c)
    ensures r.Bad? ==> r.budget <= budget
    ensures r.Rec? ==> |r.rest| < |file|
    ensures r.Rec? ==> r.budget + r.rec.region.len == budget && r.rec.region.len > 0
    ensures r.Rec? ==> |r.rec.data| == r.rec.region.len
    ensures r.Rec? ==> r.rec.region.addr < Pow256(8) && r.rec.region.len < Pow256(8)
    ensures r.Rec? ==> r.rec.region.addr % c.pageSize == 0 && r.rec.region.len % c.pageSize == 0
  {
    match DumpRead(c.transport, file, HEADER, stale)
    case Ended => NoMore
    case Failed => Bad(budget)
    case Bytes(header, rest) =>
      var r := FromHeader(header);
      if r.len > budget then Bad(budget)
      else if r.addr % c.pageSize != 0 || r.len % c.pageSize != 0 then Bad(budget - r.len)
      else match PackRead(c, rest, r.len, stale)
        case Failed => Bad(budget - r.len)
        case Bytes(data, rest') =>
          if r.len == 0 then NoMore else Rec(Record(r, data), rest', budget - r.len)
  }

  lemma ReadRegionWrite(c: Codec, rec: Record, rest: seq<Byte>, budget: nat, stale: nat -> Byte)
    requires Working(c) && Storable(c, rec) && rec.region.len <= budget
    ensures ReadRegion(c, WriteRegion(c, rec) + rest, budget, stale)
         == Rec(rec, rest, budget - rec.region.len)
  {
    var tail := PackWrite(c, rec.data) + rest;
    assert WriteRegion(c, rec) + rest == DumpWrite(c.transport, Header(rec.region)) + tail;
    DumpReadWrite(c.transport, Header(rec.region), tail, stale);
    Pow256Values();
    HeaderRoundTrip(rec.region);
    PackReadWrite(c, rec.data, rest, stale);
  }

  /** The file a checkpoint leaves behind. */
  function WriteDump(c: Codec, recs: seq<Record>): (file: seq<Byte>)
    requires Lawfully(c.transport)
  {
    if recs == [] then [] else WriteRegion(c, recs[0]) + WriteDump(c, recs[1..])
  }

  lemma {:induction false} WriteDumpAppend(c: Codec, a: seq<Record>, b: seq<Record>)
    requires Lawfully(c.transport)
    ensures WriteDump(c, a + b) == WriteDump(c, a) + WriteDump(c, b)
  {
    if a == [] {
      assert a + b == b;
    } else {
      assert (a + b)[0] == a[0] && (a + b)[1..] == a[1..] + b;
      WriteDumpAppend(c, a[1..], b);
    }
  }

  /** dumped_vm_size after the records were written: the sum of their lengths. */
  function TotalLen(recs: seq<Record>): (n: nat) {
    if recs == [] then 0 else recs[0].region.len + TotalLen(recs[1..])
  }

  lemma {:induction false} TotalLenAppend(a: seq<Record>, b: seq<Record>)
    ensures TotalLen(a + b) == TotalLen(a) + TotalLen(b)
  {
    if a == [] {
      assert a + b == b;
    } else {
      assert (a + b)[0] == a[0] && (a + b)[1..] == a[1..] + b;
      TotalLenAppend(a[1..], b);
    }
  }

  /** What target_set_pages did: its success, the records it sent to the parasite, and the budget left. */
  datatype Restore = Restore(ok: bool, applied: seq<Record>, budget: nat)

  /** The loop of target_set_pages, when writes to the parasite succeed. */
  function ReadDump(c: Codec, file: seq<Byte>, budget: nat, stale: nat -> Byte): (r: Restore)
    requires Usable(c)
    ensures TotalLen(r.applied) + r.budget <= budget
    decreases |file|
  {
    match ReadRegion(c, file, budget, stale)
    case NoMore => Restore(true, [], budget)
    case Bad(budget') => Restore(false, [], budget')
    case Rec(rec, rest, budget') =>
      var r := ReadDump(c, rest, budget', stale);
      assert ([rec] + r.applied)[1..] == r.applied;
      Restore(r.ok, [rec] + r.applied, r.budget)
  }

  /** A dump reads back as the records written, in order, and uses up dumped_vm_size exactly. */
  lemma {:induction false} ReadDumpWrite(c: Codec, recs: seq<Record>, stale: nat -> Byte)
    requires Working(c) && AllStorable(c, recs)
    ensures ReadDump(c, WriteDump(c, recs), TotalLen(recs), stale) == Restore(true, recs, 0)
  {
    if recs == [] {
      assert DumpRead(c.transport, [], HEADER, stale) == Ended;
    } else {
      hide ReadRegion, WriteRegion;
      StorableTail(c, recs);
      ReadRegionWrite(c, recs[0], WriteDump(c, recs[1..]), TotalLen(recs), stale);
      ReadDumpWrite(c, recs[1..], stale);
      assert [recs[0]] + recs[1..] == recs;
    }
  }

  // ---- the buffer of the restore loop ------------------------------------------------------------

  /** The length read_vm_region asks compress_read to put into its caller's buffer, if it gets that far. */
  function PayloadLen(c: Codec, file: seq<Byte>, budget: nat, stale: nat -> Byte): Option<nat>
    requires Usable(c)
  {
    var got := DumpRead(c.transport, file, HEADER, stale);
    if !got.Bytes? then None
    else
      var r := FromHeader(got.data);
      if r.len > budget || r.addr % c.pageSize != 0 || r.len % c.pageSize != 0 then None else Some(r.len)
  }

  /**
   * target_set_pages reads into a buffer of MAX_REGION bytes, and the only bound on a length in the file is what was
   * dumped in all. For every content of the file the buffer is large enough exactly when that is less than one page
   * more.
   */
  lemma BufferFitsIff(c: Codec, budget: nat)
    requires Usable(c) && MAX_REGION % c.pageSize == 0
    ensures (forall file: seq<Byte>, stale: nat -> Byte {:trigger PayloadLen(c, file, budget, stale)} ::
               PayloadLen(c, file, budget, stale).Some? ==> PayloadLen(c, file, budget, stale).value <= MAX_REGION)
            <==> budget < MAX_REGION + c.pageSize
  {
    if budget < MAX_REGION + c.pageSize {
      forall file: seq<Byte>, stale: nat -> Byte | PayloadLen(c, file, budget, stale).Some?
        ensures PayloadLen(c, file, budget, stale).value <= MAX_REGION
      {
        var len := PayloadLen(c, file, budget, stale).value;
        if MAX_REGION < len {
          MultiplesApart(MAX_REGION, len, c.pageSize);
        }
      }
    } else {
      var stale := (i: nat) => 0 as Byte;
      LongRecord(c, budget, stale);
    }
  }

  lemma LongRecord(c: Codec, budget: nat, stale: nat -> Byte)
    requires Usable(c) && MAX_REGION % c.pageSize == 0 && budget >= MAX_REGION + c.pageSize
    ensures PayloadLen(c, DumpWrite(c.transport, Header(Region(0, MAX_REGION + c.pageSize))), budget, stale)
         == Some(MAX_REGION + c.pageSize)
  {
    var r := Region(0, MAX_REGION + c.pageSize);
    var file := DumpWrite(c.transport, Header(r));
    MultiplesApart(0, MAX_REGION, c.pageSize);
    Pow256Values();
    HeaderRoundTrip(r);
    assert file + [] == file;
    DumpReadWrite(c.transport, Header(r), [], stale);
    ModStep(MAX_REGION, c.pageSize);
  }
}
