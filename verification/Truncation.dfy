/**
 * A dump that lost its end, restored without a checksum. On the plain file a cut inside a record header looks like
 * the end of the file; on the encrypted file a cut inside a payload can look like its padding. The budget that is left
 * over is not looked at.
 */
module Truncation {
  import opened Bytes
  import opened Cbc
  import opened DumpCodec

  // ---- where a cut goes unnoticed ----------------------------------------------------------------

  /** Where the header of record k starts in the file. */
  function Offset(c: Codec, recs: seq<Record>, k: nat): nat
    requires Lawfully(c.transport) && k <= |recs|
  {
    |WriteDump(c, recs[..k])|
  }

  /** Length of a record header in the file. */
  function HeaderLen(c: Codec): nat {
    if c.transport.Raw? then HEADER else RoundUp(HEADER)
  }

  /** The file was cut just before the header of record k or, on the plain file, inside it. */
  predicate CutAt(c: Codec, recs: seq<Record>, n: nat, k: nat)
    requires Lawfully(c.transport)
  {
    && k < |recs|
    && Offset(c, recs, k) <= n < Offset(c, recs, k) + (if c.transport.Raw? then HEADER else 1)
  }

  /**
   * What is restored of a payload that was cut at q, if the cut goes unnoticed: on the encrypted file, at a block
   * boundary where the bytes before it end in valid padding and, when compressed, still decompress.
   */
  function Slip(c: Codec, data: seq<Byte>, q: nat, stale: nat -> Byte): (d: Option<seq<Byte>>)
    ensures d.Some? ==> |d.value| == |data|
  {
    if c.transport.Raw? then None
    else match c.packing
      case Plainly => SlipFrame(data, q, stale)
      case Packed(pack, unpack, _) =>
        if q < RoundUp(PREFIX) then None
        else match SlipFrame(pack(data), q - RoundUp(PREFIX), stale)
          case None => None
          case Some(z) => match unpack(z, |data|) case None => None case Some(b) => Some(Fit(b, stale, |data|))
  }

  /** The same for one encrypted frame: what the caller's buffer holds afterwards. */
  function SlipFrame(p: seq<Byte>, q: nat, stale: nat -> Byte): (b: Option<seq<Byte>>)
    ensures b.Some? ==> |b.value| == |p|
  {
    if q == 0 || q % BLOCK != 0 || q > |p| then None
    else match Unpad(p[..q]) case None => None case Some(x) => Some(Fit(x, stale, |p|))
  }

  /** The file was cut inside the payload of record k, unnoticed. */
  predicate SlipAt(c: Codec, recs: seq<Record>, n: nat, k: nat, stale: nat -> Byte)
    requires Lawfully(c.transport)
  {
    && k < |recs|
    && Offset(c, recs, k) + HeaderLen(c) <= n < Offset(c, recs, k) + |WriteRegion(c, recs[k])|
    && Slip(c, recs[k].data, n - Offset(c, recs, k) - HeaderLen(c), stale).Some?
  }

  /** What is applied of the record in which such a cut lies. */
  function Damaged(c: Codec, recs: seq<Record>, n: nat, k: nat, stale: nat -> Byte): Record
    requires Lawfully(c.transport) && SlipAt(c, recs, n, k, stale)
  {
    Record(recs[k].region, Slip(c, recs[k].data, n - Offset(c, recs, k) - HeaderLen(c), stale).value)
  }

  lemma OffsetTail(c: Codec, recs: seq<Record>, k: nat)
    requires Lawfully(c.transport) && 0 < k <= |recs|
    ensures Offset(c, recs, k) == |WriteRegion(c, recs[0])| + Offset(c, recs[1..], k - 1)
  {
    assert recs[..k] == [recs[0]] + recs[1..][..k - 1];
    assert recs[..k][1..] == recs[1..][..k - 1];
  }

  // ---- one record --------------------------------------------------------------------------------

  lemma CutFrameRead(c: Codec, p: seq<Byte>, q: nat, stale: nat -> Byte)
    requires Lawfully(c.transport) && c.transport.Encrypted? && p != [] && q < |DumpWrite(c.transport, p)|
    ensures DumpRead(c.transport, DumpWrite(c.transport, p)[..q], |p|, stale)
         == match SlipFrame(p, q, stale)
            case Some(b) => Got.Bytes(b, [])
            case None => if q == 0 then Ended else Failed
  {
    CutFrame(c.transport.cipher, p, q);
  }

  lemma CutRaw(c: Codec, data: seq<Byte>, q: nat, stale: nat -> Byte)
    requires Working(c) && c.transport.Raw? && 0 < |data| <= MAX_REGION && q < |PackWrite(c, data)|
    ensures PackRead(c, PackWrite(c, data)[..q], |data|, stale) == Failed
  {
    match c.packing
    case Plainly =>
    case Packed(pack, unpack, bound) =>
      var z := pack(data);
      var file := PackWrite(c, data)[..q];
      if q >= PREFIX {
        LeRoundTrip(|z|, PREFIX);
        assert file[..PREFIX] == Le(|z|, PREFIX);
        assert |file[PREFIX..]| < |z|;
      }
  }

  lemma CutPacked(c: Codec, data: seq<Byte>, q: nat, stale: nat -> Byte)
    requires Working(c) && c.transport.Encrypted? && c.packing.Packed?
    requires 0 < |data| <= MAX_REGION && q < |PackWrite(c, data)|
    ensures PackRead(c, PackWrite(c, data)[..q], |data|, stale)
         == match Slip(c, data, q, stale) case Some(d) => Got.Bytes(d, []) case None => Failed
  {
    hide Le, FromLe, DumpRead, DumpWrite, SlipFrame, Fit;
    var z := c.packing.pack(data);
    var prefix, body := DumpWrite(c.transport, Le(|z|, PREFIX)), DumpWrite(c.transport, z);
    LeRoundTrip(|z|, PREFIX);
    PrefixLen(c, |z|);
    if q < |prefix| {
      assert PackWrite(c, data)[..q] == prefix[..q];
      CutFrameRead(c, Le(|z|, PREFIX), q, stale);
      ShortSlips(Le(|z|, PREFIX), q, stale);
    } else {
      assert PackWrite(c, data)[..q] == prefix + body[..q - |prefix|];
      DumpReadWrite(c.transport, Le(|z|, PREFIX), body[..q - |prefix|], stale);
      CutFrameRead(c, z, q - |prefix|, stale);
    }
  }

  lemma PrefixLen(c: Codec, n: nat)
    requires Lawfully(c.transport) && c.transport.Encrypted?
    ensures |DumpWrite(c.transport, Le(n, PREFIX))| == RoundUp(PREFIX)
  {
  }

  /** A frame of less than a block has no block boundary to be cut at. */
  lemma ShortSlips(p: seq<Byte>, q: nat, stale: nat -> Byte)
    requires |p| < BLOCK
    ensures SlipFrame(p, q, stale) == None
  {
  }

  /** A payload cut short is an error, or slips through as said: on every transport, with every compression. */
  lemma CutPayload(c: Codec, data: seq<Byte>, q: nat, stale: nat -> Byte)
    requires Working(c) && 0 < |data| <= MAX_REGION && q < |PackWrite(c, data)|
    ensures PackRead(c, PackWrite(c, data)[..q], |data|, stale)
         == match Slip(c, data, q, stale) case Some(d) => Got.Bytes(d, []) case None => Failed
  {
    if c.transport.Raw? {
      CutRaw(c, data, q, stale);
    } else if c.packing.Packed? {
      CutPacked(c, data, q, stale);
    } else {
      CutFrameRead(c, data, q, stale);
    }
  }

  /** The last byte of a header is the top byte of a small length, which is no padding. */
  lemma HeaderTop(c: Codec, rec: Record)
    requires c.pageSize > 0 && Storable(c, rec)
    ensures Unpad(Header(rec.region)) == None
  {
    Pow256Values();
    TopByte(rec.region.len);
    assert Header(rec.region)[HEADER - 1] == Le(rec.region.len, 8)[7];
  }

  lemma TopByte(n: nat)
    requires n <= MAX_REGION
    ensures Le(n, 8)[7] == 0
  {
    Pow256Values();
    assert Pow256(6) == 256 * (256 * Pow256(4)) && Pow256(7) == 256 * Pow256(6);
    LeTop(n, 8);
  }

  lemma {:induction false} LeTop(n: nat, k: nat)
    requires k > 0 && n < Pow256(k - 1)
    ensures Le(n, k)[k - 1] == 0
  {
    if k > 1 {
      assert n / 256 < Pow256(k - 2);
      LeTop(n / 256, k - 1);
    }
  }

  lemma CutHeader(c: Codec, rec: Record, m: nat, budget: nat, stale: nat -> Byte)
    requires Working(c) && Storable(c, rec) && m < HeaderLen(c)
    ensures HeaderLen(c) == |DumpWrite(c.transport, Header(rec.region))|
    ensures ReadRegion(c, DumpWrite(c.transport, Header(rec.region))[..m], budget, stale)
         == if c.transport.Raw? || m == 0 then NoMore else Bad(budget)
  {
    hide Header, FromHeader, Frame, ReadFrame, PackRead, Slip;
    HeaderFrame(c, rec);
    if c.transport.Encrypted? {
      HeaderSlips(c, rec, m, stale);
      CutFrameRead(c, Header(rec.region), m, stale);
    }
  }

  lemma HeaderFrame(c: Codec, rec: Record)
    requires Lawfully(c.transport)
    ensures |DumpWrite(c.transport, Header(rec.region))| == HeaderLen(c)
  {
  }

  /** No cut of a header looks like padding. */
  lemma HeaderSlips(c: Codec, rec: Record, m: nat, stale: nat -> Byte)
    requires c.pageSize > 0 && Storable(c, rec) && m < RoundUp(HEADER)
    ensures SlipFrame(Header(rec.region), m, stale) == None
  {
    hide Header;
    HeaderTop(c, rec);
    if m == HEADER {
      assert Header(rec.region)[..m] == Header(rec.region);
    }
  }

  /** read_vm_region on what a cut at m leaves of a record. */
  lemma CutRecord(c: Codec, rec: Record, m: nat, budget: nat, stale: nat -> Byte)
    requires Working(c) && Storable(c, rec) && rec.region.len <= budget && HeaderLen(c) <= m < |WriteRegion(c, rec)|
    ensures ReadRegion(c, WriteRegion(c, rec)[..m], budget, stale)
         == match Slip(c, rec.data, m - HeaderLen(c), stale)
            case Some(d) => Rec(Record(rec.region, d), [], budget - rec.region.len)
            case None => Bad(budget - rec.region.len)
  {
    hide ReadRegion, PackRead, PackWrite, DumpWrite, Header, Slip;
    RegionPieces(c, rec, m);
    var left := PackWrite(c, rec.data)[..m - HeaderLen(c)];
    CutPayload(c, rec.data, m - HeaderLen(c), stale);
    HeaderThen(c, rec, left, budget, stale);
  }

  lemma RegionPieces(c: Codec, rec: Record, m: nat)
    requires Lawfully(c.transport) && HeaderLen(c) <= m < |WriteRegion(c, rec)|
    ensures m - HeaderLen(c) < |PackWrite(c, rec.data)|
    ensures WriteRegion(c, rec)[..m]
         == DumpWrite(c.transport, Header(rec.region)) + PackWrite(c, rec.data)[..m - HeaderLen(c)]
  {
  }

  /** read_vm_region on a whole header and whatever follows it. */
  lemma HeaderThen(c: Codec, rec: Record, rest: seq<Byte>, budget: nat, stale: nat -> Byte)
    requires Working(c) && Storable(c, rec) && rec.region.len <= budget
    ensures var payload := PackRead(c, rest, rec.region.len, stale);
            ReadRegion(c, DumpWrite(c.transport, Header(rec.region)) + rest, budget, stale)
            == if payload.Bytes? then Rec(Record(rec.region, payload.data), payload.rest, budget - rec.region.len)
               else Bad(budget - rec.region.len)
  {
    DumpReadWrite(c.transport, Header(rec.region), rest, stale);
    Pow256Values();
    HeaderRoundTrip(rec.region);
  }

  // ---- the whole file ----------------------------------------------------------------------------

  lemma ReadNothing(c: Codec, budget: nat, stale: nat -> Byte)
    requires Usable(c)
    ensures ReadDump(c, [], budget, stale) == Restore(true, [], budget)
  {
  }

  lemma ReadDumpRec(c: Codec, file: seq<Byte>, rec: Record, rest: seq<Byte>, budget: nat, left: nat,
                    stale: nat -> Byte)
    requires Usable(c) && ReadRegion(c, file, budget, stale) == Rec(rec, rest, left)
    ensures var tail := ReadDump(c, rest, left, stale);
            ReadDump(c, file, budget, stale) == Restore(tail.ok, [rec] + tail.applied, tail.budget)
  {
  }

  /** The restore of a dump cut at n: it succeeds only as said for record k, and fails only if it can for none. */
  ghost predicate Verdict(c: Codec, recs: seq<Record>, n: nat, k: nat, r: Restore, stale: nat -> Byte)
    requires Lawfully(c.transport)
  {
    && (r.ok ==> Outcome(c, recs, n, k, r.applied, stale))
    && (!r.ok ==> forall i :: 0 <= i < |recs| ==> !CutAt(c, recs, n, i) && !SlipAt(c, recs, n, i, stale))
  }

  /**
   * What is applied when the cut is at record k: the records before it and, if the cut slipped through, its remains.
   */
  ghost predicate Outcome(c: Codec, recs: seq<Record>, n: nat, k: nat, applied: seq<Record>, stale: nat -> Byte)
    requires Lawfully(c.transport)
  {
    || (CutAt(c, recs, n, k) && applied == recs[..k])
    || (SlipAt(c, recs, n, k, stale) && applied == recs[..k] + [Damaged(c, recs, n, k, stale)])
  }

  lemma CutVeryFirst(c: Codec, recs: seq<Record>, n: nat, budget: nat, stale: nat -> Byte)
    requires Working(c) && recs != [] && Storable(c, recs[0]) && n < HeaderLen(c) && n < |WriteDump(c, recs)|
    ensures Verdict(c, recs, n, 0, ReadDump(c, WriteDump(c, recs)[..n], budget, stale), stale)
  {
    CutHeader(c, recs[0], n, budget, stale);
    assert WriteDump(c, recs)[..n] == DumpWrite(c.transport, Header(recs[0].region))[..n];
    assert Offset(c, recs, 0) == 0;
    LaterRecords(c, recs, n);
  }

  /** A position in the first record is in no later one. */
  lemma LaterRecords(c: Codec, recs: seq<Record>, n: nat)
    requires Lawfully(c.transport) && recs != [] && n < |WriteRegion(c, recs[0])|
    ensures forall i :: 0 < i < |recs| ==> Offset(c, recs, i) > n
  {
    forall i | 0 < i < |recs| ensures Offset(c, recs, i) > n {
      OffsetTail(c, recs, i);
    }
  }

  /** A file that is nothing but a record cut after its header. */
  lemma ReadCutRecord(c: Codec, rec: Record, n: nat, budget: nat, stale: nat -> Byte)
    requires Working(c) && Storable(c, rec) && rec.region.len <= budget && HeaderLen(c) <= n < |WriteRegion(c, rec)|
    ensures ReadDump(c, WriteRegion(c, rec)[..n], budget, stale)
         == match Slip(c, rec.data, n - HeaderLen(c), stale)
            case Some(d) => Restore(true, [Record(rec.region, d)], budget - rec.region.len)
            case None => Restore(false, [], budget - rec.region.len)
  {
    var file, left := WriteRegion(c, rec)[..n], budget - rec.region.len;
    var slip := Slip(c, rec.data, n - HeaderLen(c), stale);
    CutRecord(c, rec, n, budget, stale);
    if slip.Some? {
      ReadDumpRec(c, file, Record(rec.region, slip.value), [], budget, left, stale);
      ReadNothing(c, left, stale);
    }
  }

  /** A cut in the first record, after its header. */
  lemma CutFirst(c: Codec, recs: seq<Record>, n: nat, budget: nat, stale: nat -> Byte)
    requires Working(c) && recs != [] && Storable(c, recs[0]) && recs[0].region.len <= budget
    requires HeaderLen(c) <= n < |WriteRegion(c, recs[0])|
    ensures Verdict(c, recs, n, 0, ReadDump(c, WriteDump(c, recs)[..n], budget, stale), stale)
  {
    assert WriteDump(c, recs)[..n] == WriteRegion(c, recs[0])[..n];
    ReadCutRecord(c, recs[0], n, budget, stale);
    FirstVerdict(c, recs, n, ReadDump(c, WriteRegion(c, recs[0])[..n], budget, stale), stale);
  }

  lemma CutInFirst(c: Codec, recs: seq<Record>, n: nat, budget: nat, stale: nat -> Byte)
    requires Working(c) && recs != [] && Storable(c, recs[0]) && recs[0].region.len <= budget
    requires n < |WriteRegion(c, recs[0])|
    ensures n < |WriteDump(c, recs)|
    ensures Verdict(c, recs, n, 0, ReadDump(c, WriteDump(c, recs)[..n], budget, stale), stale)
  {
    if n < HeaderLen(c) {
      CutVeryFirst(c, recs, n, budget, stale);
    } else {
      CutFirst(c, recs, n, budget, stale);
    }
  }

  lemma FirstVerdict(c: Codec, recs: seq<Record>, n: nat, r: Restore, stale: nat -> Byte)
    requires Lawfully(c.transport) && recs != [] && HEADER <= HeaderLen(c) <= n < |WriteRegion(c, recs[0])|
    requires var slip := Slip(c, recs[0].data, n - HeaderLen(c), stale);
             && r.ok == slip.Some?
             && (r.ok ==> r.applied == [Record(recs[0].region, slip.value)])
    ensures Verdict(c, recs, n, 0, r, stale)
  {
    assert Offset(c, recs, 0) == 0;
    LaterRecords(c, recs, n);
    assert forall k :: 0 <= k < |recs| && k != 0 ==> !CutAt(c, recs, n, k) && !SlipAt(c, recs, n, k, stale);
    if r.ok {
      assert recs[..0] + r.applied == r.applied;
    }
  }

  lemma CutPieces(c: Codec, recs: seq<Record>, n: nat, m: nat)
    requires Lawfully(c.transport) && recs != []
    requires n == |WriteRegion(c, recs[0])| + m && m <= |WriteDump(c, recs[1..])|
    ensures n <= |WriteDump(c, recs)|
    ensures WriteDump(c, recs)[..n] == WriteRegion(c, recs[0]) + WriteDump(c, recs[1..])[..m]
  {
  }

  /** A cut seen from the second record on is the same cut. */
  lemma CutShifts(c: Codec, recs: seq<Record>, n: nat, m: nat, k: nat, stale: nat -> Byte)
    requires Lawfully(c.transport) && recs != [] && n == |WriteRegion(c, recs[0])| + m && k + 1 < |recs|
    ensures CutAt(c, recs, n, k + 1) <==> CutAt(c, recs[1..], m, k)
    ensures SlipAt(c, recs, n, k + 1, stale) <==> SlipAt(c, recs[1..], m, k, stale)
    ensures SlipAt(c, recs, n, k + 1, stale) ==>
              Damaged(c, recs, n, k + 1, stale) == Damaged(c, recs[1..], m, k, stale)
  {
    OffsetTail(c, recs, k + 1);
  }

  lemma OutcomeShifts(c: Codec, recs: seq<Record>, n: nat, m: nat, k: nat, applied: seq<Record>, stale: nat -> Byte)
    requires Lawfully(c.transport) && recs != [] && n == |WriteRegion(c, recs[0])| + m
    requires Outcome(c, recs[1..], m, k, applied, stale)
    ensures Outcome(c, recs, n, k + 1, [recs[0]] + applied, stale)
  {
    hide WriteRegion, Slip, Offset, WriteDump;
    CutShifts(c, recs, n, m, k, stale);
    assert [recs[0]] + recs[1..][..k] == recs[..k + 1];
    if SlipAt(c, recs[1..], m, k, stale) {
      var d := [Damaged(c, recs[1..], m, k, stale)];
      assert [recs[0]] + (recs[1..][..k] + d) == recs[..k + 1] + d;
    }
  }

  lemma CutTail(c: Codec, recs: seq<Record>, n: nat, m: nat, k: nat, tail: Restore, stale: nat -> Byte)
    requires Lawfully(c.transport) && recs != [] && n == |WriteRegion(c, recs[0])| + m
    requires |WriteRegion(c, recs[0])| >= HeaderLen(c)
    requires Verdict(c, recs[1..], m, k, tail, stale)
    ensures Verdict(c, recs, n, k + 1, Restore(tail.ok, [recs[0]] + tail.applied, tail.budget), stale)
  {
    if tail.ok {
      OutcomeShifts(c, recs, n, m, k, tail.applied, stale);
    } else {
      assert Offset(c, recs, 0) == 0;
      forall i | 0 <= i < |recs| ensures !CutAt(c, recs, n, i) && !SlipAt(c, recs, n, i, stale) {
        if i > 0 {
          CutShifts(c, recs, n, m, i - 1, stale);
        }
      }
    }
  }

  /** A cut after the first record: that record is applied, and the rest is a dump cut earlier. */
  lemma CutRest(c: Codec, rec: Record, file: seq<Byte>, rest: seq<Byte>, budget: nat, stale: nat -> Byte, tail: Restore)
    requires Working(c) && Storable(c, rec) && rec.region.len <= budget && file == WriteRegion(c, rec) + rest
    requires tail == ReadDump(c, rest, budget - rec.region.len, stale)
    ensures ReadDump(c, file, budget, stale) == Restore(tail.ok, [rec] + tail.applied, tail.budget)
  {
    hide ReadRegion, WriteRegion, ReadDump;
    ReadRegionWrite(c, rec, rest, budget, stale);
    ReadDumpRec(c, file, rec, rest, budget, budget - rec.region.len, stale);
  }

  lemma HeaderFits(c: Codec, rec: Record)
    requires Lawfully(c.transport)
    ensures |WriteRegion(c, rec)| >= HeaderLen(c)
  {
  }

  lemma PeelCut(c: Codec, recs: seq<Record>, n: nat, budget: nat)
    requires Working(c) && n < |WriteDump(c, recs)| && TotalLen(recs) <= budget && AllStorable(c, recs)
    ensures recs != [] && Storable(c, recs[0]) && recs[0].region.len <= budget
    ensures n - |WriteRegion(c, recs[0])| < |WriteDump(c, recs[1..])|
    ensures TotalLen(recs[1..]) <= budget - recs[0].region.len && AllStorable(c, recs[1..])
  {
  }

  lemma {:induction false} CutDump(c: Codec, recs: seq<Record>, n: nat, budget: nat, stale: nat -> Byte)
    returns (k: nat)
    requires Working(c) && n < |WriteDump(c, recs)| && TotalLen(recs) <= budget && AllStorable(c, recs)
    ensures Verdict(c, recs, n, k, ReadDump(c, WriteDump(c, recs)[..n], budget, stale), stale)
    decreases |recs|
  {
    hide ReadRegion, WriteRegion, ReadDump, WriteDump, Verdict;
    PeelCut(c, recs, n, budget);
    if n < |WriteRegion(c, recs[0])| {
      k := 0;
      CutInFirst(c, recs, n, budget, stale);
    } else {
      var m := n - |WriteRegion(c, recs[0])|;
      var rest := WriteDump(c, recs[1..])[..m];
      var tail := ReadDump(c, rest, budget - recs[0].region.len, stale);
      k := CutDump(c, recs[1..], m, budget - recs[0].region.len, stale);
      CutPieces(c, recs, n, m);
      CutRest(c, recs[0], WriteDump(c, recs)[..n], rest, budget, stale, tail);
      HeaderFits(c, recs[0]);
      CutTail(c, recs, n, m, k, tail, stale);
      k := k + 1;
    }
  }

  /**
   * Without a checksum, for every transport and compression, a truncated dump is restored as if nothing were wrong
   * exactly when the cut lies between two records, on the plain file also inside a record header, or on the encrypted
   * file at a block boundary inside a payload where the bytes before it end in valid padding (and still decompress).
   * The records before the cut are then applied, in the last case also a record completed with stale bytes.
   */
  lemma TruncationMissedIff(c: Codec, recs: seq<Record>, n: nat, stale: nat -> Byte)
    requires Working(c) && n < |WriteDump(c, recs)| && AllStorable(c, recs)
    ensures var r := ReadDump(c, WriteDump(c, recs)[..n], TotalLen(recs), stale);
            && (r.ok <==> exists k :: 0 <= k < |recs| && (CutAt(c, recs, n, k) || SlipAt(c, recs, n, k, stale)))
            && (r.ok ==> exists k :: 0 <= k < |recs| && Outcome(c, recs, n, k, r.applied, stale))
  {
    var k := CutDump(c, recs, n, TotalLen(recs), stale);
    var r := ReadDump(c, WriteDump(c, recs)[..n], TotalLen(recs), stale);
    assert r.ok ==> Outcome(c, recs, n, k, r.applied, stale);
  }

  lemma PaddingOfOne(data: seq<Byte>, stale: nat -> Byte)
    requires |data| >= BLOCK && data[BLOCK - 1] == 1
    ensures SlipFrame(data, BLOCK, stale) == Some(Fit(data[..BLOCK - 1], stale, |data|))
  {
    assert data[..BLOCK][..BLOCK - 1] == data[..BLOCK - 1];
  }

  /** One input of the last kind: an uncompressed page with a byte of 1 in front of the cut, whose rest is lost. */
  lemma PaddingByteSlips(cipher: Cipher, rec: Record, stale: nat -> Byte)
    requires Lawful(cipher) && Storable(Codec(Encrypted(cipher), Plainly, 4096), rec)
    requires rec.region.len == 4096 && rec.data[BLOCK - 1] == 1
    ensures var c := Codec(Encrypted(cipher), Plainly, 4096);
            |WriteDump(c, [rec])| > 48
            && ReadDump(c, WriteDump(c, [rec])[..48], 4096, stale)
               == Restore(true, [Record(rec.region, Fit(rec.data[..BLOCK - 1], stale, 4096))], 0)
  {
    var c := Codec(Encrypted(cipher), Plainly, 4096);
    SingleDump(c, rec);
    PaddingOfOne(rec.data, stale);
    ReadCutRecord(c, rec, 48, 4096, stale);
  }

  lemma SingleDump(c: Codec, rec: Record)
    requires Lawfully(c.transport)
    ensures WriteDump(c, [rec]) == WriteRegion(c, rec)
  {
    assert [rec][1..] == [];
  }
}
