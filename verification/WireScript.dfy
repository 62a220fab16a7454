/** Everything memcr says to the parasite in a checkpoint and restore parses back to what it meant. */
module WireScript {
  import opened Arithmetic
  import opened Bytes
  import opened TargetMemory
  import opened DumpCodec
  import opened Parasite
  import opened Protocol
  import opened ProtocolInvariant
  import opened ProtocolScript
  import opened ProtocolJobs
  import opened ProtocolTheorems
  import opened Coalescing
  import opened WholeRun
  import opened Wire

  // ---- streams of well-formed connections ----------------------------------------------------------

  function Padding(pad: nat -> Byte, k: nat): (p: seq<Byte>)
    ensures |p| == 16
  {
    seq(16, i requires 0 <= i < 16 => pad(16 * k + i))
  }

  /** The bytes of a connection; pad holds whatever the unset bytes of each structure happen to be. */
  function Serialized(items: seq<Item>, pad: nat -> Byte): seq<Byte> {
    if items == [] then [] else Encoded(items[0], Padding(pad, |items|)) + Serialized(items[1..], pad)
  }

  predicate AllProtects(items: seq<Item>) {
    forall i :: 0 <= i < |items| ==> items[i].Protect? && Fits64(items[i])
  }

  predicate AllRequests(items: seq<Item>) {
    forall i :: 0 <= i < |items| ==> (items[i].Mem? || items[i].Query?) && Fits64(items[i])
  }

  predicate AllData(items: seq<Item>) {
    forall i :: 0 <= i < |items| ==> items[i].Data?
  }

  /** Regions to be written, each followed by exactly its bytes. */
  predicate AllUploads(items: seq<Item>)
    decreases |items|
  {
    items == [] ||
    (&& items[0].Mem? && !items[0].tx && Fits64(items[0]) && 1 + items[0].r.len <= |items|
     && AllData(items[1..1 + items[0].r.len]) && AllUploads(items[1 + items[0].r.len..]))
  }

  /** A connection that says something the parasite understands. */
  predicate Spoken(conn: seq<Item>) {
    && conn != [] && conn[0].Cmd?
    && match conn[0].c
       case CmdMprotect => AllProtects(conn[1..])
       case CmdGetPages => AllRequests(conn[1..])
       case CmdSetPages => AllUploads(conn[1..])
       case CmdEnd => conn[1..] == []
  }

  lemma HeadCut(head: seq<Byte>, tail: seq<Byte>, n: nat)
    requires |head| == n
    ensures Min(n, |head + tail|) == n && (head + tail)[..n] == head && (head + tail)[n..] == tail
  {
  }

  lemma {:induction false} ProtectsBack(items: seq<Item>, pad: nat -> Byte, req: seq<Byte>)
    requires AllProtects(items) && |req| == PROTECT_SIZE
    ensures Protects(Serialized(items, pad), req) == items
    decreases |items|
  {
    hide Encoded, ProtectOf;
    if items != [] {
      var head, tail := Encoded(items[0], Padding(pad, |items|)), Serialized(items[1..], pad);
      ProtectBack(items[0], Padding(pad, |items|));
      HeadCut(head, tail, PROTECT_SIZE);
      ProtectsBack(items[1..], pad, head);
      assert items == [items[0]] + items[1..];
    }
  }

  lemma {:induction false} RequestsBack(items: seq<Item>, pad: nat -> Byte, req: seq<Byte>)
    requires AllRequests(items) && |req| == REQUEST_SIZE
    ensures Requests(Serialized(items, pad), req) == items
    decreases |items|
  {
    hide Encoded, RequestOf;
    if items != [] {
      var head, tail := Encoded(items[0], Padding(pad, |items|)), Serialized(items[1..], pad);
      RequestBack(items[0], Padding(pad, |items|));
      HeadCut(head, tail, REQUEST_SIZE);
      RequestsBack(items[1..], pad, head);
      assert items == [items[0]] + items[1..];
    }
  }

  /** Page data goes over the wire as it is. */
  lemma {:induction false} DataSerialized(items: seq<Item>, n: nat, pad: nat -> Byte)
    requires n <= |items| && AllData(items[..n])
    ensures |Serialized(items, pad)| >= n
    ensures Bulk(Serialized(items, pad)[..n]) == items[..n]
    ensures Serialized(items, pad)[n..] == Serialized(items[n..], pad)
    decreases n
  {
    if n > 0 {
      hide Serialized, Bulk;
      DataTail(items, n);
      DataSerialized(items[1..], n - 1, pad);
      SerializedStep(items, pad);
      OneByteMore(items, n, Serialized(items[1..], pad));
    }
  }

  lemma DataTail(items: seq<Item>, n: nat)
    requires 0 < n <= |items| && AllData(items[..n])
    ensures items[0].Data? && AllData(items[1..][..n - 1]) && items[1..][n - 1..] == items[n..]
  {
    assert items[..n][0] == items[0] && items[1..][..n - 1] == items[..n][1..];
  }

  lemma OneByteMore(items: seq<Item>, n: nat, tail: seq<Byte>)
    requires 0 < n <= |items| && items[0].Data? && n - 1 <= |tail|
    requires Bulk(tail[..n - 1]) == items[1..][..n - 1]
    ensures var s := [items[0].b] + tail;
            Bulk(s[..n]) == items[..n] && s[n..] == tail[n - 1..]
  {
    var s := [items[0].b] + tail;
    forall i | 0 <= i < n ensures Bulk(s[..n])[i] == items[..n][i] {
      if i > 0 {
        assert Bulk(tail[..n - 1])[i - 1] == items[1..][..n - 1][i - 1];
      }
    }
  }

  lemma {:induction false} UploadsBack(items: seq<Item>, pad: nat -> Byte, req: seq<Byte>)
    requires AllUploads(items) && |req| == REQUEST_SIZE
    ensures Uploads(Serialized(items, pad), req) == items
    decreases |items|
  {
    if items != [] {
      hide Encoded, RegionOf, Bulk, Uploads, Serialized;
      var head, tail, k := Encoded(items[0], Padding(pad, |items|)), Serialized(items[1..], pad), items[0].r.len;
      SerializedStep(items, pad);
      RequestBack(items[0], Padding(pad, |items|));
      FirstUpload(items, k);
      DataSerialized(items[1..], k, pad);
      UploadsBack(items[1 + k..], pad, head);
      OneUpload(head, tail, k, req);
    }
  }

  lemma SerializedStep(items: seq<Item>, pad: nat -> Byte)
    requires items != []
    ensures Serialized(items, pad) == Encoded(items[0], Padding(pad, |items|)) + Serialized(items[1..], pad)
  {
  }

  lemma FirstUpload(items: seq<Item>, k: nat)
    requires 1 + k <= |items|
    ensures items[1..][..k] == items[1..1 + k] && items[1..][k..] == items[1 + k..]
    ensures items == [items[0]] + items[1..1 + k] + items[1 + k..]
  {
  }

  lemma OneUpload(head: seq<Byte>, tail: seq<Byte>, k: nat, req: seq<Byte>)
    requires |head| == |req| == REQUEST_SIZE && RegionOf(head).len == k <= |tail|
    ensures Uploads(head + tail, req) == [Mem(RegionOf(head), false)] + Bulk(tail[..k]) + Uploads(tail[k..], head)
  {
    hide RegionOf, Bulk, Uploads;
    var s := head + tail;
    HeadCut(head, tail, REQUEST_SIZE);
    assert s[REQUEST_SIZE..REQUEST_SIZE + k] == tail[..k] && s[REQUEST_SIZE + k..] == tail[k..];
    UploadsStep(s, req, [], REQUEST_SIZE, k);
    assert [] + Uploads(s, req) == Uploads(s, req);
    assert [] + [Mem(RegionOf(head), false)] == [Mem(RegionOf(head), false)];
  }

  /** Whatever the padding and whatever the parasite's variables held before, a connection parses back to its items. */
  lemma ParsedBack(conn: seq<Item>, pad: nat -> Byte, p: seq<Byte>, r: seq<Byte>)
    requires Spoken(conn) && |p| == PROTECT_SIZE && |r| == REQUEST_SIZE
    ensures Parsed(Serialized(conn, pad), p, r) == Some(conn)
  {
    hide Protects, Requests, Uploads;
    var s, body := Serialized(conn, pad), Serialized(conn[1..], pad);
    assert s == [CommandByte(conn[0].c)] + body && s[1..] == body;
    assert conn == [conn[0]] + conn[1..];
    match conn[0].c
    case CmdMprotect => ProtectsBack(conn[1..], pad, p);
    case CmdGetPages => RequestsBack(conn[1..], pad, r);
    case CmdSetPages => UploadsBack(conn[1..], pad, r);
    case CmdEnd => assert conn == [Cmd(CmdEnd)];
  }

  /** A connection carried over the socket: under every schedule of short reads the parasite consumes what was meant. */
  method Carry(conn: seq<Item>, pad: nat -> Byte, p: seq<Byte>, r: seq<Byte>, calls: nat -> int)
    returns (died: bool, items: seq<Item>)
    requires Spoken(conn) && |p| == PROTECT_SIZE && |r| == REQUEST_SIZE
    ensures !died ==> items == conn
    ensures Unfailing(calls) ==> !died
  {
    ParsedBack(conn, pad, p, r);
    died, items := HandleConnection(Serialized(conn, pad), p, r, calls);
  }

  // ---- what memcr says -----------------------------------------------------------------------------

  /** The connections of a checkpoint and restore, without the marks of their beginnings and ends. */
  function Connections(j: Job, recs: seq<Record>): seq<seq<Item>> {
    [[Cmd(CmdMprotect)] + Items(ProtPuts(j.vmas, true)),
     [Cmd(CmdGetPages)] + Items(WantsActions(j.wants, j.procMem)),
     [Cmd(CmdSetPages)] + Items(SetPuts(recs)),
     [Cmd(CmdMprotect)] + Items(ProtPuts(j.vmas, false)),
     [Cmd(CmdEnd)]]
  }

  function Marked(conn: seq<Item>): seq<Item> {
    [Accept] + conn + [Eof]
  }

  function Joined(conns: seq<seq<Item>>): seq<Item> {
    if conns == [] then [] else Marked(conns[0]) + Joined(conns[1..])
  }

  lemma ConnectionMarked(c: Command, body: seq<Action>)
    ensures Items([Connect, Put(Cmd(c))] + body + [Close]) == Marked([Cmd(c)] + Items(body))
  {
    ConnectionItems(c, body);
  }

  lemma JoinedFive(a: seq<Item>, b: seq<Item>, c: seq<Item>, d: seq<Item>, e: seq<Item>)
    ensures Joined([a, b, c, d, e]) == (Marked(a) + Marked(b)) + ((Marked(c) + Marked(d)) + Marked(e))
  {
    assert [a, b, c, d, e][1..] == [b, c, d, e] && [b, c, d, e][1..] == [c, d, e];
    assert [c, d, e][1..] == [d, e] && [d, e][1..] == [e] && [e][1..] == [];
    assert Joined([e]) == Marked(e) + [] == Marked(e);
    assert Joined([d, e]) == Marked(d) + Marked(e);
    assert Joined([c, d, e]) == (Marked(c) + Marked(d)) + Marked(e);
    assert Joined([b, c, d, e]) == Marked(b) + ((Marked(c) + Marked(d)) + Marked(e));
  }

  /** Together they are all that is ever sent. */
  lemma ScriptJoined(j: Job)
    ensures Script(j, Restoring) == Joined(Connections(j, Records(j)))
  {
    hide Items, Joined, ProtPuts, WantsActions, SetPuts, Marked;
    var recs := Records(j);
    var off, get, put, on := ProtActions(j.vmas, true), GetActions(j.wants, j.procMem), SetActions(recs),
                             ProtActions(j.vmas, false);
    var end := [Connect, Put(Cmd(CmdEnd)), Close];
    ConnectionMarked(CmdMprotect, ProtPuts(j.vmas, true));
    ConnectionMarked(CmdGetPages, WantsActions(j.wants, j.procMem));
    ConnectionMarked(CmdSetPages, SetPuts(recs));
    ConnectionMarked(CmdMprotect, ProtPuts(j.vmas, false));
    EndMarked();
    ItemsAppend(off, get);
    ItemsAppend(put + on, end);
    ItemsAppend(put, on);
    var cs := Connections(j, recs);
    JoinedFive(cs[0], cs[1], cs[2], cs[3], cs[4]);
  }

  lemma EndMarked()
    ensures Items([Connect, Put(Cmd(CmdEnd)), Close]) == Marked([Cmd(CmdEnd)])
  {
    EndItems();
  }

  // ---- and that it is understood -------------------------------------------------------------------

  /** Regions and lengths of a job fit 64-bit words, as they do in memcr's own variables. */
  predicate Worded(j: Job) {
    && (forall i :: 0 <= i < |j.vmas| ==> j.vmas[i].start <= j.vmas[i].end < Pow256(8))
    && (forall i :: 0 <= i < |j.wants| ==> WordedWant(j.wants[i]))
  }

  predicate WordedWant(w: Want) {
    match w
    case Ask(n) => n < Pow256(8)
    case Dump(r) => r.addr < Pow256(8) && r.len < Pow256(8)
    case Free(r) => r.addr < Pow256(8) && r.len < Pow256(8)
  }

  lemma {:induction false} ProtSpoken(vmas: seq<Vma>, off: bool)
    requires forall i :: 0 <= i < |vmas| ==> vmas[i].start <= vmas[i].end < Pow256(8)
    ensures AllProtects(Items(ProtPuts(vmas, off)))
    decreases |vmas|
  {
    if vmas != [] {
      ProtSpoken(vmas[1..], off);
      var puts := ProtPuts(vmas, off);
      if !ReadWrite(vmas[0].prot) {
        assert puts[1..] == ProtPuts(vmas[1..], off);
      }
    }
  }

  lemma {:induction false} WantsSpoken(wants: seq<Want>, procMem: bool)
    requires forall i :: 0 <= i < |wants| ==> WordedWant(wants[i])
    ensures AllRequests(Items(WantsActions(wants, procMem)))
    decreases |wants|
  {
    if wants != [] {
      WantsSpoken(wants[1..], procMem);
      WantSpoken(wants[0], procMem);
      ItemsAppend(WantActions(wants[0], procMem), WantsActions(wants[1..], procMem));
    }
  }

  lemma WantSpoken(w: Want, procMem: bool)
    requires WordedWant(w)
    ensures AllRequests(Items(WantActions(w, procMem)))
  {
    var acts := WantActions(w, procMem);
    if |acts| == 1 {
      ItemsSingle(acts[0]);
    } else {
      ItemsPair(acts[0], acts[1]);
    }
  }

  lemma {:induction false} DataSpoken(data: seq<Byte>)
    ensures |Items(DataPuts(data))| == |data| && AllData(Items(DataPuts(data)))
    decreases |data|
  {
    if data != [] {
      DataSpoken(data[1..]);
      assert DataPuts(data)[1..] == DataPuts(data[1..]);
    }
  }

  lemma FirstItems(recs: seq<Record>)
    requires recs != []
    ensures Items(SetPuts(recs))
         == [Mem(recs[0].region, false)] + Items(DataPuts(recs[0].data)) + Items(SetPuts(recs[1..]))
  {
    hide Items, SetPuts, DataPuts;
    FirstRecordItems([], recs);
    assert [] + Items(SetPuts(recs)) == Items(SetPuts(recs));
    assert [] + [Mem(recs[0].region, false)] == [Mem(recs[0].region, false)];
  }

  lemma {:induction false} SetSpoken(recs: seq<Record>)
    requires forall i :: 0 <= i < |recs| ==>
               |recs[i].data| == recs[i].region.len < Pow256(8) && recs[i].region.addr < Pow256(8)
    ensures AllUploads(Items(SetPuts(recs)))
    decreases |recs|
  {
    if recs != [] {
      hide Items, SetPuts, DataPuts, AllUploads;
      SetSpoken(recs[1..]);
      DataSpoken(recs[0].data);
      FirstItems(recs);
      OneMore(recs[0].region, Items(DataPuts(recs[0].data)), Items(SetPuts(recs[1..])));
    }
  }

  lemma OneMore(r: Region, data: seq<Item>, rest: seq<Item>)
    requires AllData(data) && AllUploads(rest) && |data| == r.len && Fits64(Mem(r, false))
    ensures AllUploads([Mem(r, false)] + data + rest)
  {
    var items := [Mem(r, false)] + data + rest;
    assert items[1..1 + r.len] == data && items[1 + r.len..] == rest;
  }

  /** Every connection of a job that fits memcr's variables is understood. */
  lemma JobSpoken(j: Job)
    requires ValidJob(j) && Worded(j)
    ensures forall i :: 0 <= i < |Connections(j, Records(j))| ==> Spoken(Connections(j, Records(j))[i])
  {
    hide Items, ProtPuts, WantsActions, SetPuts, AllUploads;
    var recs := Records(j);
    ProtSpoken(j.vmas, true);
    ProtSpoken(j.vmas, false);
    WantsSpoken(j.wants, j.procMem);
    RecordsWorded(j);
    SetSpoken(recs);
    SpokenParts(CmdMprotect, Items(ProtPuts(j.vmas, true)));
    SpokenParts(CmdGetPages, Items(WantsActions(j.wants, j.procMem)));
    SpokenParts(CmdSetPages, Items(SetPuts(recs)));
    SpokenParts(CmdMprotect, Items(ProtPuts(j.vmas, false)));
    assert Spoken([Cmd(CmdEnd)]);
  }

  lemma SpokenParts(c: Command, body: seq<Item>)
    ensures ([Cmd(c)] + body)[0] == Cmd(c) && ([Cmd(c)] + body)[1..] == body
  {
  }

  lemma RecordsWorded(j: Job)
    requires ValidJob(j)
    ensures forall i :: 0 <= i < |Records(j)| ==>
              |Records(j)[i].data| == Records(j)[i].region.len < Pow256(8) && Records(j)[i].region.addr < Pow256(8)
  {
    Pow256Values();
    RecordsAre(j);
    DumpRecordsGood(j, j.wants);
    forall i | 0 <= i < |Records(j)|
      ensures |Records(j)[i].data| == Records(j)[i].region.len < Pow256(8) && Records(j)[i].region.addr < Pow256(8)
    {
      assert GoodRecord(j, Records(j)[i]);
    }
  }

  // ---- for every run ------------------------------------------------------------------------------

  lemma AskWorded(u: Setup, i: nat)
    requires ValidSetup(u) && u.pageSize >= 8 && i < |u.answers|
    ensures 8 * |u.answers[i]| < Pow256(8)
  {
    var size := u.vmas[i].end - u.vmas[i].start;
    MulOrder(8, u.pageSize, size / u.pageSize);
    assert size == u.pageSize * (size / u.pageSize) + size % u.pageSize;
  }

  lemma {:induction false} AsksWorded(u: Setup, i: nat, w: Want)
    requires ValidSetup(u) && u.pageSize >= 8 && w in Plan(u, i) && w.Ask?
    ensures w.len < Pow256(8)
    decreases |u.answers| - i
  {
    var one := PagesWanted(ScanOf(u, i), u.remote, u.answers[i]);
    CoalescingSafe(ScanOf(u, i), u.answers[i]);
    if w in one {
      AskWorded(u, i);
    } else {
      AsksWorded(u, i + 1, w);
    }
  }

  lemma SetupWorded(u: Setup)
    requires ValidSetup(u) && u.pageSize >= 8
    ensures Worded(JobOf(u))
  {
    var j := JobOf(u);
    forall i | 0 <= i < |j.wants| ensures WordedWant(j.wants[i]) {
      if j.wants[i].Ask? {
        AsksWorded(u, 0, j.wants[i]);
      } else {
        PlanSits(u, 0);
      }
    }
  }

  /**
   * Whatever is checkpointed (with pages of at least eight bytes), all that memcr ever sends is five connections, and
   * the bytes of each of them parse back to the very requests, whatever the bytes that nobody sets.
   */
  lemma BytesAgree(u: Setup, i: nat, pad: nat -> Byte, p: seq<Byte>, r: seq<Byte>)
    requires ValidSetup(u) && u.pageSize >= 8 && i < 5 && |p| == PROTECT_SIZE && |r| == REQUEST_SIZE
    ensures var conns := Connections(JobOf(u), Records(JobOf(u)));
            && Script(JobOf(u), Restoring) == Joined(conns)
            && Parsed(Serialized(conns[i], pad), p, r) == Some(conns[i])
  {
    hide Script, Joined, Parsed, Serialized, Spoken, Records;
    var j := JobOf(u);
    SetupIsValidJob(u);
    SetupWorded(u);
    ScriptJoined(j);
    JobSpoken(j);
    ParsedBack(Connections(j, Records(j))[i], pad, p, r);
  }
}
