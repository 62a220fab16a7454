/**
 * The requests as bytes: what memcr writes to a connection, and the loops in which the parasite reads it back, however
 * the kernel cuts the stream into short reads. Nothing in the stream says where a structure ends: both sides know.
 */
module Wire {
  import opened Arithmetic
  import opened Bytes
  import opened TargetMemory
  import opened Parasite
  import opened Streams

  /** sizeof(struct vm_mprotect) and sizeof(struct vm_region_req). */
  const PROTECT_SIZE: nat := 24
  const REQUEST_SIZE: nat := 28

  // ---- structures ----------------------------------------------------------------------------------

  function CommandByte(c: Command): Byte {
    match c
    case CmdMprotect => 1
    case CmdGetPages => 2
    case CmdSetPages => 3
    case CmdEnd => 4
  }

  /** PROT_READ, PROT_WRITE and PROT_EXEC. */
  function ProtBits(p: Prot): nat {
    (if p.read then 1 else 0) + (if p.write then 2 else 0) + (if p.exec then 4 else 0)
  }

  function FromBits(n: nat): Prot {
    Prot(n % 2 == 1, n / 2 % 2 == 1, n / 4 % 2 == 1)
  }

  /**
   * The bytes of one item. `pad` stands for what memcr does not set or the model does not follow: the padding after
   * the flags, the unused rest of the union, and the position in the pagemap.
   */
  function Encoded(it: Item, pad: seq<Byte>): seq<Byte>
    requires |pad| == 16
  {
    match it
    case Cmd(c) => [CommandByte(c)]
    case Protect(r, p) => Le(r.addr, 8) + Le(r.len, 8) + Le(ProtBits(p), 8)
    case Mem(r, tx) => Le(r.addr, 8) + Le(r.len, 8) + ([if tx then 1 else 0] + pad[..7]) + Le(0, 4)
    case Query(n) => pad[..8] + Le(n, 8) + pad[8..] + Le(1, 4)
    case Data(b) => [b]
    case _ => []
  }

  function ProtectOf(b: seq<Byte>): Item
    requires |b| == PROTECT_SIZE
  {
    Protect(Region(FromLe(b[..8]), FromLe(b[8..16])), FromBits(FromLe(b[16..])))
  }

  function RegionOf(b: seq<Byte>): Region
    requires |b| == REQUEST_SIZE
  {
    Region(FromLe(b[..8]), FromLe(b[8..16]))
  }

  function RequestOf(b: seq<Byte>): Item
    requires |b| == REQUEST_SIZE
  {
    if FromLe(b[24..]) == 1 then Query(FromLe(b[8..16])) else Mem(RegionOf(b), b[16] % 2 == 1)
  }

  /** Values that fit the 64-bit words of a structure. */
  predicate Fits64(it: Item) {
    match it
    case Protect(r, _) => r.addr < Pow256(8) && r.len < Pow256(8)
    case Mem(r, _) => r.addr < Pow256(8) && r.len < Pow256(8)
    case Query(n) => n < Pow256(8)
    case _ => true
  }

  lemma BitsBack(p: Prot)
    ensures FromBits(ProtBits(p)) == p && ProtBits(p) < 8
  {
  }

  /** Three words in a row, the last perhaps shorter or longer than the others. */
  lemma Words(a: seq<Byte>, b: seq<Byte>, c: seq<Byte>)
    requires |a| == |b| == 8
    ensures (a + b + c)[..8] == a && (a + b + c)[8..16] == b && (a + b + c)[16..] == c
  {
  }

  lemma ProtectBack(it: Item, pad: seq<Byte>)
    requires it.Protect? && Fits64(it) && |pad| == 16
    ensures |Encoded(it, pad)| == PROTECT_SIZE && ProtectOf(Encoded(it, pad)) == it
  {
    hide Le, FromLe;
    var a, b, c := Le(it.r.addr, 8), Le(it.r.len, 8), Le(ProtBits(it.p), 8);
    Pow256Values();
    BitsBack(it.p);
    LeRoundTrip(it.r.addr, 8);
    LeRoundTrip(it.r.len, 8);
    LeRoundTrip(ProtBits(it.p), 8);
    Words(a, b, c);
  }

  lemma FourWords(a: seq<Byte>, b: seq<Byte>, c: seq<Byte>, d: seq<Byte>)
    requires |a| == |b| == |c| == 8 && |d| == 4
    ensures var all := a + b + c + d;
            |all| == 28 && all[..8] == a && all[8..16] == b && all[16] == c[0] && all[24..] == d
  {
  }

  lemma RequestBack(it: Item, pad: seq<Byte>)
    requires (it.Mem? || it.Query?) && Fits64(it) && |pad| == 16
    ensures |Encoded(it, pad)| == REQUEST_SIZE && RequestOf(Encoded(it, pad)) == it
    ensures it.Mem? ==> RegionOf(Encoded(it, pad)) == it.r
  {
    hide Le, FromLe;
    Pow256Values();
    LeRoundTrip(0, 4);
    LeRoundTrip(1, 4);
    if it.Mem? {
      LeRoundTrip(it.r.addr, 8);
      LeRoundTrip(it.r.len, 8);
      FourWords(Le(it.r.addr, 8), Le(it.r.len, 8), [if it.tx then 1 else 0] + pad[..7], Le(0, 4));
    } else {
      LeRoundTrip(it.len, 8);
      FourWords(pad[..8], Le(it.len, 8), pad[8..], Le(1, 4));
    }
  }

  // ---- what the parasite makes of a stream ---------------------------------------------------------

  /** A structure after a read that may have ended early: the rest is what it held before. */
  function Refilled(got: seq<Byte>, before: seq<Byte>): (b: seq<Byte>)
    requires |got| <= |before|
    ensures |b| == |before|
    ensures |got| == |before| ==> b == got
  {
    got + before[|got|..]
  }

  function Protects(s: seq<Byte>, req: seq<Byte>): seq<Item>
    requires |req| == PROTECT_SIZE
    decreases |s|
  {
    if s == [] then [] else
      var n := Min(PROTECT_SIZE, |s|);
      var b := Refilled(s[..n], req);
      [ProtectOf(b)] + Protects(s[n..], b)
  }

  function Requests(s: seq<Byte>, req: seq<Byte>): seq<Item>
    requires |req| == REQUEST_SIZE
    decreases |s|
  {
    if s == [] then [] else
      var n := Min(REQUEST_SIZE, |s|);
      var b := Refilled(s[..n], req);
      [RequestOf(b)] + Requests(s[n..], b)
  }

  function Bulk(bytes: seq<Byte>): (items: seq<Item>)
    ensures |items| == |bytes|
  {
    seq(|bytes|, i requires 0 <= i < |bytes| => Data(bytes[i]))
  }

  function Uploads(s: seq<Byte>, req: seq<Byte>): seq<Item>
    requires |req| == REQUEST_SIZE
    decreases |s|
  {
    if s == [] then [] else
      var n := Min(REQUEST_SIZE, |s|);
      var b := Refilled(s[..n], req);
      var k := Min(RegionOf(b).len, |s| - n);
      [Mem(RegionOf(b), false)] + Bulk(s[n..n + k]) + Uploads(s[n + k..], b)
  }

  /** handle_connection: what is consumed of a connection, or nothing when the parasite kills itself. */
  function Parsed(s: seq<Byte>, p: seq<Byte>, r: seq<Byte>): Option<seq<Item>>
    requires |p| == PROTECT_SIZE && |r| == REQUEST_SIZE
  {
    if s == [] then None
    else if s[0] == 1 then Some([Cmd(CmdMprotect)] + Protects(s[1..], p))
    else if s[0] == 2 then Some([Cmd(CmdGetPages)] + Requests(s[1..], r))
    else if s[0] == 3 then Some([Cmd(CmdSetPages)] + Uploads(s[1..], r))
    else if s[0] == 4 then Some([Cmd(CmdEnd)])
    else None
  }

  // ---- the loops of the parasite -------------------------------------------------------------------

  /** The k-th read or write call of the parasite moves up to calls(k) bytes, at least one, or fails. */
  ghost predicate Unfailing(calls: nat -> int) {
    forall k: nat :: calls(k) >= 0
  }

  /** read: until the structure is full or the stream at its end; an error kills the parasite. */
  method ReadBytes(unread: seq<Byte>, size: nat, calls: nat -> int, at: nat)
    returns (died: bool, got: seq<Byte>, rest: seq<Byte>, next: nat)
    ensures !died ==> got == unread[..Min(size, |unread|)] && rest == unread[|got|..]
    ensures died ==> !Unfailing(calls)
  {
    died, got, rest, next := false, [], unread, at;
    while |got| < size
      invariant |got| <= size && |got| <= |unread|
      invariant got == unread[..|got|] && rest == unread[|got|..]
      decreases size - |got|
    {
      var ret := calls(next);
      next := next + 1;
      if ret < 0 {
        return true, got, rest, next;
      }
      var k := Moved(ret, size - |got|, |rest|);
      if k == 0 {
        break;
      }
      got, rest := unread[..|got| + k], unread[|got| + k..];
    }
  }

  /** write: until all is sent; an error kills the parasite. */
  method WriteBytes(data: seq<Byte>, calls: nat -> int, at: nat) returns (died: bool, sent: seq<Byte>, next: nat)
    ensures sent <= data
    ensures !died ==> sent == data
    ensures died ==> !Unfailing(calls)
  {
    died, sent, next := false, [], at;
    while |sent| < |data|
      invariant sent <= data
      decreases |data| - |sent|
    {
      var ret := calls(next);
      next := next + 1;
      if ret < 0 {
        return true, sent, next;
      }
      sent := data[..|sent| + Moved(ret, |data| - |sent|, |data|)];
    }
  }

  /** cmd_mprotect. */
  method ServeProtect(stream: seq<Byte>, req0: seq<Byte>, calls: nat -> int, at: nat)
    returns (died: bool, items: seq<Item>)
    requires |req0| == PROTECT_SIZE
    ensures !died ==> items == Protects(stream, req0)
    ensures died ==> !Unfailing(calls)
  {
    hide ProtectOf;
    items := [];
    var rest, req, next, got := stream, req0, at, [];
    while true
      invariant |req| == PROTECT_SIZE && items + Protects(rest, req) == Protects(stream, req0)
      decreases |rest|
    {
      ghost var was, done := rest, items;
      died, got, rest, next := ReadBytes(rest, PROTECT_SIZE, calls, next);
      if died || got == [] {
        return;
      }
      req := Refilled(got, req);
      items := items + [ProtectOf(req)];
      assert items + Protects(rest, req) == done + ([ProtectOf(req)] + Protects(rest, req));
    }
  }

  /** cmd_get_pages, without the replies. */
  method ServeGet(stream: seq<Byte>, req0: seq<Byte>, calls: nat -> int, at: nat)
    returns (died: bool, items: seq<Item>)
    requires |req0| == REQUEST_SIZE
    ensures !died ==> items == Requests(stream, req0)
    ensures died ==> !Unfailing(calls)
  {
    hide RequestOf;
    items := [];
    var rest, req, next, got := stream, req0, at, [];
    while true
      invariant |req| == REQUEST_SIZE && items + Requests(rest, req) == Requests(stream, req0)
      decreases |rest|
    {
      ghost var done := items;
      died, got, rest, next := ReadBytes(rest, REQUEST_SIZE, calls, next);
      if died || got == [] {
        return;
      }
      req := Refilled(got, req);
      items := items + [RequestOf(req)];
      assert items + Requests(rest, req) == done + ([RequestOf(req)] + Requests(rest, req));
    }
  }

  lemma NoUploads(req: seq<Byte>)
    requires |req| == REQUEST_SIZE
    ensures Uploads([], req) == []
  {
  }

  lemma UploadsStep(s: seq<Byte>, req: seq<Byte>, done: seq<Item>, n: nat, k: nat)
    requires |req| == REQUEST_SIZE && s != [] && n == Min(REQUEST_SIZE, |s|)
    requires k == Min(RegionOf(Refilled(s[..n], req)).len, |s| - n)
    ensures var b := Refilled(s[..n], req);
            (done + [Mem(RegionOf(b), false)] + Bulk(s[n..n + k])) + Uploads(s[n + k..], b) == done + Uploads(s, req)
  {
    hide RegionOf, Bulk;
  }

  /** cmd_set_pages: each request is followed by as many bytes as its region has. */
  method ServeSet(stream: seq<Byte>, req0: seq<Byte>, calls: nat -> int, at: nat)
    returns (died: bool, items: seq<Item>)
    requires |req0| == REQUEST_SIZE
    ensures !died ==> items == Uploads(stream, req0)
    ensures died ==> !Unfailing(calls)
  {
    hide RegionOf, Bulk, Uploads;
    NoUploads(req0);
    items := [];
    var rest, req, next, got := stream, req0, at, [];
    while true
      invariant |req| == REQUEST_SIZE && items + Uploads(rest, req) == Uploads(stream, req0)
      decreases |rest|
    {
      ghost var was, done, before := rest, items, req;
      died, got, rest, next := ReadBytes(rest, REQUEST_SIZE, calls, next);
      if died || got == [] {
        NoUploads(req);
        return;
      }
      req := Refilled(got, req);
      var r := RegionOf(req);
      ghost var n := |got|;
      var data;
      died, data, rest, next := ReadBytes(rest, r.len, calls, next);
      if died {
        return;
      }
      items := items + [Mem(r, false)] + Bulk(data);
      assert data == was[n..n + |data|] && rest == was[n + |data|..];
      UploadsStep(was, before, done, n, |data|);
    }
  }

  /** handle_connection: the command is one read of one byte, and an unknown or missing one kills the parasite. */
  method HandleConnection(stream: seq<Byte>, p: seq<Byte>, r: seq<Byte>, calls: nat -> int)
    returns (died: bool, items: seq<Item>)
    requires |p| == PROTECT_SIZE && |r| == REQUEST_SIZE
    ensures !died ==> Parsed(stream, p, r) == Some(items)
    ensures Unfailing(calls) ==> (died <==> Parsed(stream, p, r) == None)
  {
    if calls(0) < 0 || stream == [] {
      return true, [];
    }
    var body;
    if stream[0] == 1 {
      died, body := ServeProtect(stream[1..], p, calls, 1);
      items := [Cmd(CmdMprotect)] + body;
    } else if stream[0] == 2 {
      died, body := ServeGet(stream[1..], r, calls, 1);
      items := [Cmd(CmdGetPages)] + body;
    } else if stream[0] == 3 {
      died, body := ServeSet(stream[1..], r, calls, 1);
      items := [Cmd(CmdSetPages)] + body;
    } else {
      died, items := stream[0] != 4, [Cmd(CmdEnd)];
    }
  }
}
