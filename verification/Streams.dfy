/** The transfer loops under short reads and writes, and the pagemap that the parasite sends in pieces. */
module Streams {
  import opened Arithmetic
  import opened Bytes
  import opened Coalescing
  import opened Protocol

  /** What a read or write call does: moves up to n bytes (n at least 1), or fails for one of three reasons. */
  datatype Sys = Move(n: nat) | Again | Interrupted | Broken

  /** How a transfer ends: with its count, at the end of the stream, with an error, or not yet. */
  datatype Outcome = Done | EndOfStream | Error | Pending

  /** The bytes a call moves when `want` are asked for and `have` are there. */
  function Moved(n: nat, want: nat, have: nat): (k: nat)
    ensures k <= want && k <= have
    ensures want > 0 && have > 0 ==> k > 0
  {
    Min(Min(if n == 0 then 1 else n, want), have)
  }

  /** How many of the calls move bytes. */
  function Moves(calls: seq<Sys>): nat {
    if calls == [] then 0 else Moves(calls[..|calls| - 1]) + (if calls[|calls| - 1].Move? then 1 else 0)
  }

  /** No call ends the transfer by itself. */
  predicate Benign(calls: seq<Sys>, peerOk: bool, intr: bool) {
    forall i :: 0 <= i < |calls| ==>
      calls[i].Move? || (calls[i].Again? && peerOk) || (calls[i].Interrupted? && intr)
  }

  /**
   * memcr's __read of count bytes from the unread part of a stream, where `calls` says what successive calls do.
   * With a peer to watch, EAGAIN is retried while the peer lives.
   */
  method ReadFull(unread: seq<Byte>, count: nat, calls: seq<Sys>, peerOk: bool)
    returns (r: Outcome, buf: seq<Byte>, rest: seq<Byte>)
    requires count > 0
    ensures buf + rest == unread && |buf| <= count
    ensures r.Done? <==> |buf| == count
    ensures r.EndOfStream? ==> rest == []
    ensures r.Done? ==> buf == unread[..count] && rest == unread[count..]
    ensures Benign(calls, peerOk, true) && Moves(calls) >= count ==> (r.Done? <==> |unread| >= count)
  {
    buf, rest := [], unread;
    for i := 0 to |calls|
      invariant buf + rest == unread && |buf| < count
      invariant Moves(calls[..i]) <= |buf|
    {
      assert calls[..i + 1][..i] == calls[..i];
      match calls[i]
      case Move(n) =>
        var k := Moved(n, count - |buf|, |rest|);
        if k == 0 {
          return EndOfStream, buf, rest;
        }
        assert buf + rest == (buf + rest[..k]) + rest[k..];
        buf, rest := buf + rest[..k], rest[k..];
        if |buf| == count {
          return Done, buf, rest;
        }
      case Again =>
        if !peerOk {
          return Error, buf, rest;
        }
      case Interrupted =>
      case Broken =>
        return Error, buf, rest;
    }
    assert calls[..|calls|] == calls;
    r := Pending;
  }

  /** memcr's __write; an interrupted write is an error there. */
  method WriteFull(data: seq<Byte>, calls: seq<Sys>, peerOk: bool) returns (r: Outcome, sent: seq<Byte>)
    requires data != []
    ensures sent <= data
    ensures r.Done? <==> sent == data
    ensures Benign(calls, peerOk, false) && Moves(calls) >= |data| ==> r.Done?
  {
    sent := [];
    for i := 0 to |calls|
      invariant sent <= data && |sent| < |data|
      invariant Moves(calls[..i]) <= |sent|
    {
      assert calls[..i + 1][..i] == calls[..i];
      match calls[i]
      case Move(n) =>
        var k := Moved(n, |data| - |sent|, |data|);
        sent := data[..|sent| + k];
        if |sent| == |data| {
          return Done, sent;
        }
      case Again =>
        if !peerOk {
          return Error, sent;
        }
      case Interrupted =>
        return Error, sent;
      case Broken =>
        return Error, sent;
    }
    assert calls[..|calls|] == calls;
    r := Pending;
  }

  // ---- the pagemap -------------------------------------------------------------------------------

  /** sizeof(uint64_t): one pagemap entry. */
  const ENTRY: nat := 8

  /** PAGEMAP_BUF_SIZE, which parasite.c uses as a number of bytes. */
  const PIECE: nat := 4096 / ENTRY

  /** The parasite's answer to a pagemap request: the bytes asked for, read and sent in pieces. */
  method AnswerPagemap(pagemap: seq<Byte>, seek: nat, len: nat) returns (reply: seq<Byte>)
    requires seek + len <= |pagemap|
    ensures reply == pagemap[seek..seek + len]
  {
    reply := [];
    var left, at := len, seek;
    while left > 0
      invariant at + left == seek + len && at <= seek + len
      invariant reply == pagemap[seek..at]
      decreases left
    {
      var n := if left > PIECE then PIECE else left;
      reply := reply + pagemap[at..at + n];
      at, left := at + n, left - n;
    }
  }

  const BIT_61: nat := 0x2000_0000_0000_0000
  const BIT_62: nat := 0x4000_0000_0000_0000
  const BIT_63: nat := 0x8000_0000_0000_0000
  const PFN_LIMIT: nat := 0x0080_0000_0000_0000

  predicate Bit(v: nat, bit: nat)
    requires bit > 0
  {
    v / bit % 2 == 1
  }

  /** The bits get_vma_pages looks at; `pinned` tells unevictable frames. */
  function Decode(v: nat, pinned: nat -> bool): Answer {
    Entry(Bit(v, BIT_63), Bit(v, BIT_62), Bit(v, BIT_61), pinned(v % PFN_LIMIT))
  }

  function EntryAt(bytes: seq<Byte>, i: nat): nat
    requires ENTRY * (i + 1) <= |bytes|
  {
    FromLe(bytes[ENTRY * i..ENTRY * (i + 1)])
  }

  /** What memcr learns from /proc/pid/pagemap itself, page by page from page `first` on. */
  function LocalAnswers(pagemap: seq<Byte>, first: nat, n: nat, pinned: nat -> bool): (a: seq<Answer>)
    requires ENTRY * (first + n) <= |pagemap|
    ensures |a| == n
  {
    seq(n, i requires 0 <= i < n => Decode(EntryAt(pagemap, first + i), pinned))
  }

  lemma SameEntry(pagemap: seq<Byte>, buf: seq<Byte>, first: nat, n: nat, i: nat)
    requires i < n && ENTRY * (first + n) <= |pagemap|
    requires buf == pagemap[ENTRY * first..ENTRY * (first + n)]
    ensures EntryAt(buf, i) == EntryAt(pagemap, first + i)
  {
    SliceOfSlice(pagemap, ENTRY * first, ENTRY * (first + n), ENTRY * i, ENTRY * (i + 1));
  }

  lemma SliceOfSlice(s: seq<Byte>, a: nat, b: nat, lo: nat, hi: nat)
    requires lo <= hi && a + hi <= b <= |s|
    ensures s[a..b][lo..hi] == s[a + lo..a + hi]
  {
    var t, u := s[a..b][lo..hi], s[a + lo..a + hi];
    forall i | 0 <= i < hi - lo ensures t[i] == u[i] {
      assert t[i] == s[a..b][lo + i];
    }
    assert |t| == |u|;
  }

  /**
   * The remote pagemap, sent in pieces by the parasite and reassembled by memcr whatever the schedule of short
   * transfers, gives the answers that reading the pagemap directly gives; so both ways ask for the same regions.
   */
  method RemoteAnswers(pagemap: seq<Byte>, first: nat, n: nat, pinned: nat -> bool, calls: seq<Sys>, peerOk: bool,
                       c: Scan)
    returns (r: Outcome, answers: seq<Answer>)
    requires n > 0 && ENTRY * (first + n) <= |pagemap|
    ensures r.Done? ==> answers == LocalAnswers(pagemap, first, n, pinned)
    ensures var direct := LocalAnswers(pagemap, first, n, pinned);
            r.Done? ==> PagesWanted(c, true, answers) == [Ask(ENTRY * n)] + PagesWanted(c, false, direct)
    ensures Benign(calls, peerOk, true) && Moves(calls) >= ENTRY * n ==> r.Done?
  {
    var reply := AnswerPagemap(pagemap, ENTRY * first, ENTRY * n);
    var buf, rest;
    r, buf, rest := ReadFull(reply, ENTRY * n, calls, peerOk);
    answers := [];
    if r.Done? {
      assert buf == pagemap[ENTRY * first..ENTRY * (first + n)];
      answers := LocalAnswers(buf, 0, n, pinned);
      forall i | 0 <= i < n ensures answers[i] == LocalAnswers(pagemap, first, n, pinned)[i] {
        SameEntry(pagemap, buf, first, n, i);
      }
    }
  }
}
