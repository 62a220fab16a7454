/**
 * parasite.c: the injected service loop, as a machine that consumes what memcr sends over its connections.
 * A bulk transfer into or out of the target is consumed or produced one byte at a time, so that every
 * schedule of short reads and writes is a schedule of these steps.
 */
module Parasite {
  import opened Bytes
  import opened TargetMemory

  datatype Command = CmdMprotect | CmdGetPages | CmdSetPages | CmdEnd

  /**
   * What a connection delivers to the parasite: the accepted connection itself, the command byte,
   * struct vm_mprotect, struct vm_region_req of either type, page data, and the end of the stream.
   */
  datatype Item =
    | Accept
    | Cmd(c: Command)
    | Protect(r: Region, p: Prot)
    | Mem(r: Region, tx: bool)
    | Query(len: nat)
    | Data(b: Byte)
    | Eof

  datatype Phase =
    | Listening
    | AwaitCmd
    | InProtect
    | InGet
    | Sending(r: Region, off: nat)
    | Answering(left: nat)
    | InSet
    | Filling(addr: nat, left: nat)
    | Exited
    | Faulted
    | Died

  datatype Event = Protected(r: Region, p: Prot) | Dropped(r: Region) | Wrote(x: nat, b: Byte)

  /** The target with the parasite thread inside it; `log` is the history of its effects. */
  datatype Target = Target(mem: TargetMemory.Mem, prot: ProtMap, phase: Phase, log: seq<Event>)

  function Drop(base: TargetMemory.Mem, t: Target, r: Region): Target {
    t.(mem := Dontneed(t.mem, base, r), phase := InGet, log := t.log + [Dropped(r)])
  }

  /** handle_connection: the command byte selects the loop that serves the rest of the connection. */
  function Dispatch(c: Command): Phase {
    match c
    case CmdMprotect => InProtect
    case CmdGetPages => InGet
    case CmdSetPages => InSet
    case CmdEnd => Exited
  }

  /**
   * One item read from the current connection. A store to a page that is not writable faults; an item
   * the current loop does not expect makes the parasite die.
   */
  function Consume(base: TargetMemory.Mem, t: Target, it: Item): Target {
    match t.phase
    case Exited => t
    case Faulted => t
    case Listening => t.(phase := if it.Accept? then AwaitCmd else Died)
    case AwaitCmd => t.(phase := if it.Cmd? then Dispatch(it.c) else Died)
    case InProtect =>
      if it.Eof? then t.(phase := Listening)
      else if it.Protect? then t.(prot := Mprotect(t.prot, it.r, it.p), log := t.log + [Protected(it.r, it.p)])
      else t.(phase := Died)
    case InGet =>
      if it.Eof? then t.(phase := Listening)
      else if it.Mem? then (if it.tx then t.(phase := Sending(it.r, 0)) else Drop(base, t, it.r))
      else if it.Query? then t.(phase := Answering(it.len))
      else t.(phase := Died)
    case InSet =>
      if it.Eof? then t.(phase := Listening)
      else if it.Mem? then t.(phase := if it.r.len == 0 then InSet else Filling(it.r.addr, it.r.len))
      else t.(phase := Died)
    case Filling(a, left) =>
      if it.Eof? then t.(phase := Listening)
      else if it.Data? then
        if !Writable(t.prot, a) then t.(phase := Faulted)
        else t.(mem := StoreByte(t.mem, a, it.b), log := t.log + [Wrote(a, it.b)],
                phase := if left <= 1 then InSet else Filling(a + 1, left - 1))
      else t.(phase := Died)
    case _ => t.(phase := Died)
  }

  ghost predicate AllReadable(p: ProtMap, r: Region, off: nat) {
    forall x: nat :: Covers(r, x) && r.addr + off <= x ==> Readable(p, x)
  }

  /** What is left of a reply: a region still being sent ends up dropped, unless a page is unreadable. */
  ghost function Settle(base: TargetMemory.Mem, t: Target): Target {
    match t.phase
    case Sending(r, off) => if AllReadable(t.prot, r, off) then Drop(base, t, r) else t.(phase := Faulted)
    case Answering(_) => t.(phase := InGet)
    case _ => t
  }

  /** The target after a whole stream of items, replies completed. */
  ghost function Exec(base: TargetMemory.Mem, t: Target, items: seq<Item>): Target
    decreases |items|
  {
    if items == [] then t else Exec(base, Settle(base, Consume(base, t, items[0])), items[1..])
  }

  lemma {:induction false} ExecAppend(base: TargetMemory.Mem, t: Target, a: seq<Item>, b: seq<Item>)
    ensures Exec(base, t, a + b) == Exec(base, Exec(base, t, a), b)
    decreases |a|
  {
    if a == [] {
      assert a + b == b;
    } else {
      assert (a + b)[0] == a[0] && (a + b)[1..] == a[1..] + b;
      ExecAppend(base, Settle(base, Consume(base, t, a[0])), a[1..], b);
    }
  }

  lemma ExecOne(base: TargetMemory.Mem, t: Target, it: Item)
    ensures Exec(base, t, [it]) == Settle(base, Consume(base, t, it))
  {
    assert [it][1..] == [];
    assert Exec(base, Settle(base, Consume(base, t, it)), []) == Settle(base, Consume(base, t, it));
  }

  /** A parasite that has exited, faulted or died stays so. */
  lemma {:induction false} ExecStuck(base: TargetMemory.Mem, t: Target, items: seq<Item>)
    requires t.phase in {Exited, Faulted, Died}
    ensures Exec(base, t, items) == t
    decreases |items|
  {
    if items != [] {
      assert Consume(base, t, items[0]) == t;
      ExecStuck(base, t, items[1..]);
    }
  }

  /** The effects of a prefix of the stream are a prefix of the effects of the stream. */
  lemma StepLogGrows(base: TargetMemory.Mem, t: Target, it: Item)
    ensures t.log <= Settle(base, Consume(base, t, it)).log
  {
    hide Dontneed, Mprotect, StoreByte, AllReadable;
  }

  lemma {:induction false} ExecLogGrows(base: TargetMemory.Mem, t: Target, items: seq<Item>)
    ensures t.log <= Exec(base, t, items).log
    decreases |items|
  {
    hide Settle, Consume;
    if items != [] {
      StepLogGrows(base, t, items[0]);
      ExecLogGrows(base, Settle(base, Consume(base, t, items[0])), items[1..]);
    }
  }
}
