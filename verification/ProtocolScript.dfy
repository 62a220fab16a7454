/** What the scripts of cmd_checkpoint and cmd_restore do to a target when they run undisturbed. */
module ProtocolScript {
  import opened Bytes
  import opened TargetMemory
  import opened DumpCodec
  import opened Parasite
  import opened Protocol
  import opened ProtocolInvariant

  type Memory = TargetMemory.Mem

  // ---- jobs --------------------------------------------------------------------------------------

  predicate Within(r: Region, v: Vma) {
    v.start <= r.addr && r.addr + r.len <= v.end
  }

  /** A region lies in one of the scanned mappings. */
  ghost predicate Housed(vmas: seq<Vma>, r: Region) {
    exists v :: v in vmas && Within(r, v)
  }

  predicate HasRegion(w: Want) {
    w.Dump? || w.Free?
  }

  /** A request asks for something, and what is dumped lies in a scanned mapping and can be stored. */
  ghost predicate GoodWant(j: Job, w: Want)
    requires j.codec.pageSize > 0
  {
    match w
    case Ask(n) => n > 0
    case Dump(r) =>
      && Housed(j.vmas, r)
      && Storable(j.codec, Record(r, Slice(j.mem, r)))
    case Free(r) => true
  }

  /** No two requests meet. */
  predicate WantsApart(wants: seq<Want>) {
    forall i, k :: 0 <= i < k < |wants| && HasRegion(wants[i]) && HasRegion(wants[k]) ==>
      Apart(wants[i].r, wants[k].r)
  }

  /** The scan is right: every byte of a mapping is mapped, with the protection that was read. */
  ghost predicate Scanned(j: Job) {
    forall v, x: nat :: v in j.vmas && InVma(v, x) ==> x in j.mem && x in j.prot && j.prot[x] == v.prot
  }

  ghost predicate ValidJob(j: Job) {
    && Working(j.codec)
    && Scanned(j)
    && WantsApart(j.wants)
    && (forall i :: 0 <= i < |j.wants| ==> GoodWant(j, j.wants[i]))
  }

  /** What is dropped without being dumped is what the drop leaves. */
  ghost predicate FreesClean(j: Job) {
    forall i, x: nat :: 0 <= i < |j.wants| && j.wants[i].Free? && Covers(j.wants[i].r, x) && x in j.mem ==>
      j.mem[x] == At(j.base, x)
  }

  // ---- items and records of concatenated agendas -------------------------------------------------

  lemma {:induction false} ItemsAppend(a: seq<Action>, b: seq<Action>)
    ensures Items(a + b) == Items(a) + Items(b)
    decreases |a|
  {
    if a == [] {
      assert a + b == b;
    } else {
      assert (a + b)[0] == a[0] && (a + b)[1..] == a[1..] + b;
      ItemsAppend(a[1..], b);
    }
  }

  lemma ItemsSingle(a: Action)
    ensures Items([a]) == ItemsOf(a)
  {
    assert [a][1..] == [];
  }

  lemma ItemsPair(a: Action, b: Action)
    ensures Items([a, b]) == ItemsOf(a) + ItemsOf(b)
  {
    assert [a, b] == [a] + [b];
    ItemsAppend([a], [b]);
    ItemsSingle(a);
    ItemsSingle(b);
  }

  lemma {:induction false} AheadAppend(m: Memory, a: seq<Action>, b: seq<Action>)
    ensures Ahead(m, a + b) == Ahead(m, a) + Ahead(m, b)
    decreases |a|
  {
    if a == [] {
      assert a + b == b;
    } else {
      assert (a + b)[0] == a[0] && (a + b)[1..] == a[1..] + b;
      AheadAppend(m, a[1..], b);
    }
  }

  // ---- mprotect ----------------------------------------------------------------------------------

  function ProtAll(p: ProtMap, vmas: seq<Vma>, off: bool): (p': ProtMap)
    ensures p'.Keys == p.Keys
  {
    if vmas == [] then p
    else if ReadWrite(vmas[0].prot) then ProtAll(p, vmas[1..], off)
    else
      var q := vmas[0].prot;
      ProtAll(Mprotect(p, Span(vmas[0]), if off then q.(read := true, write := true) else q), vmas[1..], off)
  }

  function ProtLog(vmas: seq<Vma>, off: bool): seq<Event> {
    if vmas == [] then []
    else if ReadWrite(vmas[0].prot) then ProtLog(vmas[1..], off)
    else
      var q := vmas[0].prot;
      [Protected(Span(vmas[0]), if off then q.(read := true, write := true) else q)] + ProtLog(vmas[1..], off)
  }

  lemma {:induction false} ExecProtPuts(base: Memory, t: Target, vmas: seq<Vma>, off: bool)
    requires t.phase == InProtect
    ensures Exec(base, t, Items(ProtPuts(vmas, off)))
         == t.(prot := ProtAll(t.prot, vmas, off), log := t.log + ProtLog(vmas, off))
    decreases |vmas|
  {
    if vmas == [] {
      assert t.log + [] == t.log;
    } else if ReadWrite(vmas[0].prot) {
      ExecProtPuts(base, t, vmas[1..], off);
    } else {
      hide Mprotect;
      var q := vmas[0].prot;
      var it := Protect(Span(vmas[0]), if off then q.(read := true, write := true) else q);
      var rest := ProtPuts(vmas[1..], off);
      assert ProtPuts(vmas, off)[0] == Put(it) && ProtPuts(vmas, off)[1..] == rest;
      var items := Items(ProtPuts(vmas, off));
      assert items[0] == it && items[1..] == Items(rest);
      var t' := Consume(base, t, it);
      ExecProtPuts(base, t', vmas[1..], off);
      assert t'.log + ProtLog(vmas[1..], off) == t.log + ProtLog(vmas, off);
    }
  }

  /** A whole connection: what the parasite does with a command and its requests. */
  lemma ExecConnection(base: Memory, t: Target, c: Command, body: seq<Action>)
    requires t.phase == Listening
    ensures Exec(base, t, Items([Connect, Put(Cmd(c))] + body + [Close]))
         == Settle(base, Consume(base, Exec(base, t.(phase := Dispatch(c)), Items(body)), Eof))
  {
    var head := [Connect, Put(Cmd(c))];
    ItemsAppend(head + body, [Close]);
    ItemsAppend(head, body);
    assert Items([Close]) == [Eof];
    assert head[1..] == [Put(Cmd(c))] && [Put(Cmd(c))][1..] == [];
    assert Items(head) == [Accept, Cmd(c)];
    ExecAppend(base, t, [Accept, Cmd(c)] + Items(body), [Eof]);
    ExecAppend(base, t, [Accept, Cmd(c)], Items(body));
    assert [Accept, Cmd(c)] == [Accept] + [Cmd(c)];
    ExecAppend(base, t, [Accept], [Cmd(c)]);
    ExecOne(base, t, Accept);
    ExecOne(base, t.(phase := AwaitCmd), Cmd(c));
    ExecOne(base, Exec(base, t.(phase := Dispatch(c)), Items(body)), Eof);
  }

  lemma ExecProt(base: Memory, t: Target, vmas: seq<Vma>, off: bool)
    requires t.phase == Listening
    ensures Exec(base, t, Items(ProtActions(vmas, off)))
         == t.(prot := ProtAll(t.prot, vmas, off), log := t.log + ProtLog(vmas, off))
  {
    ExecConnection(base, t, CmdMprotect, ProtPuts(vmas, off));
    ExecProtPuts(base, t.(phase := InProtect), vmas, off);
  }

  // ---- get pages ---------------------------------------------------------------------------------

  function DropAll(m: Memory, base: Memory, wants: seq<Want>): (m': Memory)
    ensures m'.Keys == m.Keys
  {
    if wants == [] then m
    else DropAll(if HasRegion(wants[0]) then Dontneed(m, base, wants[0].r) else m, base, wants[1..])
  }

  function GetLog(wants: seq<Want>): seq<Event> {
    if wants == [] then [] else (if HasRegion(wants[0]) then [Dropped(wants[0].r)] else []) + GetLog(wants[1..])
  }

  lemma ExecWant(base: Memory, t: Target, w: Want, procMem: bool)
    requires t.phase == InGet
    requires w.Dump? ==> AllReadable(t.prot, w.r, 0)
    ensures Exec(base, t, Items(WantActions(w, procMem))) == if HasRegion(w) then Drop(base, t, w.r) else t
  {
    var acts := WantActions(w, procMem);
    var it := if w.Ask? then Query(w.len) else Mem(w.r, w.Dump? && !procMem);
    if |acts| == 2 {
      ItemsPair(acts[0], acts[1]);
    } else {
      ItemsSingle(acts[0]);
    }
    assert Items(acts) == [it];
    ExecOne(base, t, it);
  }

  ghost predicate DumpsReadable(p: ProtMap, wants: seq<Want>) {
    forall i :: 0 <= i < |wants| && wants[i].Dump? ==> AllReadable(p, wants[i].r, 0)
  }

  lemma DumpsReadableTail(p: ProtMap, wants: seq<Want>)
    requires wants != [] && DumpsReadable(p, wants)
    ensures wants[0].Dump? ==> AllReadable(p, wants[0].r, 0)
    ensures DumpsReadable(p, wants[1..])
  {
  }

  lemma {:induction false} ExecWants(base: Memory, t: Target, wants: seq<Want>, procMem: bool)
    requires t.phase == InGet && DumpsReadable(t.prot, wants)
    ensures Exec(base, t, Items(WantsActions(wants, procMem)))
         == t.(mem := DropAll(t.mem, base, wants), log := t.log + GetLog(wants))
    decreases |wants|
  {
    if wants == [] {
      assert t.log + [] == t.log;
    } else {
      var w := wants[0];
      var t' := if HasRegion(w) then Drop(base, t, w.r) else t;
      DumpsReadableTail(t.prot, wants);
      ExecFirstWant(base, t, t', wants, procMem);
      ExecWants(base, t', wants[1..], procMem);
      WantsEffect(base, t, t', wants);
    }
  }

  lemma GetLogStep(log: seq<Event>, wants: seq<Want>)
    requires wants != []
    ensures log + GetLog(wants)
         == (if HasRegion(wants[0]) then log + [Dropped(wants[0].r)] else log) + GetLog(wants[1..])
  {
  }

  lemma DropAllStep(m: Memory, base: Memory, wants: seq<Want>)
    requires wants != []
    ensures DropAll(m, base, wants)
         == DropAll(if HasRegion(wants[0]) then Dontneed(m, base, wants[0].r) else m, base, wants[1..])
  {
  }

  lemma WantsEffect(base: Memory, t: Target, t': Target, wants: seq<Want>)
    requires t.phase == InGet && wants != []
    requires t' == if HasRegion(wants[0]) then Drop(base, t, wants[0].r) else t
    ensures t'.(mem := DropAll(t'.mem, base, wants[1..]), log := t'.log + GetLog(wants[1..]))
         == t.(mem := DropAll(t.mem, base, wants), log := t.log + GetLog(wants))
    ensures t'.phase == InGet && t'.prot == t.prot
  {
    hide Dontneed, DropAll, GetLog;
    GetLogStep(t.log, wants);
    DropAllStep(t.mem, base, wants);
  }

  lemma ExecFirstWant(base: Memory, t: Target, t': Target, wants: seq<Want>, procMem: bool)
    requires t.phase == InGet && wants != []
    requires wants[0].Dump? ==> AllReadable(t.prot, wants[0].r, 0)
    requires t' == if HasRegion(wants[0]) then Drop(base, t, wants[0].r) else t
    ensures Exec(base, t, Items(WantsActions(wants, procMem)))
         == Exec(base, t', Items(WantsActions(wants[1..], procMem)))
  {
    var one := WantActions(wants[0], procMem);
    ItemsAppend(one, WantsActions(wants[1..], procMem));
    ExecAppend(base, t, Items(one), Items(WantsActions(wants[1..], procMem)));
    ExecWant(base, t, wants[0], procMem);
  }

  lemma ExecGet(base: Memory, t: Target, wants: seq<Want>, procMem: bool)
    requires t.phase == Listening && DumpsReadable(t.prot, wants)
    ensures Exec(base, t, Items(GetActions(wants, procMem)))
         == t.(mem := DropAll(t.mem, base, wants), log := t.log + GetLog(wants))
  {
    ExecConnection(base, t, CmdGetPages, WantsActions(wants, procMem));
    ExecWants(base, t.(phase := InGet), wants, procMem);
  }

  // ---- set pages ---------------------------------------------------------------------------------

  function StoreAll(m: Memory, recs: seq<Record>): (m': Memory)
    ensures m'.Keys == m.Keys
  {
    if recs == [] then m else StoreAll(Store(m, recs[0].region.addr, recs[0].data), recs[1..])
  }

  function DataLog(a: nat, data: seq<Byte>): (l: seq<Event>)
    ensures |l| == |data| && forall i :: 0 <= i < |data| ==> l[i] == Wrote(a + i, data[i])
  {
    seq(|data|, i requires 0 <= i < |data| => Wrote(a + i, data[i]))
  }

  lemma DataLogStep(log: seq<Event>, a: nat, data: seq<Byte>)
    requires data != []
    ensures (log + [Wrote(a, data[0])]) + DataLog(a + 1, data[1..]) == log + DataLog(a, data)
  {
  }

  function SetLog(recs: seq<Record>): seq<Event> {
    if recs == [] then [] else DataLog(recs[0].region.addr, recs[0].data) + SetLog(recs[1..])
  }

  lemma StoreStep(m: Memory, a: nat, data: seq<Byte>)
    requires data != []
    ensures Store(StoreByte(m, a, data[0]), a + 1, data[1..]) == Store(m, a, data)
  {
  }

  lemma ExecFirstByte(base: Memory, t: Target, data: seq<Byte>)
    requires data != []
    ensures Exec(base, t, Items(DataPuts(data)))
         == Exec(base, Settle(base, Consume(base, t, Data(data[0]))), Items(DataPuts(data[1..])))
  {
    ItemsAppend([Put(Data(data[0]))], DataPuts(data[1..]));
    ItemsSingle(Put(Data(data[0])));
    ExecAppend(base, t, [Data(data[0])], Items(DataPuts(data[1..])));
    ExecOne(base, t, Data(data[0]));
  }

  /** The parasite after one more byte of a region. */
  function Filled(t: Target, a: nat, left: nat, b: Byte): Target {
    t.(mem := StoreByte(t.mem, a, b), log := t.log + [Wrote(a, b)],
       phase := if left <= 1 then InSet else Filling(a + 1, left - 1))
  }

  lemma FillByte(base: Memory, t: Target, a: nat, left: nat, b: Byte)
    requires t.phase == Filling(a, left) && Writable(t.prot, a)
    ensures Settle(base, Consume(base, t, Data(b))) == Filled(t, a, left, b)
  {
  }

  lemma ExecNothing(base: Memory, t: Target)
    ensures Exec(base, t, Items(DataPuts([]))) == t
  {
  }

  lemma {:induction false} ExecData(base: Memory, t: Target, a: nat, data: seq<Byte>)
    requires data != [] && t.phase == Filling(a, |data|)
    requires forall x: nat :: a <= x < a + |data| ==> Writable(t.prot, x)
    ensures Exec(base, t, Items(DataPuts(data)))
         == t.(mem := Store(t.mem, a, data), phase := InSet, log := t.log + DataLog(a, data))
    decreases |data|
  {
    hide Exec, Items, DataPuts, Settle, Consume, Store, DataLog;
    assert Writable(t.prot, a);
    var t' := Filled(t, a, |data|, data[0]);
    FillByte(base, t, a, |data|, data[0]);
    ExecFirstByte(base, t, data);
    StoreStep(t.mem, a, data);
    DataLogStep(t.log, a, data);
    if |data| == 1 {
      assert data[1..] == [];
      ExecNothing(base, t');
      StoreNothing(t'.mem, a + 1);
      assert DataLog(a + 1, []) == [];
      assert t'.log + [] == t'.log;
    } else {
      ExecData(base, t', a + 1, data[1..]);
    }
  }

  lemma StoreNothing(m: Memory, a: nat)
    ensures Store(m, a, []) == m
  {
  }

  lemma ExecFirstRecord(base: Memory, t: Target, recs: seq<Record>)
    requires t.phase == InSet && recs != []
    requires |recs[0].data| == recs[0].region.len > 0
    requires forall x: nat :: recs[0].region.addr <= x < recs[0].region.addr + |recs[0].data| ==> Writable(t.prot, x)
    ensures var r, data := recs[0].region, recs[0].data;
            Exec(base, t, Items(SetPuts(recs)))
            == Exec(base, t.(mem := Store(t.mem, r.addr, data), log := t.log + DataLog(r.addr, data)),
                    Items(SetPuts(recs[1..])))
  {
    hide Exec, Store, DataLog, DataPuts, Items;
    var r, data := recs[0].region, recs[0].data;
    var head := [Put(Mem(r, false))];
    ItemsSingle(head[0]);
    ItemsAppend(head + DataPuts(data), SetPuts(recs[1..]));
    ItemsAppend(head, DataPuts(data));
    ExecAppend(base, t, [Mem(r, false)] + Items(DataPuts(data)), Items(SetPuts(recs[1..])));
    ExecAppend(base, t, [Mem(r, false)], Items(DataPuts(data)));
    ExecOne(base, t, Mem(r, false));
    ExecData(base, t.(phase := Filling(r.addr, r.len)), r.addr, data);
  }

  /** Records that match their regions, all of it writable. */
  ghost predicate Storing(p: ProtMap, recs: seq<Record>) {
    && (forall i, x: nat :: 0 <= i < |recs| && Covers(recs[i].region, x) ==> Writable(p, x))
    && (forall i :: 0 <= i < |recs| ==> |recs[i].data| == recs[i].region.len > 0)
  }

  lemma StoringTail(p: ProtMap, recs: seq<Record>)
    requires Storing(p, recs) && recs != []
    ensures Storing(p, recs[1..]) && |recs[0].data| == recs[0].region.len > 0
    ensures forall x: nat :: recs[0].region.addr <= x < recs[0].region.addr + |recs[0].data| ==> Writable(p, x)
  {
    forall x: nat | recs[0].region.addr <= x < recs[0].region.addr + |recs[0].data| ensures Writable(p, x) {
      assert Covers(recs[0].region, x);
    }
    assert forall i :: 0 <= i < |recs[1..]| ==> recs[1..][i] == recs[i + 1];
  }

  lemma StoreAllStep(m: Memory, recs: seq<Record>)
    requires recs != []
    ensures StoreAll(m, recs) == StoreAll(Store(m, recs[0].region.addr, recs[0].data), recs[1..])
  {
  }

  lemma SetLogStep(log: seq<Event>, recs: seq<Record>)
    requires recs != []
    ensures (log + DataLog(recs[0].region.addr, recs[0].data)) + SetLog(recs[1..]) == log + SetLog(recs)
  {
    hide DataLog;
  }

  lemma SetEffect(t: Target, t2: Target, recs: seq<Record>)
    requires recs != []
    requires t2 == t.(mem := Store(t.mem, recs[0].region.addr, recs[0].data),
                      log := t.log + DataLog(recs[0].region.addr, recs[0].data))
    ensures t2.(mem := StoreAll(t2.mem, recs[1..]), log := t2.log + SetLog(recs[1..]))
         == t.(mem := StoreAll(t.mem, recs), log := t.log + SetLog(recs))
  {
    hide Store, DataLog, StoreAll, SetLog;
    StoreAllStep(t.mem, recs);
    SetLogStep(t.log, recs);
  }

  lemma {:induction false} ExecSetPuts(base: Memory, t: Target, recs: seq<Record>)
    requires t.phase == InSet && Storing(t.prot, recs)
    ensures Exec(base, t, Items(SetPuts(recs)))
         == t.(mem := StoreAll(t.mem, recs), log := t.log + SetLog(recs))
    decreases |recs|
  {
    if recs == [] {
      assert t.log + [] == t.log;
    } else {
      hide Exec, Items, SetPuts, Store, Storing, StoreAll, SetLog, DataLog;
      var r, data := recs[0].region, recs[0].data;
      var t2 := t.(mem := Store(t.mem, r.addr, data), log := t.log + DataLog(r.addr, data));
      StoringTail(t.prot, recs);
      ExecFirstRecord(base, t, recs);
      ExecSetPuts(base, t2, recs[1..]);
      SetEffect(t, t2, recs);
    }
  }

  lemma ExecSet(base: Memory, t: Target, recs: seq<Record>)
    requires t.phase == Listening && Storing(t.prot, recs)
    ensures Exec(base, t, Items(SetActions(recs)))
         == t.(mem := StoreAll(t.mem, recs), log := t.log + SetLog(recs))
  {
    ExecConnection(base, t, CmdSetPages, SetPuts(recs));
    ExecSetPuts(base, t.(phase := InSet), recs);
  }

  lemma ExecEnd(base: Memory, t: Target)
    requires t.phase == Listening
    ensures Exec(base, t, Items([Connect, Put(Cmd(CmdEnd)), Close])) == t.(phase := Exited)
  {
    assert [Connect, Put(Cmd(CmdEnd))] + [] + [Close] == [Connect, Put(Cmd(CmdEnd)), Close];
    ExecConnection(base, t, CmdEnd, []);
  }
}
