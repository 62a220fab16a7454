/** The guarantees of the memcr-parasite protocol, for every valid job and every schedule. */
module ProtocolTheorems {
  import opened TargetMemory
  import opened DumpCodec
  import opened Parasite
  import opened Protocol
  import opened ProtocolInvariant
  import opened ProtocolScript
  import opened ProtocolJobs

  // ---- protections come back ---------------------------------------------------------------------

  predicate Locked(vmas: seq<Vma>, x: nat) {
    exists v :: v in vmas && InVma(v, x) && !ReadWrite(v.prot)
  }

  lemma LockedTail(vmas: seq<Vma>, x: nat)
    requires vmas != []
    ensures Locked(vmas, x) <==> (InVma(vmas[0], x) && !ReadWrite(vmas[0].prot)) || Locked(vmas[1..], x)
  {
    assert vmas == [vmas[0]] + vmas[1..];
  }

  /** After target_mprotect_off, a byte of a locked mapping is readable and writable, others are untouched. */
  lemma {:induction false} OffByte(p: ProtMap, vmas: seq<Vma>, x: nat)
    requires x in p
    ensures Locked(vmas, x) || ReadWrite(p[x]) ==> ReadWrite(ProtAll(p, vmas, true)[x])
    ensures !Locked(vmas, x) ==> ProtAll(p, vmas, true)[x] == p[x]
    decreases |vmas|
  {
    if vmas != [] {
      LockedTail(vmas, x);
      if ReadWrite(vmas[0].prot) {
        OffByte(p, vmas[1..], x);
      } else {
        OffByte(Mprotect(p, Span(vmas[0]), vmas[0].prot.(read := true, write := true)), vmas[1..], x);
      }
    }
  }

  /** After target_mprotect_on, a byte of a locked mapping has the mapping's protection again. */
  lemma {:induction false} OnByte(p: ProtMap, vmas: seq<Vma>, x: nat, was: Prot)
    requires x in p
    requires forall v :: v in vmas && InVma(v, x) ==> v.prot == was
    ensures ProtAll(p, vmas, false)[x] == if Locked(vmas, x) then was else p[x]
    decreases |vmas|
  {
    if vmas != [] {
      LockedTail(vmas, x);
      if ReadWrite(vmas[0].prot) {
        OnByte(p, vmas[1..], x, was);
      } else {
        OnByte(Mprotect(p, Span(vmas[0]), vmas[0].prot), vmas[1..], x, was);
      }
    }
  }

  lemma ProtComesBack(j: Job)
    requires Scanned(j)
    ensures ProtAll(ProtAll(j.prot, j.vmas, true), j.vmas, false) == j.prot
  {
    var off := ProtAll(j.prot, j.vmas, true);
    forall x: nat | x in j.prot ensures ProtAll(off, j.vmas, false)[x] == j.prot[x] {
      OffByte(j.prot, j.vmas, x);
      OnByte(off, j.vmas, x, j.prot[x]);
    }
  }

  lemma OpenedUp(j: Job, v: Vma, x: nat)
    requires Scanned(j) && v in j.vmas && InVma(v, x)
    ensures Readable(ProtAll(j.prot, j.vmas, true), x) && Writable(ProtAll(j.prot, j.vmas, true), x)
  {
    OffByte(j.prot, j.vmas, x);
    if !ReadWrite(v.prot) {
      assert Locked(j.vmas, x);
    }
  }

  // ---- memory comes back -------------------------------------------------------------------------

  predicate Wanted(wants: seq<Want>, x: nat) {
    exists i :: 0 <= i < |wants| && HasRegion(wants[i]) && Covers(wants[i].r, x)
  }

  lemma WantedTail(wants: seq<Want>, x: nat)
    requires wants != []
    ensures Wanted(wants, x) <==>
              (HasRegion(wants[0]) && Covers(wants[0].r, x)) || Wanted(wants[1..], x)
  {
    if Wanted(wants[1..], x) {
      var i :| 0 <= i < |wants[1..]| && HasRegion(wants[1..][i]) && Covers(wants[1..][i].r, x);
      assert wants[i + 1] == wants[1..][i];
    }
    if Wanted(wants, x) {
      var i :| 0 <= i < |wants| && HasRegion(wants[i]) && Covers(wants[i].r, x);
      assert i > 0 ==> wants[1..][i - 1] == wants[i];
    }
  }

  lemma {:induction false} DropAllByte(m: Memory, base: Memory, wants: seq<Want>, x: nat)
    requires x in m
    ensures DropAll(m, base, wants)[x] == if Wanted(wants, x) then At(base, x) else m[x]
    decreases |wants|
  {
    if wants != [] {
      WantedTail(wants, x);
      DropAllByte(if HasRegion(wants[0]) then Dontneed(m, base, wants[0].r) else m, base, wants[1..], x);
    }
  }

  /** The records of a checkpoint that read every dumped region as it was in m. */
  function DumpRecords(m: Memory, wants: seq<Want>): seq<Record> {
    if wants == [] then []
    else (if wants[0].Dump? then [Record(wants[0].r, Slice(m, wants[0].r))] else []) + DumpRecords(m, wants[1..])
  }

  predicate Dumped(wants: seq<Want>, x: nat) {
    exists i :: 0 <= i < |wants| && wants[i].Dump? && Covers(wants[i].r, x)
  }

  lemma DumpedTail(wants: seq<Want>, x: nat)
    requires wants != []
    ensures Dumped(wants, x) <==> (wants[0].Dump? && Covers(wants[0].r, x)) || Dumped(wants[1..], x)
  {
    if Dumped(wants[1..], x) {
      var i :| 0 <= i < |wants[1..]| && wants[1..][i].Dump? && Covers(wants[1..][i].r, x);
      assert wants[i + 1] == wants[1..][i];
    }
    if Dumped(wants, x) {
      var i :| 0 <= i < |wants| && wants[i].Dump? && Covers(wants[i].r, x);
      assert i > 0 ==> wants[1..][i - 1] == wants[i];
    }
  }

  lemma StoreBackByte(m: Memory, was: Memory, r: Region, x: nat)
    requires x in m && x in was
    ensures Store(m, r.addr, Slice(was, r))[x] == if Covers(r, x) then was[x] else m[x]
  {
  }

  lemma {:induction false} StoreAllByte(m: Memory, was: Memory, wants: seq<Want>, x: nat)
    requires x in m && x in was
    ensures StoreAll(m, DumpRecords(was, wants))[x] == if Dumped(wants, x) then was[x] else m[x]
    decreases |wants|
  {
    if wants != [] {
      hide Dumped, Store, Slice;
      DumpedTail(wants, x);
      var recs := DumpRecords(was, wants);
      if wants[0].Dump? {
        var r := wants[0].r;
        assert recs[0] == Record(r, Slice(was, r)) && recs[1..] == DumpRecords(was, wants[1..]);
        StoreBackByte(m, was, r, x);
        StoreAllByte(Store(m, r.addr, Slice(was, r)), was, wants[1..], x);
      } else {
        assert recs == DumpRecords(was, wants[1..]);
        StoreAllByte(m, was, wants[1..], x);
      }
    }
  }

  /** The memory after all requested regions were dropped and all dumped ones stored back. */
  function MemoryAfter(j: Job): Memory {
    StoreAll(DropAll(j.mem, j.base, j.wants), DumpRecords(j.mem, j.wants))
  }

  lemma MemoryAfterByte(j: Job, x: nat)
    requires x in j.mem
    ensures x in MemoryAfter(j)
    ensures MemoryAfter(j)[x] == if Wanted(j.wants, x) && !Dumped(j.wants, x) then At(j.base, x) else j.mem[x]
  {
    DropAllByte(j.mem, j.base, j.wants, x);
    StoreAllByte(DropAll(j.mem, j.base, j.wants), j.mem, j.wants, x);
    if Dumped(j.wants, x) {
      var i :| 0 <= i < |j.wants| && j.wants[i].Dump? && Covers(j.wants[i].r, x);
      assert HasRegion(j.wants[i]);
    }
  }

  /** What is dropped and not dumped lies in a region that was only to be freed, and in no other. */
  lemma OnlyFreed(j: Job, i: nat, x: nat)
    requires WantsApart(j.wants) && i < |j.wants| && j.wants[i].Free? && Covers(j.wants[i].r, x)
    ensures Wanted(j.wants, x) && !Dumped(j.wants, x)
  {
    assert HasRegion(j.wants[i]);
  }

  /** Dropping and storing back gives the original memory exactly when everything dropped unsaved was clean. */
  lemma MemoryComesBackIff(j: Job)
    requires WantsApart(j.wants)
    ensures MemoryAfter(j) == j.mem <==> FreesClean(j)
  {
    if FreesClean(j) {
      forall x: nat | x in j.mem ensures MemoryAfter(j)[x] == j.mem[x] {
        MemoryAfterByte(j, x);
        if Wanted(j.wants, x) && !Dumped(j.wants, x) {
          var i :| 0 <= i < |j.wants| && HasRegion(j.wants[i]) && Covers(j.wants[i].r, x);
          assert j.wants[i].Free?;
        }
      }
    } else {
      var i, x: nat :| 0 <= i < |j.wants| && j.wants[i].Free? && Covers(j.wants[i].r, x) && x in j.mem
                       && j.mem[x] != At(j.base, x);
      OnlyFreed(j, i, x);
      MemoryAfterByte(j, x);
    }
  }

  // ---- valid jobs have sound scripts -------------------------------------------------------------

  predicate Silent(a: Action) {
    a.Connect? || a.Put? || a.Close?
  }

  lemma {:induction false} AheadSilent(m: Memory, todo: seq<Action>)
    requires forall i :: 0 <= i < |todo| ==> Silent(todo[i])
    ensures Ahead(m, todo) == []
    decreases |todo|
  {
    if todo != [] {
      AheadSilent(m, todo[1..]);
    }
  }

  lemma {:induction false} ProtPutsSilent(vmas: seq<Vma>, off: bool)
    ensures forall i :: 0 <= i < |ProtPuts(vmas, off)| ==> Silent(ProtPuts(vmas, off)[i])
    decreases |vmas|
  {
    if vmas != [] {
      ProtPutsSilent(vmas[1..], off);
    }
  }

  lemma AheadWant(m: Memory, w: Want, procMem: bool)
    ensures Ahead(m, WantActions(w, procMem)) == if w.Dump? then [Record(w.r, Slice(m, w.r))] else []
  {
    var acts := WantActions(w, procMem);
    assert |acts| == 2 ==> acts[1..] == [acts[1]] && [acts[1]][1..] == [];
    assert |acts| == 1 ==> acts[1..] == [];
    assert Ahead(m, []) == [];
    if |acts| == 2 {
      assert Ahead(m, acts[1..]) == if acts[1].Fetch? then [Record(w.r, Slice(m, w.r))] else [];
    }
  }

  lemma {:induction false} AheadWants(m: Memory, wants: seq<Want>, procMem: bool)
    ensures Ahead(m, WantsActions(wants, procMem)) == DumpRecords(m, wants)
    decreases |wants|
  {
    if wants != [] {
      AheadAppend(m, WantActions(wants[0], procMem), WantsActions(wants[1..], procMem));
      AheadWant(m, wants[0], procMem);
      AheadWants(m, wants[1..], procMem);
    }
  }

  /** The checkpoint saves exactly the regions it asks to dump, in order. */
  lemma GetRecords(m: Memory, wants: seq<Want>, procMem: bool)
    ensures Ahead(m, GetActions(wants, procMem)) == DumpRecords(m, wants)
  {
    hide Ahead, DumpRecords, WantsActions;
    var head, body := [Connect, Put(Cmd(CmdGetPages))], WantsActions(wants, procMem);
    AheadAppend(m, head + body, [Close]);
    AheadAppend(m, head, body);
    AheadSilent(m, head);
    AheadSilent(m, [Close]);
    AheadWants(m, wants, procMem);
    assert [] + DumpRecords(m, wants) + [] == DumpRecords(m, wants);
  }

  lemma RecordsAre(j: Job)
    ensures Records(j) == DumpRecords(j.mem, j.wants)
  {
    hide Ahead, DumpRecords, ProtActions, GetActions;
    var off, get := ProtActions(j.vmas, true), GetActions(j.wants, j.procMem);
    ProtActionsSilent(j.vmas, true);
    AheadSilent(j.mem, off);
    AheadAppend(j.mem, off, get);
    GetRecords(j.mem, j.wants, j.procMem);
    assert [] + DumpRecords(j.mem, j.wants) == DumpRecords(j.mem, j.wants);
  }

  lemma ProtActionsSilent(vmas: seq<Vma>, off: bool)
    ensures forall i :: 0 <= i < |ProtActions(vmas, off)| ==> Silent(ProtActions(vmas, off)[i])
  {
    ProtPutsSilent(vmas, off);
  }

  ghost predicate GoodRecord(j: Job, rec: Record)
    requires j.codec.pageSize > 0
  {
    Storable(j.codec, rec) && Housed(j.vmas, rec.region)
  }

  lemma {:induction false} DumpRecordsGood(j: Job, wants: seq<Want>)
    requires j.codec.pageSize > 0
    requires forall i :: 0 <= i < |wants| ==> GoodWant(j, wants[i])
    ensures forall i :: 0 <= i < |DumpRecords(j.mem, wants)| ==> GoodRecord(j, DumpRecords(j.mem, wants)[i])
    decreases |wants|
  {
    if wants != [] {
      DumpRecordsGood(j, wants[1..]);
      assert GoodWant(j, wants[0]);
      var recs, rest := DumpRecords(j.mem, wants), DumpRecords(j.mem, wants[1..]);
      forall i | 0 <= i < |recs| ensures GoodRecord(j, recs[i]) {
        if wants[0].Dump? {
          assert i > 0 ==> recs[i] == rest[i - 1];
        } else {
          assert recs[i] == rest[i];
        }
      }
    }
  }

  /** Where cmd_checkpoint leaves an undisturbed target. */
  function Frozen(j: Job): Target {
    Target(DropAll(j.mem, j.base, j.wants), ProtAll(j.prot, j.vmas, true), Listening,
           ProtLog(j.vmas, true) + GetLog(j.wants))
  }

  lemma AfterCheckpoint(j: Job)
    requires ValidJob(j)
    ensures Exec(j.base, Start(j), Items(CheckpointActions(j))) == Frozen(j)
  {
    var off, get := ProtActions(j.vmas, true), GetActions(j.wants, j.procMem);
    ItemsAppend(off, get);
    ExecAppend(j.base, Start(j), Items(off), Items(get));
    ExecProt(j.base, Start(j), j.vmas, true);
    var t := Start(j).(prot := ProtAll(j.prot, j.vmas, true), log := ProtLog(j.vmas, true));
    assert [] + ProtLog(j.vmas, true) == ProtLog(j.vmas, true);
    forall i | 0 <= i < |j.wants| && j.wants[i].Dump? ensures AllReadable(t.prot, j.wants[i].r, 0) {
      DumpReadable(j, j.wants[i]);
    }
    ExecGet(j.base, t, j.wants, j.procMem);
  }

  lemma DumpReadable(j: Job, w: Want)
    requires Scanned(j) && j.codec.pageSize > 0 && w.Dump? && GoodWant(j, w)
    ensures AllReadable(ProtAll(j.prot, j.vmas, true), w.r, 0)
  {
    var v :| v in j.vmas && Within(w.r, v);
    forall x: nat | Covers(w.r, x) ensures Readable(ProtAll(j.prot, j.vmas, true), x) {
      OpenedUp(j, v, x);
    }
  }

  /** All that is sent before the connection that ends the parasite. */
  function BeforeEnd(j: Job): seq<Item> {
    Items(CheckpointActions(j)) + Items(SetActions(Records(j)) + ProtActions(j.vmas, false))
  }

  lemma ScriptEnd(j: Job)
    ensures Script(j, Restoring) == BeforeEnd(j) + [Accept, Cmd(CmdEnd), Eof]
  {
    var back, end := SetActions(Records(j)) + ProtActions(j.vmas, false), [Connect, Put(Cmd(CmdEnd)), Close];
    ItemsAppend(back, end);
    EndItems();
  }

  lemma EndItems()
    ensures Items([Connect, Put(Cmd(CmdEnd)), Close]) == [Accept, Cmd(CmdEnd), Eof]
  {
    assert [Connect, Put(Cmd(CmdEnd)), Close] == [Connect, Put(Cmd(CmdEnd))] + [] + [Close];
    ConnectionItems(CmdEnd, []);
  }

  lemma AfterProtOn(j: Job)
    requires ValidJob(j)
    ensures Exec(j.base, Start(j), BeforeEnd(j))
         == Target(MemoryAfter(j), j.prot, Listening,
                   Frozen(j).log + SetLog(DumpRecords(j.mem, j.wants)) + ProtLog(j.vmas, false))
  {
    var recs := DumpRecords(j.mem, j.wants);
    RecordsAre(j);
    AfterCheckpoint(j);
    var set_, on := SetActions(recs), ProtActions(j.vmas, false);
    ItemsAppend(set_, on);
    ExecAppend(j.base, Start(j), Items(CheckpointActions(j)), Items(set_ + on));
    ExecAppend(j.base, Frozen(j), Items(set_), Items(on));
    RecordsWritable(j);
    ExecSet(j.base, Frozen(j), recs);
    var t := Frozen(j).(mem := MemoryAfter(j), log := Frozen(j).log + SetLog(recs));
    ExecProt(j.base, t, j.vmas, false);
    ProtComesBack(j);
  }

  /** Where cmd_restore leaves it: regions dropped and stored back, protections as found, and the parasite gone. */
  lemma AfterRestore(j: Job)
    requires ValidJob(j)
    ensures Exec(j.base, Start(j), Script(j, Restoring))
         == Target(MemoryAfter(j), j.prot, Exited,
                   Frozen(j).log + SetLog(DumpRecords(j.mem, j.wants)) + ProtLog(j.vmas, false))
  {
    ScriptEnd(j);
    AfterProtOn(j);
    var t := Exec(j.base, Start(j), BeforeEnd(j));
    ExecAppend(j.base, Start(j), BeforeEnd(j), [Accept, Cmd(CmdEnd), Eof]);
    EndItems();
    ExecEnd(j.base, t);
  }

  lemma RecordsWritable(j: Job)
    requires ValidJob(j)
    ensures Storing(Frozen(j).prot, DumpRecords(j.mem, j.wants))
  {
    var recs := DumpRecords(j.mem, j.wants);
    DumpRecordsGood(j, j.wants);
    assert forall i :: 0 <= i < |recs| ==> GoodRecord(j, recs[i]);
    forall i, x: nat | 0 <= i < |recs| && Covers(recs[i].region, x) ensures Writable(Frozen(j).prot, x) {
      assert GoodRecord(j, recs[i]);
      var v :| v in j.vmas && Within(recs[i].region, v);
      OpenedUp(j, v, x);
    }
  }

  lemma {:induction false} ProtLogShape(vmas: seq<Vma>, off: bool)
    ensures forall i :: 0 <= i < |ProtLog(vmas, off)| ==> ProtLog(vmas, off)[i].Protected?
  {
    if vmas != [] {
      ProtLogShape(vmas[1..], off);
    }
  }

  lemma {:induction false} GetLogShape(wants: seq<Want>)
    ensures forall i :: 0 <= i < |GetLog(wants)| ==> GetLog(wants)[i].Dropped?
  {
    if wants != [] {
      GetLogShape(wants[1..]);
    }
  }

  lemma {:induction false} SetLogShape(recs: seq<Record>)
    ensures forall i :: 0 <= i < |SetLog(recs)| ==> SetLog(recs)[i].Wrote?
  {
    if recs != [] {
      SetLogShape(recs[1..]);
    }
  }

  lemma ScriptOrdered(j: Job)
    ensures Ordered(Frozen(j).log + SetLog(DumpRecords(j.mem, j.wants)) + ProtLog(j.vmas, false))
  {
    ProtLogShape(j.vmas, true);
    ProtLogShape(j.vmas, false);
    GetLogShape(j.wants);
    SetLogShape(DumpRecords(j.mem, j.wants));
  }

  lemma CheckpointFits(j: Job)
    requires ValidJob(j)
    ensures Fits(true, [], CheckpointActions(j))
  {
    var off, get := ProtActions(j.vmas, true), GetActions(j.wants, j.procMem);
    NoMemInProt(j.vmas, true);
    assert ClearOf(Items(off), j.wants);
    forall i | 0 <= i < |j.wants| ensures NonEmpty(j.wants[i]) {
      assert GoodWant(j, j.wants[i]);
    }
    assert get + [] == get;
    FitsGet(Items(off), j.wants, j.procMem, []);
    assert [] + Items(off) == Items(off);
    FitsProt(true, [], j.vmas, true, get);
  }

  lemma NoMemInProt(vmas: seq<Vma>, off: bool)
    ensures forall i :: 0 <= i < |Items(ProtActions(vmas, off))| ==> !Items(ProtActions(vmas, off))[i].Mem?
  {
    ConnectionItems(CmdMprotect, ProtPuts(vmas, off));
    NoMemInPuts(vmas, off);
  }

  lemma {:induction false} NoMemInPuts(vmas: seq<Vma>, off: bool)
    ensures forall i :: 0 <= i < |Items(ProtPuts(vmas, off))| ==> !Items(ProtPuts(vmas, off))[i].Mem?
    decreases |vmas|
  {
    if vmas != [] {
      NoMemInPuts(vmas[1..], off);
      var puts := ProtPuts(vmas, off);
      if !ReadWrite(vmas[0].prot) {
        assert puts[1..] == ProtPuts(vmas[1..], off);
      }
    }
  }

  lemma RestoreFits(j: Job, sent: seq<Item>, recs: seq<Record>)
    ensures Fits(false, sent, RestoreActions(j, recs))
  {
    var set_, on, end := SetActions(recs), ProtActions(j.vmas, false), [Connect, Put(Cmd(CmdEnd)), Close];
    FitsEnd((sent + Items(set_)) + Items(on));
    FitsProt(false, sent + Items(set_), j.vmas, false, end);
    FitsSet(sent, recs, on + end);
    assert set_ + (on + end) == set_ + on + end;
  }

  lemma ValidIsSound(j: Job)
    requires ValidJob(j)
    ensures Sound(j)
  {
    CheckpointFits(j);
    RestoreFits(j, Items(CheckpointActions(j)), Records(j));
    AfterCheckpoint(j);
    assert Items(CheckpointActions(j)) + [] == Items(CheckpointActions(j));
    AfterRestore(j);
    ScriptOrdered(j);
    RecordsAre(j);
    DumpRecordsGood(j, j.wants);
    forall i | 0 <= i < |Records(j)| ensures Storable(j.codec, Records(j)[i]) {
      assert GoodRecord(j, Records(j)[i]);
    }
  }
}
