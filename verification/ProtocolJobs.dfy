/** Every valid job has sound scripts, which undo each other. */
module ProtocolJobs {
  import opened Bytes
  import opened TargetMemory
  import opened DumpCodec
  import opened Parasite
  import opened Protocol
  import opened ProtocolInvariant
  import opened ProtocolScript

  // ---- the agendas fit ---------------------------------------------------------------------------

  lemma FitsCons(ck: bool, sent: seq<Item>, a: Action, rest: seq<Action>)
    requires FitsOne(ck, sent, a, rest) && Fits(ck, sent + ItemsOf(a), rest)
    ensures Fits(ck, sent, [a] + rest)
  {
    assert ([a] + rest)[1..] == rest;
  }

  lemma {:induction false} FitsProtPuts(ck: bool, sent: seq<Item>, vmas: seq<Vma>, off: bool, rest: seq<Action>)
    requires OpenTail(rest) && Fits(ck, sent + Items(ProtPuts(vmas, off)), rest)
    ensures OpenTail(ProtPuts(vmas, off) + rest) && Fits(ck, sent, ProtPuts(vmas, off) + rest)
    decreases |vmas|
  {
    var puts := ProtPuts(vmas, off);
    if vmas == [] {
      assert puts + rest == rest && sent + Items(puts) == sent;
    } else if ReadWrite(vmas[0].prot) {
      FitsProtPuts(ck, sent, vmas[1..], off, rest);
    } else {
      var a := puts[0];
      var more := ProtPuts(vmas[1..], off);
      assert puts[1..] == more;
      assert sent + Items(puts) == (sent + [a.it]) + Items(more);
      FitsProtPuts(ck, sent + [a.it], vmas[1..], off, rest);
      FitsCons(ck, sent, a, more + rest);
      assert puts + rest == [a] + (more + rest);
    }
  }

  /** A whole connection fits if its body fits before a close. */
  lemma FitsConnection(ck: bool, sent: seq<Item>, c: Command, body: seq<Action>, rest: seq<Action>)
    requires ck ==> c != CmdSetPages && c != CmdEnd
    requires OpenTail(body + ([Close] + rest)) && !OpenTail(rest)
    requires Fits(ck, sent + [Accept, Cmd(c)], body + ([Close] + rest))
    ensures Fits(ck, sent, ([Connect, Put(Cmd(c))] + body + [Close]) + rest)
    ensures !OpenTail(([Connect, Put(Cmd(c))] + body + [Close]) + rest)
  {
    var tail := body + ([Close] + rest);
    assert sent + [Accept, Cmd(c)] == (sent + [Accept]) + [Cmd(c)];
    FitsCons(ck, sent + [Accept], Put(Cmd(c)), tail);
    assert ([Put(Cmd(c))] + tail)[1..] == tail;
    FitsCons(ck, sent, Connect, [Put(Cmd(c))] + tail);
    assert ([Connect, Put(Cmd(c))] + body + [Close]) + rest == [Connect] + ([Put(Cmd(c))] + tail);
  }

  lemma FitsClose(ck: bool, sent: seq<Item>, rest: seq<Action>)
    requires !OpenTail(rest) && Fits(ck, sent + [Eof], rest)
    ensures Fits(ck, sent, [Close] + rest) && OpenTail([Close] + rest)
  {
    FitsCons(ck, sent, Close, rest);
  }

  lemma ConnectionItems(c: Command, body: seq<Action>)
    ensures Items([Connect, Put(Cmd(c))] + body + [Close]) == [Accept, Cmd(c)] + Items(body) + [Eof]
  {
    ItemsAppend([Connect, Put(Cmd(c))] + body, [Close]);
    ItemsAppend([Connect, Put(Cmd(c))], body);
    ItemsPair(Connect, Put(Cmd(c)));
    ItemsSingle(Close);
  }

  lemma FitsProt(ck: bool, sent: seq<Item>, vmas: seq<Vma>, off: bool, rest: seq<Action>)
    requires !OpenTail(rest) && Fits(ck, sent + Items(ProtActions(vmas, off)), rest)
    ensures Fits(ck, sent, ProtActions(vmas, off) + rest) && !OpenTail(ProtActions(vmas, off) + rest)
  {
    var body := ProtPuts(vmas, off);
    ConnectionItems(CmdMprotect, body);
    var sent1 := sent + [Accept, Cmd(CmdMprotect)];
    assert sent + Items(ProtActions(vmas, off)) == (sent1 + Items(body)) + [Eof];
    FitsClose(ck, sent1 + Items(body), rest);
    FitsProtPuts(ck, sent1, vmas, off, [Close] + rest);
    FitsConnection(ck, sent, CmdMprotect, body, rest);
  }

  predicate ClearOf(sent: seq<Item>, wants: seq<Want>) {
    forall i :: 0 <= i < |wants| && HasRegion(wants[i]) ==> Clear(sent, wants[i].r)
  }

  predicate NonEmpty(w: Want) {
    match w
    case Dump(r) => r.len > 0
    case Free(r) => true
    case Ask(n) => n > 0
  }

  lemma FitsOneAction(sent: seq<Item>, a: Action, rest: seq<Action>)
    requires FitsOne(true, sent, a, rest) && a.Put? && OpenTail(rest)
    requires Fits(true, sent + Items([a]), rest)
    ensures Fits(true, sent, [a] + rest) && OpenTail([a] + rest) && !Receives([a] + rest)
  {
    ItemsSingle(a);
    FitsCons(true, sent, a, rest);
  }

  lemma FitsPair(sent: seq<Item>, a: Action, b: Action, rest: seq<Action>)
    requires FitsOne(true, sent, a, [b] + rest) && FitsOne(true, sent + ItemsOf(a), b, rest)
    requires (a.Put? || a.PeekAt?) && !b.Connect? && !b.Close? && OpenTail(rest)
    requires Fits(true, sent + Items([a, b]), rest)
    ensures Fits(true, sent, [a, b] + rest) && OpenTail([a, b] + rest) && !Receives([a, b] + rest)
  {
    hide FitsOne;
    ItemsPair(a, b);
    assert sent + Items([a, b]) == (sent + ItemsOf(a)) + ItemsOf(b);
    FitsCons(true, sent + ItemsOf(a), b, rest);
    FitsCons(true, sent, a, [b] + rest);
    assert [a, b] + rest == [a] + ([b] + rest);
  }

  lemma FitsWant(sent: seq<Item>, w: Want, procMem: bool, rest: seq<Action>)
    requires OpenTail(rest) && !Receives(rest) && NonEmpty(w)
    requires HasRegion(w) ==> Clear(sent, w.r)
    requires Fits(true, sent + Items(WantActions(w, procMem)), rest)
    ensures Fits(true, sent, WantActions(w, procMem) + rest)
    ensures OpenTail(WantActions(w, procMem) + rest) && !Receives(WantActions(w, procMem) + rest)
  {
    hide Fits, Items, OpenTail;
    var acts := WantActions(w, procMem);
    if |acts| == 1 {
      FitsOneAction(sent, acts[0], rest);
    } else {
      assert acts == [acts[0], acts[1]] && ([acts[1]] + rest)[0] == acts[1];
      PairFits(sent, w, procMem, rest);
      FitsPair(sent, acts[0], acts[1], rest);
    }
  }

  lemma PairFits(sent: seq<Item>, w: Want, procMem: bool, rest: seq<Action>)
    requires OpenTail(rest) && !Receives(rest) && NonEmpty(w) && |WantActions(w, procMem)| == 2
    requires HasRegion(w) ==> Clear(sent, w.r)
    ensures var acts := WantActions(w, procMem);
            FitsOne(true, sent, acts[0], [acts[1]] + rest) && FitsOne(true, sent + ItemsOf(acts[0]), acts[1], rest)
  {
    var acts := WantActions(w, procMem);
    assert ([acts[1]] + rest)[0] == acts[1] && ([acts[1]] + rest)[1..] == rest;
    assert sent + [] == sent;
  }

  lemma {:induction false} FitsWants(sent: seq<Item>, wants: seq<Want>, procMem: bool, rest: seq<Action>)
    requires OpenTail(rest) && !Receives(rest)
    requires ClearOf(sent, wants) && WantsApart(wants)
    requires forall i :: 0 <= i < |wants| ==> NonEmpty(wants[i])
    requires Fits(true, sent + Items(WantsActions(wants, procMem)), rest)
    ensures Fits(true, sent, WantsActions(wants, procMem) + rest)
    ensures OpenTail(WantsActions(wants, procMem) + rest) && !Receives(WantsActions(wants, procMem) + rest)
    decreases |wants|
  {
    if wants == [] {
      assert WantsActions(wants, procMem) + rest == rest;
      assert sent + Items(WantsActions(wants, procMem)) == sent;
    } else {
      StillClear(sent, wants, procMem);
      FirstWantItems(sent, wants, procMem);
      FitsWants(sent + Items(WantActions(wants[0], procMem)), wants[1..], procMem, rest);
      FitsFirstWant(sent, wants, procMem, rest);
    }
  }

  lemma FirstWantItems(sent: seq<Item>, wants: seq<Want>, procMem: bool)
    requires wants != []
    ensures sent + Items(WantsActions(wants, procMem))
         == (sent + Items(WantActions(wants[0], procMem))) + Items(WantsActions(wants[1..], procMem))
  {
    ItemsAppend(WantActions(wants[0], procMem), WantsActions(wants[1..], procMem));
  }

  lemma FitsFirstWant(sent: seq<Item>, wants: seq<Want>, procMem: bool, rest: seq<Action>)
    requires wants != [] && NonEmpty(wants[0])
    requires HasRegion(wants[0]) ==> Clear(sent, wants[0].r)
    requires var more := WantsActions(wants[1..], procMem) + rest;
             && OpenTail(more) && !Receives(more)
             && Fits(true, sent + Items(WantActions(wants[0], procMem)), more)
    ensures Fits(true, sent, WantsActions(wants, procMem) + rest)
    ensures OpenTail(WantsActions(wants, procMem) + rest) && !Receives(WantsActions(wants, procMem) + rest)
  {
    var one, more := WantActions(wants[0], procMem), WantsActions(wants[1..], procMem);
    FitsWant(sent, wants[0], procMem, more + rest);
    WantsSplit(wants, procMem, rest);
  }

  lemma WantsSplit(wants: seq<Want>, procMem: bool, rest: seq<Action>)
    requires wants != []
    ensures WantsActions(wants, procMem) + rest
         == WantActions(wants[0], procMem) + (WantsActions(wants[1..], procMem) + rest)
  {
  }

  lemma StillClear(sent: seq<Item>, wants: seq<Want>, procMem: bool)
    requires wants != [] && ClearOf(sent, wants) && WantsApart(wants)
    ensures ClearOf(sent + Items(WantActions(wants[0], procMem)), wants[1..])
    ensures WantsApart(wants[1..])
  {
    var acts := WantActions(wants[0], procMem);
    if |acts| == 2 {
      ItemsPair(acts[0], acts[1]);
    } else {
      ItemsSingle(acts[0]);
    }
    var rest := wants[1..];
    assert forall i :: 0 <= i < |rest| ==> rest[i] == wants[i + 1];
    var sent1 := sent + Items(acts);
    forall i, k | 0 <= i < |rest| && HasRegion(rest[i]) && 0 <= k < |sent1| && sent1[k].Mem?
      ensures Apart(sent1[k].r, rest[i].r)
    {
      if k < |sent| {
        assert Clear(sent, wants[i + 1].r);
      }
    }
  }

  lemma FitsGet(sent: seq<Item>, wants: seq<Want>, procMem: bool, rest: seq<Action>)
    requires !OpenTail(rest) && Fits(true, sent + Items(GetActions(wants, procMem)), rest)
    requires ClearOf(sent, wants) && WantsApart(wants)
    requires forall i :: 0 <= i < |wants| ==> NonEmpty(wants[i])
    ensures Fits(true, sent, GetActions(wants, procMem) + rest)
    ensures !OpenTail(GetActions(wants, procMem) + rest)
  {
    var body := WantsActions(wants, procMem);
    ConnectionItems(CmdGetPages, body);
    var sent1 := sent + [Accept, Cmd(CmdGetPages)];
    assert sent + Items(GetActions(wants, procMem)) == (sent1 + Items(body)) + [Eof];
    assert ClearOf(sent1, wants) by {
      forall i | 0 <= i < |wants| && HasRegion(wants[i]) ensures Clear(sent1, wants[i].r) {
        assert Clear(sent, wants[i].r);
      }
    }
    FitsClose(true, sent1 + Items(body), rest);
    FitsWants(sent1, wants, procMem, [Close] + rest);
    FitsConnection(true, sent, CmdGetPages, body, rest);
  }

  lemma {:induction false} FitsData(sent: seq<Item>, data: seq<Byte>, rest: seq<Action>)
    requires OpenTail(rest) && Fits(false, sent + Items(DataPuts(data)), rest)
    ensures Fits(false, sent, DataPuts(data) + rest) && OpenTail(DataPuts(data) + rest)
    decreases |data|
  {
    var puts := DataPuts(data);
    if data == [] {
      assert puts + rest == rest && sent + Items(puts) == sent;
    } else {
      var a, more := puts[0], DataPuts(data[1..]);
      assert puts[1..] == more;
      assert sent + Items(puts) == (sent + [a.it]) + Items(more);
      FitsData(sent + [a.it], data[1..], rest);
      FitsCons(false, sent, a, more + rest);
      assert puts + rest == [a] + (more + rest);
    }
  }

  lemma {:induction false} FitsSetPuts(sent: seq<Item>, recs: seq<Record>, rest: seq<Action>)
    requires OpenTail(rest) && Fits(false, sent + Items(SetPuts(recs)), rest)
    ensures Fits(false, sent, SetPuts(recs) + rest) && OpenTail(SetPuts(recs) + rest)
    decreases |recs|
  {
    if recs == [] {
      assert SetPuts(recs) + rest == rest && sent + Items(SetPuts(recs)) == sent;
    } else {
      FirstRecordItems(sent, recs);
      var sent1 := sent + [Mem(recs[0].region, false)];
      FitsSetPuts(sent1 + Items(DataPuts(recs[0].data)), recs[1..], rest);
      FitsData(sent1, recs[0].data, SetPuts(recs[1..]) + rest);
      FitsFirstRecord(sent, recs, rest);
    }
  }

  lemma FirstRecordItems(sent: seq<Item>, recs: seq<Record>)
    requires recs != []
    ensures sent + Items(SetPuts(recs))
         == ((sent + [Mem(recs[0].region, false)]) + Items(DataPuts(recs[0].data))) + Items(SetPuts(recs[1..]))
  {
    var a := Put(Mem(recs[0].region, false));
    ItemsAppend([a] + DataPuts(recs[0].data), SetPuts(recs[1..]));
    ItemsAppend([a], DataPuts(recs[0].data));
    ItemsSingle(a);
    Regroup(sent, [Mem(recs[0].region, false)], Items(DataPuts(recs[0].data)), Items(SetPuts(recs[1..])));
  }

  lemma Regroup(a: seq<Item>, b: seq<Item>, c: seq<Item>, d: seq<Item>)
    ensures a + ((b + c) + d) == ((a + b) + c) + d
  {
  }

  lemma FitsFirstRecord(sent: seq<Item>, recs: seq<Record>, rest: seq<Action>)
    requires recs != []
    requires var more := DataPuts(recs[0].data) + (SetPuts(recs[1..]) + rest);
             OpenTail(more) && Fits(false, sent + [Mem(recs[0].region, false)], more)
    ensures Fits(false, sent, SetPuts(recs) + rest) && OpenTail(SetPuts(recs) + rest)
  {
    var a := Put(Mem(recs[0].region, false));
    var more := DataPuts(recs[0].data) + (SetPuts(recs[1..]) + rest);
    FitsCons(false, sent, a, more);
    SetPutsSplit(recs, rest);
  }

  lemma SetPutsSplit(recs: seq<Record>, rest: seq<Action>)
    requires recs != []
    ensures SetPuts(recs) + rest
         == [Put(Mem(recs[0].region, false))] + (DataPuts(recs[0].data) + (SetPuts(recs[1..]) + rest))
  {
  }

  lemma FitsSet(sent: seq<Item>, recs: seq<Record>, rest: seq<Action>)
    requires !OpenTail(rest) && Fits(false, sent + Items(SetActions(recs)), rest)
    ensures Fits(false, sent, SetActions(recs) + rest) && !OpenTail(SetActions(recs) + rest)
  {
    var body := SetPuts(recs);
    ConnectionItems(CmdSetPages, body);
    var sent1 := sent + [Accept, Cmd(CmdSetPages)];
    assert sent + Items(SetActions(recs)) == (sent1 + Items(body)) + [Eof];
    FitsClose(false, sent1 + Items(body), rest);
    FitsSetPuts(sent1, recs, [Close] + rest);
    FitsConnection(false, sent, CmdSetPages, body, rest);
  }

  lemma FitsEnd(sent: seq<Item>)
    ensures Fits(false, sent, [Connect, Put(Cmd(CmdEnd)), Close])
    ensures !OpenTail([Connect, Put(Cmd(CmdEnd)), Close])
  {
    assert [Close] + [] == [Close];
    FitsClose(false, sent + [Accept, Cmd(CmdEnd)], []);
    assert [] + ([Close] + []) == [Close] + [];
    FitsConnection(false, sent, CmdEnd, [], []);
    assert ([Connect, Put(Cmd(CmdEnd))] + [] + [Close]) + [] == [Connect, Put(Cmd(CmdEnd)), Close];
  }
}
