/** The parasite's steps keep the invariant: taking an item off a connection, and sending a reply. */
module ProtocolReplies {
  import opened Bytes
  import opened TargetMemory
  import opened DumpCodec
  import opened Parasite
  import opened Protocol
  import opened ProtocolInvariant

  predicate Replying(p: Phase) {
    p.Sending? || p.Answering?
  }

  predicate Down(p: Phase) {
    p.Faulted? || p.Died?
  }

  /** A stream that the parasite survives, it survives up to every point. */
  lemma PrefixSurvives(base: TargetMemory.Mem, t: Target, items: seq<Item>, some: seq<Item>)
    requires some <= items && !Down(Exec(base, t, items).phase)
    ensures !Down(Exec(base, t, some).phase)
  {
    var rest := items[|some|..];
    assert items == some + rest;
    ExecAppend(base, t, some, rest);
    var u := Exec(base, t, some);
    if Down(u.phase) {
      ExecStuck(base, u, rest);
    }
  }

  /** The parasite consumes the first item in flight. */
  predicate Takes(j: Job, s: State, s': State, it: Item) {
    && !Replying(s.target.phase) && !s.target.phase.Exited?
    && Pending(s.conns, s.accepted) == [it] + Pending(s'.conns, s'.accepted)
    && s' == s.(conns := s'.conns, accepted := s'.accepted, target := Consume(j.base, s.target, it),
                consumed := s.consumed + [it])
  }

  lemma TakeExecuted(j: Job, s: State, s': State, it: Item)
    requires Takes(j, s, s', it) && Executed(j, s)
    ensures Executed(j, s')
  {
    ExecAppend(j.base, Start(j), s.consumed, [it]);
    ExecOne(j.base, s.target, it);
  }

  lemma TakeSurvives(j: Job, s: State, s': State, it: Item)
    requires Takes(j, s, s', it) && Executed(j, s) && Wired(s)
    requires s.sent + Items(s.todo) == Script(j, s.stage)
    requires !Down(Exec(j.base, Start(j), Script(j, s.stage)).phase)
    ensures !Down(s'.target.phase) && !Down(Settle(j.base, s'.target).phase)
  {
    TakeExecuted(j, s, s', it);
    TakePrefix(j, s, s', it);
    PrefixSurvives(j.base, Start(j), Script(j, s.stage), s'.consumed);
  }

  lemma TakePrefix(j: Job, s: State, s': State, it: Item)
    requires Takes(j, s, s', it) && Wired(s) && s.sent + Items(s.todo) == Script(j, s.stage)
    ensures s'.consumed <= Script(j, s.stage)
  {
    assert s'.consumed + Pending(s'.conns, s'.accepted) == s.sent;
  }

  /** A request that wants no reply starts none. */
  lemma PlainQuiet(base: TargetMemory.Mem, t: Target, it: Item)
    requires !Replying(t.phase) && !WantsReply(it)
    ensures Quiet(Consume(base, t, it).phase)
  {
    hide Dontneed, Mprotect, StoreByte;
  }

  lemma TakePlainTurn(j: Job, s: State, s': State, it: Item)
    requires Takes(j, s, s', it) && Turn(j, s) && !WantsReply(it)
    ensures Turn(j, s')
  {
    hide Pending, NoReply, Consume, Slice;
    PeelFirst(Pending(s.conns, s.accepted), Pending(s'.conns, s'.accepted), it);
    PlainQuiet(j.base, s.target, it);
    TakeAwaits(j, s, s', it);
  }

  /** With items in flight memcr has received nothing yet; what is left of them still ends in the request it awaits. */
  lemma TakeAwaits(j: Job, s: State, s': State, it: Item)
    requires Takes(j, s, s', it) && !WantsReply(it) && Quiet(s'.target.phase)
    ensures forall want: Item, full: seq<Byte> ::
              WantsReply(want) && Expecting(s, want, full) ==> Expecting(s', want, full)
  {
    hide Pending, Consume;
    var pend, pend' := Pending(s.conns, s.accepted), Pending(s'.conns, s'.accepted);
    PeelFirst(pend, pend', it);
  }

  lemma PeelFirst(pend: seq<Item>, pend': seq<Item>, it: Item)
    requires pend == [it] + pend'
    ensures pend[0] == it && pend[1..] == pend'
    ensures NoReply(pend) ==> NoReply(pend')
    ensures pend' != [] ==> pend[|pend| - 1] == pend'[|pend'| - 1]
    ensures pend' != [] && NoReply(pend[..|pend| - 1]) ==> NoReply(pend'[..|pend'| - 1])
  {
    if pend' != [] {
      assert pend'[..|pend'| - 1] == pend[..|pend| - 1][1..];
    }
    assert forall i :: 0 <= i < |pend'| ==> pend'[i] == pend[i + 1];
  }

  lemma TakeRequestTurn(j: Job, s: State, s': State, it: Item)
    requires Takes(j, s, s', it) && Turn(j, s) && !Down(s'.target.phase)
    requires WantsReply(it) && !s.target.phase.InSet?
    ensures Turn(j, s')
  {
    hide Pending, Consume, Slice;
    var pend, pend' := Pending(s.conns, s.accepted), Pending(s'.conns, s'.accepted);
    LastOfAll(pend, pend', it);
    RequestStarts(j.base, s.target, it);
  }

  /** A request for a reply that is first in flight is the only one in flight if nothing before the last wants one. */
  lemma LastOfAll(pend: seq<Item>, pend': seq<Item>, it: Item)
    requires pend == [it] + pend' && WantsReply(it)
    ensures !NoReply(pend) && pend != [] && pend[0] == it
    ensures NoReply(pend[..|pend| - 1]) ==> pend' == [] && pend[|pend| - 1] == it
  {
    assert pend[0] == it;
    if pend' != [] {
      assert pend[..|pend| - 1][0] == it;
    }
  }

  /** Taking in a request starts its reply. */
  lemma RequestStarts(base: TargetMemory.Mem, t: Target, it: Item)
    requires WantsReply(it) && !Replying(t.phase) && !t.phase.Exited? && !t.phase.InSet?
    ensures var p := Consume(base, t, it).phase;
            !Down(p) ==> p == if it.Mem? then Sending(it.r, 0) else Answering(it.len)
  {
    hide Dontneed, Mprotect, StoreByte;
  }

  lemma TakeUnspoilt(j: Job, s: State, s': State, it: Item)
    requires Takes(j, s, s', it) && Wired(s) && Unspoilt(j, s) && !Down(s'.target.phase)
    ensures Unspoilt(j, s')
  {
    var n := |s.consumed|;
    assert s.sent[n] == it;
    assert Gentle(it);
    forall x: nat | Untouched(s'.consumed, x)
      ensures At(s'.target.mem, x) == At(j.mem, x)
    {
      assert s'.consumed[n] == it;
      assert Untouched(s.consumed, x) by {
        forall i | 0 <= i < n && s.consumed[i].Mem? ensures !Covers(s.consumed[i].r, x) {
          assert s'.consumed[i] == s.consumed[i];
        }
      }
    }
    if s'.target.phase.Sending? {
      forall x: nat | Covers(it.r, x) ensures At(s'.target.mem, x) == At(j.mem, x) {
        assert Untouched(s.consumed, x) by {
          forall i | 0 <= i < n && s.consumed[i].Mem? ensures !Covers(s.consumed[i].r, x) {
            assert s.sent[i] == s.consumed[i];
          }
        }
      }
    }
  }

  lemma TakeKeeps(j: Job, s: State, s': State, it: Item)
    requires Working(j.codec) && Main(j, s) && Takes(j, s, s', it)
    requires !Down(Exec(j.base, Start(j), Script(j, s.stage)).phase)
    requires Wired(s')
    ensures Main(j, s') && !Down(s'.target.phase)
  {
    TakeExecuted(j, s, s', it);
    TakeSurvives(j, s, s', it);
    if WantsReply(it) {
      ReplyOnlyInCheckpoint(j, s, it);
      TakeRequestTurn(j, s, s', it);
    } else {
      TakePlainTurn(j, s, s', it);
    }
    if s.stage.Checkpointing? {
      TakeUnspoilt(j, s, s', it);
    }
  }

  lemma ReplyOnlyInCheckpoint(j: Job, s: State, it: Item)
    requires Turn(j, s) && Scripted(j, s) && WantsReply(it)
    requires Pending(s.conns, s.accepted) != [] && Pending(s.conns, s.accepted)[0] == it
    ensures s.stage.Checkpointing?
  {
  }

  // ---- the three ways of consuming ---------------------------------------------------------------

  lemma AcceptTakes(j: Job, s: State, s': State)
    requires Wired(s) && !Replying(s.target.phase) && !s.target.phase.Exited?
    requires s.conns != [] && !s.accepted
    requires s' == s.(accepted := true, target := Consume(j.base, s.target, Accept),
                      consumed := s.consumed + [Accept])
    ensures Takes(j, s, s', Accept) && Wired(s')
  {
    var pend, pend' := Pending(s.conns, false), Pending(s.conns, true);
    assert pend == [Accept] + pend';
    assert s.consumed + pend == s'.consumed + pend';
  }

  lemma ItemTakes(j: Job, s: State, s': State)
    requires Wired(s) && !Replying(s.target.phase) && !s.target.phase.Exited?
    requires s.conns != [] && s.accepted && s.conns[0].items != []
    requires var c := s.conns[0];
             s' == s.(conns := s.conns[0 := c.(items := c.items[1..])],
                      target := Consume(j.base, s.target, c.items[0]), consumed := s.consumed + [c.items[0]])
    ensures Takes(j, s, s', s.conns[0].items[0]) && Wired(s')
  {
    var it := s.conns[0].items[0];
    assert s'.conns[1..] == s.conns[1..];
    var pend, pend' := Pending(s.conns, true), Pending(s'.conns, true);
    assert pend == [it] + pend';
    assert s.consumed + pend == s'.consumed + pend';
    assert !s'.target.phase.Listening?;
    assert OlderClosed(s'.conns);
  }

  lemma EofTakes(j: Job, s: State, s': State)
    requires Wired(s) && !Replying(s.target.phase) && !s.target.phase.Exited?
    requires s.conns != [] && s.accepted && s.conns[0].items == [] && s.conns[0].closed
    requires s' == s.(conns := s.conns[1..], accepted := false,
                      target := Consume(j.base, s.target, Eof), consumed := s.consumed + [Eof])
    ensures Takes(j, s, s', Eof)
    ensures !Down(s'.target.phase) ==> Wired(s')
  {
    hide Consume, Pending;
    var pend, pend' := Pending(s.conns, true), Pending(s'.conns, false);
    EofPending(s.conns);
    assert s.consumed + pend == s'.consumed + pend';
    EofListens(j.base, s.target);
  }

  lemma EofPending(conns: seq<Conn>)
    requires conns != [] && conns[0].items == [] && conns[0].closed
    ensures Pending(conns, true) == [Eof] + Pending(conns[1..], false)
  {
  }

  lemma EofListens(base: TargetMemory.Mem, t: Target)
    requires !Replying(t.phase) && !t.phase.Exited?
    ensures !Down(Consume(base, t, Eof).phase) ==> Consume(base, t, Eof).phase.Listening?
  {
    hide Dontneed, Mprotect, StoreByte;
  }

  // ---- replies -----------------------------------------------------------------------------------

  lemma EmitExecuted(j: Job, s: State, b: Byte)
    requires Replying(s.target.phase) && !Down(Settle(j.base, s.target).phase)
    ensures Settle(j.base, Emit(j, s, b).target) == Settle(j.base, s.target)
    ensures !Down(Emit(j, s, b).target.phase)
  {
    if s.target.phase.Sending? {
      var r, off := s.target.phase.r, s.target.phase.off;
      if off < r.len {
        assert AllReadable(s.target.prot, r, off);
        assert Covers(r, r.addr + off);
        assert Readable(s.target.prot, r.addr + off);
      }
    }
  }

  /** Another byte of the region is on its way. */
  lemma SendByteTurn(j: Job, s: State, b: Byte)
    requires s.target.phase.Sending? && s.target.phase.off < s.target.phase.r.len
    requires Turn(j, s) && !Down(Emit(j, s, b).target.phase)
    requires At(s.target.mem, s.target.phase.r.addr + s.target.phase.off)
             == At(j.mem, s.target.phase.r.addr + s.target.phase.off)
    ensures Turn(j, Emit(j, s, b))
  {
    hide Pending, NoReply;
    var s' := Emit(j, s, b);
    var r, off := s.target.phase.r, s.target.phase.off;
    SliceGrows(j.mem, r, off);
    assert s'.rx + s'.back == (s.rx + s.back) + [At(j.mem, r.addr + off)];
  }

  lemma SliceGrows(m: TargetMemory.Mem, r: Region, off: nat)
    requires off < r.len
    ensures Slice(m, r)[..off + 1] == Slice(m, r)[..off] + [At(m, r.addr + off)]
  {
  }

  lemma SendEndTurn(j: Job, s: State, b: Byte)
    requires s.target.phase.Sending? && s.target.phase.off >= s.target.phase.r.len && Turn(j, s)
    ensures Turn(j, Emit(j, s, b))
  {
    hide Pending, NoReply;
    var r := s.target.phase.r;
    assert Slice(j.mem, r)[..r.len] == Slice(j.mem, r);
  }

  lemma AnswerTurn(j: Job, s: State, b: Byte)
    requires s.target.phase.Answering? && Turn(j, s)
    ensures Turn(j, Emit(j, s, b))
  {
    hide Pending, NoReply;
  }

  lemma EmitTurn(j: Job, s: State, b: Byte)
    requires Replying(s.target.phase) && Turn(j, s) && !Down(Emit(j, s, b).target.phase)
    requires s.target.phase.Sending? && s.target.phase.off < s.target.phase.r.len ==>
               At(s.target.mem, s.target.phase.r.addr + s.target.phase.off)
               == At(j.mem, s.target.phase.r.addr + s.target.phase.off)
    ensures Turn(j, Emit(j, s, b))
  {
    if s.target.phase.Answering? {
      AnswerTurn(j, s, b);
    } else if s.target.phase.off < s.target.phase.r.len {
      SendByteTurn(j, s, b);
    } else {
      SendEndTurn(j, s, b);
    }
  }

  lemma EmitUnspoilt(j: Job, s: State, b: Byte)
    requires Replying(s.target.phase) && Unspoilt(j, s) && !Down(Emit(j, s, b).target.phase)
    ensures Unspoilt(j, Emit(j, s, b))
  {
    var s' := Emit(j, s, b);
    if s.target.phase.Sending? && !s'.target.phase.Sending? {
      forall x: nat | Untouched(s'.consumed, x) ensures At(s'.target.mem, x) == At(j.mem, x) {
        assert !Covers(s.consumed[|s.consumed| - 1].r, x);
      }
    }
  }

  lemma EmitInCheckpoint(j: Job, s: State)
    requires Turn(j, s) && Scripted(j, s) && !Quiet(s.target.phase)
    ensures s.stage.Checkpointing?
  {
  }

  lemma EmitFrame(j: Job, s: State, b: Byte)
    requires Replying(s.target.phase)
    ensures var s' := Emit(j, s, b);
            && s' == s.(target := s'.target, back := s'.back)
            && !s'.target.phase.Listening?
  {
  }

  lemma SentIsOriginal(j: Job, s: State)
    requires Unspoilt(j, s) && s.target.phase.Sending? && s.target.phase.off < s.target.phase.r.len
    ensures At(s.target.mem, s.target.phase.r.addr + s.target.phase.off)
         == At(j.mem, s.target.phase.r.addr + s.target.phase.off)
  {
    assert Covers(s.target.phase.r, s.target.phase.r.addr + s.target.phase.off);
  }

  /** A reply touches neither the connections to the parasite, nor memcr's agenda, nor the file. */
  lemma EmitLeaves(j: Job, s: State, s': State)
    requires Working(j.codec) && Wired(s) && Scripted(j, s) && Saved(j, s) && Replying(s.target.phase)
    requires s' == s.(target := s'.target, back := s'.back) && !s'.target.phase.Listening?
    ensures Wired(s') && Scripted(j, s') && Saved(j, s')
  {
  }

  lemma EmitKeeps(j: Job, s: State, s': State, b: Byte)
    requires Working(j.codec) && Main(j, s) && Replying(s.target.phase) && s' == Emit(j, s, b)
    requires !Down(Exec(j.base, Start(j), s.consumed).phase)
    ensures Main(j, s') && !Down(s'.target.phase)
  {
    hide Wired, Scripted, Saved, Turn, Unspoilt, Exec, Emit, Settle;
    EmitFrame(j, s, b);
    EmitExecuted(j, s, b);
    EmitLeaves(j, s, s');
    if !Quiet(s.target.phase) {
      EmitInCheckpoint(j, s);
      if s.target.phase.Sending? && s.target.phase.off < s.target.phase.r.len {
        SentIsOriginal(j, s);
      }
    }
    EmitTurn(j, s, b);
    if s.stage.Checkpointing? {
      EmitUnspoilt(j, s, b);
    }
  }
}
