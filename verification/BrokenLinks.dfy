/** What a link that breaks in the middle of a message does to the server that reads from it. No error
    is reported for the part of a message that came, so it may be handed on as a message; but that
    has no object, and the handler looks at the object of every message but a ProposalRequest. The
    part of a client's request that came lacks commands, and upsets the batch it is put into.
    Sources: internal/message/message.go, internal/tcp/tcp.go,
    roles/server/layers/consensus/msgHandler.go, roles/server/layers/proxy/proxy.go. */
module BrokenLinks {
  import opened Messages
  import opened Varints
  import opened Codec
  import opened Truncation
  import opened Framing
  import opened SlotSpec
  import opened Cluster
  import opened Agreement
  import opened KvStore
  import opened Batching

  // ---------------------------------------------------------------- the link of a server

  lemma TypeIsPrinted(m: Msg)
    ensures TypeEnd(m) == 0 <==> m.typ == 0
  {
  }

  /** The part of a message that is handed on as a message: it has no object, and its type is that of
      the message, or, when only the length came, ClientRequest. The slot that a ProposalRequest asks
      for is lost. */
  lemma CutHasNoObject(m: Msg, j: nat)
    requires j < |EncodeMsg(m)| && AtBoundary(m, j)
    ensures Upto(m, j).obj.None?
    ensures Upto(m, j).typ == if j > 0 then m.typ else CLIENT_REQUEST
    ensures j == 0 ==> Upto(m, j) == EMPTY_MSG
    ensures m.obj.None? ==> Upto(m, j).value == 0
  {
    hide Unsigned, Put;
    TypeIsPrinted(m);
  }

  /** So the handler can take it exactly when it is what came of a ProposalRequest, and more than its
      length came. */
  lemma CutIsHandled(m: Msg, j: nat, lenBlock: nat)
    requires j < |EncodeMsg(m)| && AtBoundary(m, j)
    ensures Handled(lenBlock, Upto(m, j)) <==> m.typ == PROPOSAL_REQUEST && j > 0
  {
    hide AtBoundary, Upto, EncodeMsg;
    CutHasNoObject(m, j);
  }

  lemma FrameSize(m: Msg, k: nat)
    requires k < |Frame(EncodeMsg(m))|
    ensures k < 4 + |EncodeMsg(m)|
  {
  }

  /** The whole story for a server of a run: when the link from server s breaks within its n-th
      broadcast, its reader gets the broadcasts before it, and perhaps one message more; unless that
      one is what came of a ProposalRequest, the handler of the reader panics on it, and what came
      of a ProposalRequest asks for slot 0. */
  lemma BrokenLink(P: Params, w: World, s: nat, n: nat, k: nat, size: nat)
    requires Reachable(P, w) && s < |w.logs| && n < |w.logs[s]|
    requires size < TWO_63 && forall i :: 0 <= i <= n ==> Fits(w.logs[s][i], size)
    requires k < |Frame(EncodeMsg(w.logs[s][n]))|
    ensures var log := w.logs[s];
      var got := ReadMsgs(CutAfter(log[..n], log[n], k), size);
      && (forall i :: 0 <= i < n ==> Handled(P.lenBlock, log[i]))
      && if k >= 4 && AtBoundary(log[n], k - 4) then
           && got == log[..n] + [Upto(log[n], k - 4)]
           && got[n].obj.None?
           && (Handled(P.lenBlock, got[n]) <==> log[n].typ == PROPOSAL_REQUEST && k > 4)
           && (log[n].typ == PROPOSAL_REQUEST && k > 4 ==> SlotNamed(got[n]) == Some(0))
         else got == log[..n]
  {
    hide Reachable, EncodeMsg, Frame, AtBoundary, Upto, CutAfter, ReadMsgs;
    var log := w.logs[s];
    forall i | 0 <= i <= n
      ensures Handled(P.lenBlock, log[i])
    {
      SentIsHandled(P, w, s, i);
    }
    SentIsHandled(P, w, s, n);
    CutStream(log[..n], log[n], k, size);
    if k >= 4 && AtBoundary(log[n], k - 4) {
      FrameSize(log[n], k);
      CutHasNoObject(log[n], k - 4);
      CutIsHandled(log[n], k - 4, P.lenBlock);
    }
  }

  /** For example, the Vote for 1 in phase 1 of slot 5, of which four bytes came. */
  lemma CutVote(P: Params, v: SlotState)
    requires P.seqNo == 5 && v.phase == 1 && v.round == 2 && MineAt(v, RoundIndex(1, 2)) == 1
    ensures var m := BinConMsg(P, v);
      && EncodeMsg(m) == [8, 3, 16, 1, 24, 1, 34, 2, 24, 5]
      && ReadMsgs(CutAfter([], m, 8), 100) == [Msg(VOTE, 1, 0, None)]
      && !Handled(P.lenBlock, Msg(VOTE, 1, 0, None))
  {
    var m := BinConMsg(P, v);
    VoteBytes(m.obj.value);
    hide EncodeMsg, Frame, EncodeObj, CutAfter;
    assert TypeEnd(m) == 2 && PhaseEnd(m) == 4 && ValueEnd(m) == 6;
    CutStream([], m, 8, 100);
  }

  lemma VoteBytes(obj: ConsensusObj)
    requires obj == EMPTY_OBJ.(svrSeq := 5)
    ensures EncodeMsg(Msg(VOTE, 1, 1, Some(obj))) == [8, 3, 16, 1, 24, 1, 34, 2, 24, 5]
    ensures PutNumber(0x08, Unsigned(VOTE)) == [8, 3] && PutNumber(0x10, 1) == [16, 1] && PutNumber(0x18, 1) == [24, 1]
  {
    assert Put(1) == [1] && Put(2) == [2] && Put(3) == [3] && Put(5) == [5];
    assert EncodeObj(obj) == [24, 5];
  }

  // ---------------------------------------------------------------- the link of a client

  /** When a client's link breaks within a request, the part that came may be read as a request too,
      but never as one with all the commands. */
  lemma CutRequest(c: Command, k: nat, size: nat)
    requires |c.commands| > 0 && |EncodeCommand(c)| <= size && |EncodeCommand(c)| < TWO_32
    requires 4 <= k < |Frame(EncodeCommand(c))|
    ensures ReadOf(Frame(EncodeCommand(c))[..k], size) == (Data(k - 4), [])
    ensures var r := Parse(Frame(EncodeCommand(c))[4..k], 0, OfCommand(EMPTY_COMMAND));
      r.Ok? ==> r.value.c.commands < c.commands
  {
    hide Parse, EncodeCommand, LittleEndian;
    ReadCut(EncodeCommand(c), k, size);
    assert Frame(EncodeCommand(c))[..k][4..k] == Frame(EncodeCommand(c))[4..k];
    var n := RequestCut(c, k - 4);
  }

  /** So a batch with it is not taken apart into the requests that it was made of; and if no request
      of it has too many commands, every server that executes it panics. */
  lemma CutBatch(L: Layout, c: Command, proId: uint32, proSeq: uint32, reqs: seq<Command>, i: nat)
    requires |c.commands| == L.clientBatch && i < |reqs| && reqs[i].commands < c.commands
    requires |CommandsOf(reqs)| <= Room(L) && forall r :: 0 <= r < |reqs| ==> reqs[r].svrSeq == 0
    ensures var obj := Batch(L, proId, proSeq, reqs);
      && !(Sliceable(L, obj) && Unbatch(L, obj, |obj.cliIds|) == reqs)
      && (|reqs| <= L.proxyBatch && (forall r :: 0 <= r < |reqs| ==> |reqs[r].commands| <= L.clientBatch) ==>
            !Executable(L, obj))
  {
    hide Sliceable, Unbatch, Batch, CommandsOf, Room, Executable;
    BatchRoundTrip(L, proId, proSeq, reqs);
    if |reqs| <= L.proxyBatch && forall r :: 0 <= r < |reqs| ==> |reqs[r].commands| <= L.clientBatch {
      ShortBatch(L, proId, proSeq, reqs, i);
    }
  }
}
