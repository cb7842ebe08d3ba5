/** The cluster's invariant holds initially and is kept by every step. */
module ClusterInv {
  import opened Messages
  import opened Quorums
  import opened SlotSpec
  import opened Cluster

  /** What a step never undoes: logs and replies grow, a full round is frozen, and a decision is
      final. */
  ghost predicate Extends(P: Params, w: World, w': World) {
    && Shape(P, w) && Shape(P, w')
    && (forall i: nat :: i < |w.logs| ==> w.logs[i] <= w'.logs[i])
    && (forall i: nat, k: nat :: i < |w.nodes| && Full(P.c, w.nodes[i].slot, k) ==>
          HeardAt(w'.nodes[i].slot, k) == HeardAt(w.nodes[i].slot, k))
    && (forall i: nat :: i < |w.nodes| && w.nodes[i].slot.isDone ==>
          w'.nodes[i].slot.isDone && w'.nodes[i].slot.decision == w.nodes[i].slot.decision)
    && w.replies <= w'.replies
  }

  lemma BackedKept(P: Params, w: World, w': World)
    requires Extends(P, w, w')
    ensures forall i: nat, k: nat, b :: DecidesAt(P, w, i, k, b) ==> DecidesAt(P, w', i, k, b)
    ensures forall j: nat, obj :: MajorityAt(P, w, j, obj) ==> MajorityAt(P, w', j, obj)
    ensures forall b :: DecidedBit(P, w, b) ==> DecidedBit(P, w', b)
    ensures forall dec :: Backed(P, w, dec) ==> Backed(P, w', dec)
  {
    forall i: nat, k: nat, b | DecidesAt(P, w, i, k, b)
      ensures DecidesAt(P, w', i, k, b)
    {
      assert HeardAt(w'.nodes[i].slot, k) == HeardAt(w.nodes[i].slot, k);
    }
    forall j: nat, obj | MajorityAt(P, w, j, obj)
      ensures MajorityAt(P, w', j, obj)
    {
      assert HeardAt(w'.nodes[j].slot, 0) == HeardAt(w.nodes[j].slot, 0);
    }
    forall b | DecidedBit(P, w, b)
      ensures DecidedBit(P, w', b)
    {
      var i: nat, k: nat :| DecidesAt(P, w, i, k, b);
      assert DecidesAt(P, w', i, k, b);
    }
    forall dec | Backed(P, w, dec)
      ensures Backed(P, w', dec)
    {
      if !dec.isNull {
        var j: nat :| MajorityAt(P, w, j, dec);
        assert MajorityAt(P, w', j, dec);
      }
    }
  }

  lemma RepliesKept(P: Params, w: World, w': World)
    requires Extends(P, w, w') && RepliesOk(P, w)
    ensures forall d, obj :: (d, obj) in w.replies ==> !obj.isNull && exists j: nat :: MajorityAt(P, w', j, obj)
  {
    BackedKept(P, w, w');
    forall d, obj | (d, obj) in w.replies
      ensures !obj.isNull && exists j: nat :: MajorityAt(P, w', j, obj)
    {
      var j: nat :| MajorityAt(P, w, j, obj);
      assert MajorityAt(P, w', j, obj);
    }
  }

  /** What was counted stays as it is when logs grow. */
  lemma CountingKept(P: Params, v: SlotState, v': SlotState, logs: seq<seq<Msg>>, logs': seq<seq<Msg>>, row: seq<nat>)
    requires |logs| == |logs'| == |row|
    requires forall s: nat :: s < |logs| ==> logs[s] <= logs'[s]
    requires v'.heard == v.heard && (v.isDone ==> v'.isDone) && (v.hasRecvDec ==> v'.hasRecvDec)
    requires CountingOk(P, v, logs, row)
    ensures CountingOk(P, v', logs', row)
  {
    forall k: nat
      ensures HeardOk(P, v', logs', row, k)
    {
      assert HeardOk(P, v, logs, row, k);
      var h := HeardAt(v, k);
      forall j | 0 <= j < |h|
        ensures SentIn(logs'[h[j].0], k) && logs'[h[j].0][k] == logs[h[j].0][k]
      {
        assert logs[h[j].0] <= logs'[h[j].0];
      }
    }
    forall s: nat | s < |logs|
      ensures row[s] <= |logs'[s]|
    {
      assert logs[s] <= logs'[s];
    }
    forall s: nat, k: nat | !v'.isDone && s < |logs| && k < row[s] && SentIn(logs'[s], k)
      ensures Full(P.c, v', k) || HasSender(HeardAt(v', k), s)
    {
      assert logs[s] <= logs'[s];
      assert SentIn(logs[s], k) && HeardAt(v', k) == HeardAt(v, k);
    }
  }

  lemma DecKept(P: Params, w: World, w': World, nd: Node, log: seq<Msg>)
    requires Extends(P, w, w') && DecOk(P, w, nd, log)
    ensures DecOk(P, w', nd, log)
  {
    BackedKept(P, w, w');
  }

  // ---------------------------------------------------------------- executor steps

  /** A step of i's executor: it may append to i's log but touches no tally. */
  ghost predicate ExecutorStep(P: Params, w: World, w': World, i: nat, nd: Node, out: seq<Msg>) {
    && Shape(P, w) && i < |w.nodes|
    && w' == At(w, i, nd, out)
    && nd.slot.heard == w.nodes[i].slot.heard && nd.slot.hasRecvDec == w.nodes[i].slot.hasRecvDec
    && (w.nodes[i].slot.isDone ==> nd.slot.isDone && nd.slot.decision == w.nodes[i].slot.decision)
  }

  lemma ExecutorExtends(P: Params, w: World, w': World, i: nat, nd: Node, out: seq<Msg>)
    requires ExecutorStep(P, w, w', i, nd, out)
    ensures Extends(P, w, w')
  {
  }

  /** It is enough to look at the server that moved. */
  lemma ExecutorKeeps(P: Params, w: World, w': World, i: nat, nd: Node, out: seq<Msg>)
    requires Inv(P, w) && ExecutorStep(P, w, w', i, nd, out)
    requires NodeInv(P, i, nd, w.logs[i] + out)
    requires DecOk(P, w, nd, w.logs[i] + out)
    ensures Inv(P, w')
  {
    hide LogOk, PcOk, QueueOk, JustOk, HeardOk, CompleteOk, NotedOk, NodeInv, CountingOk, DecOk;
    ExecutorExtends(P, w, w', i, nd, out);
    forall j: nat | j < |w'.nodes|
      ensures NodeInv(P, j, w'.nodes[j], w'.logs[j])
      ensures CountingOk(P, w'.nodes[j].slot, w'.logs, w'.read[j])
      ensures DecOk(P, w', w'.nodes[j], w'.logs[j])
    {
      assert CountingOk(P, w.nodes[j].slot, w.logs, w.read[j]);
      CountingKept(P, w.nodes[j].slot, w'.nodes[j].slot, w.logs, w'.logs, w.read[j]);
      if j == i {
        DecKept(P, w, w', nd, w.logs[i] + out);
      } else {
        DecKept(P, w, w', w.nodes[j], w.logs[j]);
      }
    }
    RepliesKept(P, w, w');
  }

  lemma JustKept(P: Params, v: SlotState, v': SlotState, log: seq<Msg>)
    requires JustOk(P, v, log)
    requires forall k: nat :: Full(P.c, v, k) ==> HeardAt(v', k) == HeardAt(v, k)
    ensures JustOk(P, v', log)
  {
  }

  /** The log and its justification after the message of the next round was appended. */
  lemma AppendRoundMsg(P: Params, i: nat, v: SlotState, log: seq<Msg>, m: Msg)
    requires LogOk(P, i, log) && JustOk(P, v, log)
    requires IsRoundMsg(m) && IsRound(P, m, |log|)
    requires |log| > 0 ==>
      SentIn(log, |log| - 1) && Full(P.c, v, |log| - 1) && VerdictOf(P, v, |log| - 1) == Next(m.value)
    ensures LogOk(P, i, log + [m]) && JustOk(P, v, log + [m]) && SentIn(log + [m], |log|)
  {
    var log' := log + [m];
    forall k: nat
      ensures SentIn(log', k) <==> SentIn(log, k) || k == |log|
      ensures SentIn(log', k) ==> log'[k] == if k == |log| then m else log[k]
    {
    }
  }

  /** ... and after a ProposalRequest or a Decision was appended. */
  lemma AppendOther(P: Params, i: nat, v: SlotState, log: seq<Msg>, m: Msg)
    requires LogOk(P, i, log) && JustOk(P, v, log)
    requires IsRequestFrom(P, m, i) || IsDecisionOf(P, m)
    ensures LogOk(P, i, log + [m]) && JustOk(P, v, log + [m])
    ensures forall k: nat :: SentIn(log + [m], k) <==> SentIn(log, k)
  {
    var log' := log + [m];
    forall k: nat
      ensures SentIn(log', k) <==> SentIn(log, k)
      ensures k < |log'| ==> log'[k] == if k == |log| then m else log[k]
    {
    }
  }

  lemma DecMsgsAppend(P: Params, w: World, ms: seq<Msg>, m: Msg)
    requires DecMsgsOk(P, w, ms)
    requires m.typ == DECISION ==> m.obj.Some? && Backed(P, w, m.obj.value)
    ensures DecMsgsOk(P, w, ms + [m])
  {
  }

  lemma StartKeeps(P: Params, w: World, i: nat, obj: ConsensusObj)
    requires Inv(P, w) && Can(P, w, Start(i, obj))
    ensures Inv(P, Do(P, w, Start(i, obj)))
    ensures Extends(P, w, Do(P, w, Start(i, obj)))
  {
    hide RoundVerdict, Count, IsRound, FlipOf;
    var w' := Do(P, w, Start(i, obj));
    var nd := w'.nodes[i];
    var m := ProposalMsg(P, obj);
    assert NodeInv(P, i, w.nodes[i], w.logs[i]) && DecOk(P, w, w.nodes[i], w.logs[i]);
    AppendRoundMsg(P, i, w.nodes[i].slot, w.logs[i], m);
    DecMsgsAppend(P, w, w.logs[i], m);
    JustKept(P, w.nodes[i].slot, nd.slot, w.logs[i] + [m]);
    QueueKept(P, w.nodes[i], nd);
    ExecutorKeeps(P, w, w', i, nd, [m]);
    ExecutorExtends(P, w, w', i, nd, [m]);
  }

  /** The "should not happen" panics of wait are unreachable, and wait lets the executor continue
      only when the round it is in is full. */
  lemma PopNeverPanics(P: Params, nd: Node, log: seq<Msg>)
    requires PcOk(P, nd, log) && QueueOk(P, nd) && nd.pc.Waiting? && |nd.slot.queue| > 0
    ensures !PopVerdict(nd.slot, nd.slot.queue[0]).Panic?
    ensures PopVerdict(nd.slot, nd.slot.queue[0]).Go? ==>
      !nd.slot.hasRecvDec && Full(P.c, nd.slot, RoundIndex(nd.slot.phase, nd.slot.round))
    ensures PopVerdict(nd.slot, nd.slot.queue[0]).Skip? ==> nd.slot.hasRecvDec
  {
    if !nd.slot.hasRecvDec {
      assert NoticeFor(nd.slot.queue[0], NextNotice(nd) + 0);
    }
  }

  lemma PopQueue(P: Params, nd: Node, log: seq<Msg>)
    requires PcOk(P, nd, log) && QueueOk(P, nd) && nd.pc.Waiting? && |nd.slot.queue| > 0
    requires nd.slot.queue[0].typ == DECISION ==> nd.slot.queue[0].obj.Some?
    ensures QueueOk(P, PopNode(nd.slot, nd))
  {
    PopNeverPanics(P, nd, log);
    var nd' := PopNode(nd.slot, nd);
    var q, q' := nd.slot.queue, nd'.slot.queue;
    assert forall j: nat :: j < |q'| ==> q'[j] == q[j + 1];
    var c, c' := NextNotice(nd), NextNotice(nd');
    if nd'.pc.Ready? {
      assert c' == c + 1;
      forall j: nat | j < |q'|
        ensures NoticeFor(q'[j], c' + j)
      {
        assert NoticeFor(q[j + 1], c + (j + 1));
      }
      forall k: nat
        ensures Full(P.c, nd'.slot, k) <==> k < c' + |q'|
      {
        assert Full(P.c, nd.slot, k) <==> k < c + |q|;
      }
    } else if nd'.pc.Waiting? {
      var j :| 0 <= j < |q| && q[j].typ == DECISION;
      assert j > 0;
      assert q'[j - 1].typ == DECISION;
    }
  }

  lemma PopNodeOk(P: Params, i: nat, nd: Node, log: seq<Msg>)
    requires NodeInv(P, i, nd, log) && nd.pc.Waiting? && |nd.slot.queue| > 0
    requires nd.slot.queue[0].typ == DECISION ==> nd.slot.queue[0].obj.Some?
    ensures NodeInv(P, i, PopNode(nd.slot, nd), log)
  {
    hide RoundVerdict, Count, IsRound;
    PopNeverPanics(P, nd, log);
    PopQueue(P, nd, log);
    JustKept(P, nd.slot, PopNode(nd.slot, nd).slot, log);
  }

  lemma PopDecisions(P: Params, w: World, nd: Node, log: seq<Msg>)
    requires DecOk(P, w, nd, log) && nd.pc.Waiting? && |nd.slot.queue| > 0
    ensures DecOk(P, w, PopNode(nd.slot, nd), log)
  {
    hide Backed;
    var nd' := PopNode(nd.slot, nd);
    assert forall j :: 0 <= j < |nd'.slot.queue| ==> nd'.slot.queue[j] == nd.slot.queue[j + 1];
  }

  lemma PopKeeps(P: Params, w: World, i: nat)
    requires Inv(P, w) && Can(P, w, Pop(i))
    ensures Inv(P, Do(P, w, Pop(i)))
    ensures Extends(P, w, Do(P, w, Pop(i)))
  {
    hide LogOk, PcOk, QueueOk, JustOk, HeardOk, CompleteOk, NotedOk, Backed;
    var w' := Do(P, w, Pop(i));
    var nd, log := w.nodes[i], w.logs[i];
    var nd' := PopNode(nd.slot, nd);
    assert NodeInv(P, i, nd, log) && DecOk(P, w, nd, log);
    PopNodeOk(P, i, nd, log);
    PopDecisions(P, w, nd, log);
    assert log + [] == log;
    ExecutorExtends(P, w, w', i, nd', []);
    ExecutorKeeps(P, w, w', i, nd', []);
  }

  /** The majority proposal is an object that some server proposed for this slot. */
  lemma MajorityObj(P: Params, v: SlotState, logs: seq<seq<Msg>>, row: seq<nat>)
    requires |logs| == |row| && HeardOk(P, v, logs, row, 0)
    requires forall s: nat :: s < |logs| ==> LogOk(P, s, logs[s])
    requires HasProposal(HeardAt(v, 0))
    ensures var obj := MajV(HeardAt(v, 0));
      && !obj.isNull && obj.(svrSeq := P.seqNo) == obj
      && exists s: nat :: s < |logs| && SentIn(logs[s], 0) && logs[s][0].obj == Some(obj)
  {
    var h := HeardAt(v, 0);
    BestKeyIsMajority(h);
    FirstObjIn(h, MajKey(h));
    var j :| 0 <= j < |h| && h[j].1.typ == PROPOSAL && h[j].1.obj == Some(MajV(h));
    assert LogOk(P, h[j].0, logs[h[j].0]);
    assert IsRound(P, logs[h[j].0][0], 0);
  }

  lemma NextValue(c: Conf, flip: bit, k: nat, h: Heard, x: uint32)
    requires RoundVerdict(c, flip, k, h) == Next(x)
    ensures x < 3 && (k % 2 == 1 ==> x < 2) && (k == 0 ==> x != 0)
  {
  }

  lemma NextRoundMsg(P: Params, v: SlotState, x: uint32)
    requires P.Valid() && InRound(P, v)
    requires var k := RoundIndex(v.phase, v.round);
      VerdictOf(P, v, k) == Next(x) && (k % 2 == 1 ==> v.phase + 1 < P.lenBlock)
    ensures var k := RoundIndex(v.phase, v.round);
      var m := BinConMsg(P, Advance(v, k, x));
      IsRoundMsg(m) && IsRound(P, m, k + 1) && m.value == x
  {
    hide RoundVerdict;
    var k := RoundIndex(v.phase, v.round);
    NextValue(P.c, FlipOf(P, k), k, HeardAt(v, k), x);
    RoundParts(v.phase, v.round);
  }

  lemma RoundParts(p: nat, r: nat)
    requires r == 1 || r == 2
    ensures RoundIndex(p, r) % 2 == r - 1 && RoundIndex(p, r) / 2 == p
    ensures (RoundIndex(p, r) + 1) % 2 == 2 - r && (RoundIndex(p, r) + 1) / 2 == p + r - 1
  {
  }

  lemma AllLogsOk(P: Params, w: World)
    requires Inv(P, w)
    ensures forall s: nat :: s < |w.logs| ==> LogOk(P, s, w.logs[s])
  {
    forall s: nat | s < |w.logs|
      ensures LogOk(P, s, w.logs[s])
    {
      assert NodeInv(P, s, w.nodes[s], w.logs[s]);
    }
  }

  lemma QueueKept(P: Params, nd: Node, nd': Node)
    requires QueueOk(P, nd) && Queueing(nd.pc)
    requires NextNotice(nd') == NextNotice(nd)
    requires nd'.slot.queue == nd.slot.queue && nd'.slot.heard == nd.slot.heard
    requires nd'.slot.hasRecvDec == nd.slot.hasRecvDec
    ensures QueueOk(P, nd')
  {
    forall k: nat
      ensures Full(P.c, nd'.slot, k) == Full(P.c, nd.slot, k)
    {
    }
  }

  /** The flip a server takes from the generator is the one that its phase calls for. */
  lemma SameFlip(P: Params, nd: Node)
    requires InRound(P, nd.slot)
    requires nd.flips == if nd.slot.phase > 0 then nd.slot.phase - 1 else 0
    ensures var k := RoundIndex(nd.slot.phase, nd.slot.round);
      RoundVerdict(P.c, P.coin(nd.flips), k, HeardAt(nd.slot, k)) == VerdictOf(P, nd.slot, k)
  {
    var k := RoundIndex(nd.slot.phase, nd.slot.round);
    assert FlipsCoin(nd.slot) ==> P.coin(nd.flips) == FlipOf(P, k);
  }

  lemma AfterWaitNext(P: Params, i: nat, nd: Node, x: uint32)
    requires P.Valid() && i < P.c.nServers && InRound(P, nd.slot)
    requires RoundVerdict(P.c, P.coin(nd.flips), RoundIndex(nd.slot.phase, nd.slot.round),
                          HeardAt(nd.slot, RoundIndex(nd.slot.phase, nd.slot.round))) == Next(x)
    ensures var v := nd.slot;
      var flips := if FlipsCoin(v) then nd.flips + 1 else nd.flips;
      var k := RoundIndex(v.phase, v.round);
      AfterWait(P, i, nd) ==
        if v.round == 2 && v.phase + 1 >= P.lenBlock then (Node(v, Crashed, flips), [])
        else (Node(Advance(v, k, x), Waiting, flips), [BinConMsg(P, Advance(v, k, x))])
  {
  }

  lemma AfterWaitDecide(P: Params, i: nat, nd: Node, b: bit)
    requires P.Valid() && i < P.c.nServers && InRound(P, nd.slot)
    requires RoundVerdict(P.c, P.coin(nd.flips), RoundIndex(nd.slot.phase, nd.slot.round),
                          HeardAt(nd.slot, RoundIndex(nd.slot.phase, nd.slot.round))) == Decide(b)
    ensures var v := nd.slot;
      var flips := if FlipsCoin(v) then nd.flips + 1 else nd.flips;
      var found := if v.phase == 0 && v.round == 1 && HasProposal(HeardAt(v, 0)) then Some(MajV(HeardAt(v, 0)))
                   else ReturnValue(P, v, b);
      AfterWait(P, i, nd) ==
        match found
        case Some(dec) => (Node(v.(round := v.round + 1), Deciding(dec), flips), [DecisionMsg(P, dec)])
        case None => (Node(v, Asking, flips), [Msg(PROPOSAL_REQUEST, i, P.seqNo, None)])
  {
  }

  lemma NextPcOk(P: Params, nd: Node, log: seq<Msg>, x: uint32, m: Msg)
    requires P.Valid() && PcOk(P, nd, log) && nd.pc.Ready? && IsRoundMsg(m)
    requires nd.slot.round == 2 ==> nd.slot.phase + 1 < P.lenBlock
    ensures var v := nd.slot;
      var nd' := Node(Advance(v, RoundIndex(v.phase, v.round), x), Waiting,
                      if FlipsCoin(v) then nd.flips + 1 else nd.flips);
      PcOk(P, nd', log + [m]) && NextNotice(nd') == NextNotice(nd)
  {
    assert (log + [m])[|log|] == m;
  }

  /** The executor moves to the next round. */
  lemma ProceedNext(P: Params, i: nat, nd: Node, nd': Node, log: seq<Msg>, out: seq<Msg>, x: uint32)
    requires P.Valid() && i < P.c.nServers && nd.pc.Ready?
    requires LogOk(P, i, log) && PcOk(P, nd, log) && QueueOk(P, nd) && JustOk(P, nd.slot, log)
    requires (nd', out) == AfterWait(P, i, nd)
    requires var k := RoundIndex(nd.slot.phase, nd.slot.round);
      VerdictOf(P, nd.slot, k) == Next(x)
    ensures NodeInv(P, i, nd', log + out)
    ensures nd'.slot.heard == nd.slot.heard && nd'.slot.queue == nd.slot.queue && nd'.slot.isDone == nd.slot.isDone
    ensures nd'.pc.Crashed? || nd'.pc.Waiting?
    ensures forall j :: 0 <= j < |out| ==> out[j].typ != DECISION
  {
    hide RoundVerdict, Count, IsRound, FlipOf, AfterWait, LogOk, JustOk, QueueOk, PcOk;
    var v := nd.slot;
    ReadyInRound(P, nd, log);
    SameFlip(P, nd);
    AfterWaitNext(P, i, nd, x);
    if v.round == 2 && v.phase + 1 >= P.lenBlock {
      assert log + out == log;
      CrashedNode(P, i, nd, log, nd');
    } else {
      RoundParts(v.phase, v.round);
      NextRoundMsg(P, v, x);
      NextLog(P, i, nd, log, x, out[0]);
      assert log + out == log + [out[0]];
      JustKept(P, v, nd'.slot, log + out);
      NextPcOk(P, nd, log, x, out[0]);
      WaitingQueues(nd, nd');
      QueueKept(P, nd, nd');
    }
  }

  lemma ReadyInRound(P: Params, nd: Node, log: seq<Msg>)
    requires PcOk(P, nd, log) && nd.pc.Ready?
    ensures InRound(P, nd.slot) && nd.flips == if nd.slot.phase > 0 then nd.slot.phase - 1 else 0
  {
  }

  lemma WaitingQueues(nd: Node, nd': Node)
    requires nd.pc.Ready? && nd'.pc.Waiting?
    ensures Queueing(nd.pc) && Queueing(nd'.pc)
  {
  }

  lemma CrashedNode(P: Params, i: nat, nd: Node, log: seq<Msg>, nd': Node)
    requires LogOk(P, i, log) && PcOk(P, nd, log) && JustOk(P, nd.slot, log) && nd.pc.Ready?
    requires nd'.slot == nd.slot && nd'.pc.Crashed?
    ensures NodeInv(P, i, nd', log)
  {
    hide LogOk, JustOk;
  }

  lemma NextLog(P: Params, i: nat, nd: Node, log: seq<Msg>, x: uint32, m: Msg)
    requires nd.pc.Ready? && LogOk(P, i, log) && PcOk(P, nd, log) && JustOk(P, nd.slot, log)
    requires var k := RoundIndex(nd.slot.phase, nd.slot.round);
      VerdictOf(P, nd.slot, k) == Next(x) && IsRoundMsg(m) && IsRound(P, m, k + 1) && m.value == x
    ensures LogOk(P, i, log + [m]) && JustOk(P, nd.slot, log + [m])
  {
    AppendRoundMsg(P, i, nd.slot, log, m);
  }

  lemma MajorityObjAt(P: Params, w: World, i: nat)
    requires Inv(P, w) && i < |w.nodes| && HasProposal(HeardAt(w.nodes[i].slot, 0))
    ensures var obj := MajV(HeardAt(w.nodes[i].slot, 0));
      && !obj.isNull && obj.(svrSeq := P.seqNo) == obj
      && exists s: nat :: Sent(w, s, 0) && w.logs[s][0].obj == Some(obj)
  {
    AllLogsOk(P, w);
    assert CountingOk(P, w.nodes[i].slot, w.logs, w.read[i]);
    assert HeardOk(P, w.nodes[i].slot, w.logs, w.read[i], 0);
    MajorityObj(P, w.nodes[i].slot, w.logs, w.read[i]);
    var s: nat :| s < |w.logs| && SentIn(w.logs[s], 0) && w.logs[s][0].obj == Some(MajV(HeardAt(w.nodes[i].slot, 0)));
    assert Sent(w, s, 0);
  }

  lemma DecisionBacked(P: Params, w: World, i: nat, k: nat, b: bit)
    requires Inv(P, w) && DecidesAt(P, w, i, k, b) && Full(P.c, w.nodes[i].slot, 0)
    ensures k == 0 ==> HasProposal(HeardAt(w.nodes[i].slot, 0)) && Backed(P, w, MajV(HeardAt(w.nodes[i].slot, 0)))
    ensures ReturnValue(P, w.nodes[i].slot, b).Some? ==> Backed(P, w, ReturnValue(P, w.nodes[i].slot, b).value)
    ensures ReturnValue(P, w.nodes[i].slot, b).None? ==> b == 1
  {
    hide Inv, Count;
    var h := HeardAt(w.nodes[i].slot, 0);
    assert DecidedBit(P, w, b);
    if HasProposal(h) {
      MajorityObjAt(P, w, i);
      if MajT(h) >= P.c.Majority() {
        assert MajorityAt(P, w, i, MajV(h));
      }
    }
  }

  /** What the code returns for a decided bit: in round 0 the majority proposal as it was
      received, later what findReturnValue makes of it. */
  predicate DecidedValue(P: Params, v: SlotState, b: bit, dec: ConsensusObj) {
    || ReturnValue(P, v, b) == Some(dec)
    || (v.phase == 0 && v.round == 1 && HasProposal(HeardAt(v, 0)) && dec == MajV(HeardAt(v, 0)))
  }

  /** The executor leaves the rounds: with a decision, or asking for one. */
  lemma ProceedDecide(P: Params, i: nat, nd: Node, log: seq<Msg>, b: bit)
    requires P.Valid() && i < P.c.nServers && NodeInv(P, i, nd, log) && nd.pc.Ready?
    requires VerdictOf(P, nd.slot, RoundIndex(nd.slot.phase, nd.slot.round)) == Decide(b)
    ensures var (nd', out) := AfterWait(P, i, nd);
      && NodeInv(P, i, nd', log + out)
      && nd'.slot.heard == nd.slot.heard && nd'.slot.queue == nd.slot.queue && nd'.slot.isDone == nd.slot.isDone
      && |out| == 1
      && (nd'.pc.Asking? ==> out[0].typ != DECISION && ReturnValue(P, nd.slot, b).None?)
      && (!nd'.pc.Asking? ==> nd'.pc.Deciding? && out[0] == DecisionMsg(P, nd'.pc.dec)
                              && DecidedValue(P, nd.slot, b, nd'.pc.dec))
  {
    hide RoundVerdict, Count, IsRound, FlipOf;
    var v := nd.slot;
    SameFlip(P, nd);
    var (nd', out) := AfterWait(P, i, nd);
    AppendOther(P, i, v, log, out[0]);
    assert log + out == log + [out[0]];
    JustKept(P, v, nd'.slot, log + out);
    ReadyHasProposals(P, nd, log);
  }

  lemma ReadyHasProposals(P: Params, nd: Node, log: seq<Msg>)
    requires PcOk(P, nd, log) && JustOk(P, nd.slot, log) && nd.pc.Ready?
    requires forall j: nat, k: nat :: j <= k && SentIn(log, k) ==> SentIn(log, j)
    ensures Full(P.c, nd.slot, 0)
  {
    hide RoundVerdict;
    if RoundIndex(nd.slot.phase, nd.slot.round) > 0 { assert SentIn(log, 1); }
  }

  lemma ProceedNode(P: Params, w: World, i: nat, nd': Node, out: seq<Msg>)
    requires Inv(P, w) && Can(P, w, Proceed(i)) && (nd', out) == AfterWait(P, i, w.nodes[i])
    ensures NodeInv(P, i, nd', w.logs[i] + out) && DecOk(P, w, nd', w.logs[i] + out)
    ensures nd'.slot.heard == w.nodes[i].slot.heard && nd'.slot.isDone == w.nodes[i].slot.isDone
  {
    hide LogOk, QueueOk, JustOk, HeardOk, CompleteOk, RoundVerdict, AfterWait, Count;
    var nd, log := w.nodes[i], w.logs[i];
    var k := RoundIndex(nd.slot.phase, nd.slot.round);
    assert NodeInv(P, i, nd, log) && DecOk(P, w, nd, log);
    match VerdictOf(P, nd.slot, k)
    case Next(x) =>
      ProceedNext(P, i, nd, nd', log, out, x);
      assert DecMsgsOk(P, w, log + out);
    case Decide(b) =>
      ProceedDecide(P, i, nd, log, b);
      ProceedBacked(P, w, i, k, b);
      DecMsgsAppend(P, w, log, out[0]);
      assert out == [out[0]];
  }

  lemma ProceedKeeps(P: Params, w: World, i: nat)
    requires Inv(P, w) && Can(P, w, Proceed(i))
    ensures Inv(P, Do(P, w, Proceed(i)))
    ensures Extends(P, w, Do(P, w, Proceed(i)))
  {
    var w' := Do(P, w, Proceed(i));
    var (nd', out) := AfterWait(P, i, w.nodes[i]);
    ProceedNode(P, w, i, nd', out);
    ExecutorExtends(P, w, w', i, nd', out);
    ExecutorKeeps(P, w, w', i, nd', out);
  }

  lemma ProceedBacked(P: Params, w: World, i: nat, k: nat, b: bit)
    requires Inv(P, w) && Can(P, w, Proceed(i))
    requires k == RoundIndex(w.nodes[i].slot.phase, w.nodes[i].slot.round)
    requires VerdictOf(P, w.nodes[i].slot, k) == Decide(b)
    ensures var v := w.nodes[i].slot;
      && DecidedBit(P, w, b)
      && (k == 0 && HasProposal(HeardAt(v, 0)) ==>
            Backed(P, w, MajV(HeardAt(v, 0))) && MajV(HeardAt(v, 0)).(svrSeq := P.seqNo) == MajV(HeardAt(v, 0)))
      && (ReturnValue(P, v, b).Some? ==> Backed(P, w, ReturnValue(P, v, b).value))
      && (ReturnValue(P, v, b).None? ==> b == 1)
  {
    var nd := w.nodes[i];
    assert NodeInv(P, i, nd, w.logs[i]);
    assert Full(P.c, nd.slot, 0) by {
      if k > 0 { assert SentIn(w.logs[i], 1); }
    }
    assert DecidesAt(P, w, i, k, b);
    DecisionBacked(P, w, i, k, b);
    if HasProposal(HeardAt(nd.slot, 0)) { MajorityObjAt(P, w, i); }
  }

  lemma AdoptKeeps(P: Params, w: World, i: nat, obj: ConsensusObj)
    requires Inv(P, w) && Can(P, w, Adopt(i, obj))
    ensures Inv(P, Do(P, w, Adopt(i, obj)))
    ensures Extends(P, w, Do(P, w, Adopt(i, obj)))
  {
    hide HeardOk, CompleteOk, RoundVerdict, Count, IsRound, DecidedBit;
    var w' := Do(P, w, Adopt(i, obj));
    var nd' := w'.nodes[i];
    assert NodeInv(P, i, w.nodes[i], w.logs[i]) && DecOk(P, w, w.nodes[i], w.logs[i]);
    var m := DecisionMsg(P, obj);
    AppendOther(P, i, w.nodes[i].slot, w.logs[i], m);
    JustKept(P, w.nodes[i].slot, nd'.slot, w.logs[i] + [m]);
    assert Backed(P, w, obj) && obj.(svrSeq := P.seqNo) == obj;
    DecMsgsAppend(P, w, w.logs[i], m);
    ExecutorExtends(P, w, w', i, nd', [m]);
    ExecutorKeeps(P, w, w', i, nd', [m]);
  }

  lemma FinishKeeps(P: Params, w: World, i: nat)
    requires Inv(P, w) && Can(P, w, Finish(i))
    ensures Inv(P, Do(P, w, Finish(i)))
    ensures Extends(P, w, Do(P, w, Finish(i)))
  {
    hide HeardOk, CompleteOk, RoundVerdict, Count, IsRound;
    var w' := Do(P, w, Finish(i));
    var nd' := w'.nodes[i];
    assert NodeInv(P, i, w.nodes[i], w.logs[i]) && DecOk(P, w, w.nodes[i], w.logs[i]);
    JustKept(P, w.nodes[i].slot, nd'.slot, w.logs[i]);
    assert w.logs[i] + [] == w.logs[i];
    ExecutorExtends(P, w, w', i, nd', []);
    ExecutorKeeps(P, w, w', i, nd', []);
  }

  // ---------------------------------------------------------------- handler steps

  /** The message delivered next is either the sender's message of the round it is positioned
      at, or no round message at all. */
  lemma DeliveredRound(P: Params, s: nat, log: seq<Msg>, p: nat)
    requires LogOk(P, s, log) && p < |log| && IsRoundMsg(log[p])
    ensures RoundOf(log[p]) == p && NoticeFor(Notice(P, log[p]), p)
  {
    assert SentIn(log, p);
  }

  lemma HandleHeard(P: Params, v: SlotState, s: nat, m: Msg, p: nat)
    requires IsRoundMsg(m) ==> RoundOf(m) == p
    ensures var v' := Handle(P, v, s, m);
      forall k: nat :: HeardAt(v', k) ==
        if k == p && IsRoundMsg(m) && !v.isDone && !Full(P.c, v, p) then HeardAt(v, k) + [(s, m)] else HeardAt(v, k)
  {
  }

  lemma HeardAppend(P: Params, v: SlotState, v': SlotState, logs: seq<seq<Msg>>, row: seq<nat>, s: nat, k: nat)
    requires |logs| == |row| && s < |logs| && row[s] == k < |logs[s]| && SentIn(logs[s], k)
    requires HeardOk(P, v, logs, row, k) && !Full(P.c, v, k)
    requires HeardAt(v', k) == HeardAt(v, k) + [(s, logs[s][k])]
    ensures HeardOk(P, v', logs, row[s := k + 1], k)
  {
  }

  lemma HeardSame(P: Params, v: SlotState, v': SlotState, logs: seq<seq<Msg>>, row: seq<nat>, s: nat, k: nat)
    requires |logs| == |row| && s < |logs|
    requires HeardOk(P, v, logs, row, k) && HeardAt(v', k) == HeardAt(v, k)
    ensures HeardOk(P, v', logs, row[s := row[s] + 1], k)
  {
  }

  lemma DeliverHeard(P: Params, v: SlotState, logs: seq<seq<Msg>>, row: seq<nat>, s: nat, k: nat)
    requires |logs| == |row| && s < |logs| && row[s] < |logs[s]|
    requires LogOk(P, s, logs[s]) && HeardOk(P, v, logs, row, k)
    ensures HeardOk(P, Handle(P, v, s, logs[s][row[s]]), logs, row[s := row[s] + 1], k)
  {
    hide LogOk, Handle, HeardOk;
    var m := logs[s][row[s]];
    var v' := Handle(P, v, s, m);
    if IsRoundMsg(m) { DeliveredRound(P, s, logs[s], row[s]); }
    HandleHeard(P, v, s, m, row[s]);
    if k == row[s] && IsRoundMsg(m) && !v.isDone && !Full(P.c, v, k) {
      HeardAppend(P, v, v', logs, row, s, k);
    } else {
      HeardSame(P, v, v', logs, row, s, k);
    }
  }

  lemma DeliverComplete(P: Params, v: SlotState, logs: seq<seq<Msg>>, row: seq<nat>, s: nat)
    requires |logs| == |row| && s < |logs| && row[s] < |logs[s]|
    requires LogOk(P, s, logs[s]) && CompleteOk(P, v, logs, row)
    ensures CompleteOk(P, Handle(P, v, s, logs[s][row[s]]), logs, row[s := row[s] + 1])
  {
    var p := row[s];
    var m := logs[s][p];
    var v', row' := Handle(P, v, s, m), row[s := p + 1];
    if IsRoundMsg(m) { DeliveredRound(P, s, logs[s], p); }
    HandleHeard(P, v, s, m, p);
    forall s': nat, k: nat | !v'.isDone && s' < |logs| && k < row'[s'] && SentIn(logs[s'], k)
      ensures Full(P.c, v', k) || HasSender(HeardAt(v', k), s')
    {
      var h, h' := HeardAt(v, k), HeardAt(v', k);
      if !Full(P.c, v, k) {
        if s' == s && k == p {
          assert h'[|h|].0 == s;
        } else {
          assert HasSender(h, s');
          var j :| 0 <= j < |h| && h[j].0 == s';
          assert h'[j].0 == s';
        }
      }
    }
  }

  lemma DeliverNoted(P: Params, v: SlotState, logs: seq<seq<Msg>>, row: seq<nat>, s: nat)
    requires |logs| == |row| && s < |logs| && row[s] < |logs[s]| && NotedOk(v, logs, row)
    ensures NotedOk(Handle(P, v, s, logs[s][row[s]]), logs, row[s := row[s] + 1])
  {
  }

  lemma DeliverCounting(P: Params, v: SlotState, logs: seq<seq<Msg>>, row: seq<nat>, s: nat)
    requires |logs| == |row| && s < |logs| && row[s] < |logs[s]|
    requires LogOk(P, s, logs[s]) && CountingOk(P, v, logs, row)
    ensures CountingOk(P, Handle(P, v, s, logs[s][row[s]]), logs, row[s := row[s] + 1])
  {
    DeliverComplete(P, v, logs, row, s);
    DeliverNoted(P, v, logs, row, s);
    var v', row' := Handle(P, v, s, logs[s][row[s]]), row[s := row[s] + 1];
    forall k: nat
      ensures HeardOk(P, v', logs, row', k)
    {
      DeliverHeard(P, v, logs, row, s, k);
    }
  }

  /** With FIFO links, a round is full only if the round before it is. */
  lemma FullDownward(P: Params, v: SlotState, logs: seq<seq<Msg>>, row: seq<nat>, k: nat)
    requires |logs| == |row| && k > 0
    requires forall s: nat :: s < |logs| ==> LogOk(P, s, logs[s])
    requires CountingOk(P, v, logs, row) && !v.isDone && Full(P.c, v, k)
    ensures Full(P.c, v, k - 1)
  {
    var h, g := HeardAt(v, k), HeardAt(v, k - 1);
    assert HeardOk(P, v, logs, row, k);
    if !Full(P.c, v, k - 1) {
      forall j | 0 <= j < |h|
        ensures h[j].0 in Senders(g)
      {
        var s := h[j].0;
        assert LogOk(P, s, logs[s]);
        assert SentIn(logs[s], k - 1);
        assert HasSender(g, s);
      }
      assert Senders(h) <= Senders(g);
      SenderCount(h);
      SenderCount(g);
      SubsetSize(Senders(h), Senders(g));
    }
  }

  lemma SubsetSize<T>(a: set<T>, b: set<T>)
    requires a <= b
    ensures |a| <= |b|
  {
    assert b == a + (b - a);
  }

  ghost function Senders(h: Heard): set<nat> {
    set j | 0 <= j < |h| :: h[j].0
  }

  lemma SendersSplit(h: Heard)
    requires |h| > 0
    ensures Senders(h) == Senders(h[..|h| - 1]) + {h[|h| - 1].0}
  {
    var front := h[..|h| - 1];
    forall x | x in Senders(h)
      ensures x in Senders(front) + {h[|h| - 1].0}
    {
      var j :| 0 <= j < |h| && h[j].0 == x;
      if j < |front| { assert front[j] == h[j]; }
    }
    forall x | x in Senders(front)
      ensures x in Senders(h)
    {
      var j :| 0 <= j < |front| && front[j].0 == x;
      assert h[j] == front[j];
    }
  }

  lemma {:induction false} SenderCount(h: Heard)
    ensures |Senders(h)| <= |h|
    ensures (forall j, j' :: 0 <= j < j' < |h| ==> h[j].0 != h[j'].0) ==> |Senders(h)| == |h|
  {
    if |h| > 0 {
      SenderCount(h[..|h| - 1]);
      SendersSplit(h);
    }
  }

  /** The round that a delivery fills is the first one that was not full, so the notices in the
      queue stay a contiguous run. */
  lemma DeliverNotices(P: Params, v: SlotState, logs: seq<seq<Msg>>, row: seq<nat>, s: nat, c: nat)
    requires |logs| == |row| && s < |logs| && row[s] < |logs[s]| && IsRoundMsg(logs[s][row[s]])
    requires forall s: nat :: s < |logs| ==> LogOk(P, s, logs[s])
    requires CountingOk(P, v, logs, row) && !v.isDone && Notices(P, v, c)
    ensures Notices(P, Handle(P, v, s, logs[s][row[s]]), c)
  {
    hide LogOk, CountingOk;
    var m := logs[s][row[s]];
    var k := row[s];
    var v' := Handle(P, v, s, m);
    DeliveredRound(P, s, logs[s], k);
    HandleHeard(P, v, s, m, k);
    if !Full(P.c, v, k) && Full(P.c, v', k) {
      DeliverCounting(P, v, logs, row, s);
      if k > 0 {
        FullDownward(P, v', logs, row[s := row[s] + 1], k);
        assert Full(P.c, v, k - 1);
      }
      assert v'.queue == v.queue + [Notice(P, m)] && k == c + |v.queue|;
    }
    forall k': nat
      ensures Full(P.c, v', k') <==> k' < c + |v'.queue|
    {
      assert Full(P.c, v, k') <==> k' < c + |v.queue|;
    }
  }

  lemma DeliverQueue(P: Params, nd: Node, logs: seq<seq<Msg>>, row: seq<nat>, s: nat)
    requires |logs| == |row| && s < |logs| && row[s] < |logs[s]|
    requires forall s: nat :: s < |logs| ==> LogOk(P, s, logs[s])
    requires CountingOk(P, nd.slot, logs, row) && QueueOk(P, nd) && (nd.slot.isDone ==> nd.pc.Done?)
    ensures QueueOk(P, nd.(slot := Handle(P, nd.slot, s, logs[s][row[s]])))
  {
    hide LogOk, CountingOk, Notices;
    var m := logs[s][row[s]];
    var v := nd.slot;
    var v' := Handle(P, v, s, m);
    if Queueing(nd.pc) {
      if v.hasRecvDec {
        var j :| 0 <= j < |v.queue| && v.queue[j].typ == DECISION;
        assert v'.queue[j].typ == DECISION;
      } else if IsRoundMsg(m) {
        DeliverNotices(P, v, logs, row, s, NextNotice(nd));
      } else if m.typ == DECISION {
        assert v'.queue[|v.queue|].typ == DECISION;
      }
    }
  }

  lemma HandleDecisions(P: Params, w: World, v: SlotState, s: nat, m: Msg)
    requires DecMsgsOk(P, w, v.queue)
    requires m.typ == DECISION ==> m.obj.Some? && Backed(P, w, m.obj.value)
    ensures DecMsgsOk(P, w, Handle(P, v, s, m).queue)
  {
    if IsRoundMsg(m) {
      DecMsgsAppend(P, w, v.queue, Notice(P, m));
    } else if m.typ == DECISION {
      DecMsgsAppend(P, w, v.queue, m);
    }
  }

  lemma DeliverNode(P: Params, r: nat, nd: Node, logs: seq<seq<Msg>>, row: seq<nat>, s: nat)
    requires |logs| == |row| && s < |logs| && r < |logs| && row[s] < |logs[s]|
    requires forall s: nat :: s < |logs| ==> LogOk(P, s, logs[s])
    requires CountingOk(P, nd.slot, logs, row)
    requires PcOk(P, nd, logs[r]) && QueueOk(P, nd) && JustOk(P, nd.slot, logs[r]) && AskOk(P, nd)
    ensures NodeInv(P, r, nd.(slot := Handle(P, nd.slot, s, logs[s][row[s]])), logs[r])
  {
    hide RoundVerdict, Count, IsRound, FlipOf, HasProposal, MajT, MajV;
    var m := logs[s][row[s]];
    var v := nd.slot;
    var nd' := nd.(slot := Handle(P, v, s, m));
    DeliverQueue(P, nd, logs, row, s);
    if IsRoundMsg(m) { HandleHeard(P, v, s, m, RoundOf(m)); } else { HandleHeard(P, v, s, m, 0); }
    JustKept(P, v, nd'.slot, logs[r]);
    assert LogOk(P, r, logs[r]);
    assert PcOk(P, nd', logs[r]);
  }

  /** The server that takes a message. */
  lemma DeliverReceiver(P: Params, w: World, r: nat, s: nat)
    requires Inv(P, w) && Can(P, w, Deliver(r, s)) && w.logs[s][w.read[r][s]].typ != PROPOSAL_REQUEST
    ensures var nd' := w.nodes[r].(slot := Handle(P, w.nodes[r].slot, s, w.logs[s][w.read[r][s]]));
      && NodeInv(P, r, nd', w.logs[r])
      && CountingOk(P, nd'.slot, w.logs, w.read[r][s := w.read[r][s] + 1])
      && DecOk(P, w, nd', w.logs[r])
  {
    hide LogOk, PcOk, QueueOk, JustOk, HeardOk, CompleteOk, NotedOk, DecOk, Handle;
    var nd := w.nodes[r];
    AllLogsOk(P, w);
    assert NodeInv(P, r, nd, w.logs[r]);
    assert CountingOk(P, nd.slot, w.logs, w.read[r]);
    DeliverNode(P, r, nd, w.logs, w.read[r], s);
    DeliverCounting(P, nd.slot, w.logs, w.read[r], s);
    DeliverDecisions(P, w, r, s);
  }

  lemma DeliverDecisions(P: Params, w: World, r: nat, s: nat)
    requires Inv(P, w) && Can(P, w, Deliver(r, s))
    ensures DecOk(P, w, w.nodes[r].(slot := Handle(P, w.nodes[r].slot, s, w.logs[s][w.read[r][s]])), w.logs[r])
  {
    assert DecOk(P, w, w.nodes[r], w.logs[r]);
    assert DecOk(P, w, w.nodes[s], w.logs[s]);
    assert DecMsgsOk(P, w, w.logs[s]);
    HandleDecisions(P, w, w.nodes[r].slot, s, w.logs[s][w.read[r][s]]);
  }

  /** A handler step that answers a request changes no server. */
  lemma CursorKept(P: Params, v: SlotState, logs: seq<seq<Msg>>, row: seq<nat>, s: nat)
    requires |logs| == |row| && s < |logs| && row[s] < |logs[s]|
    requires CountingOk(P, v, logs, row) && !IsRoundMsg(logs[s][row[s]]) && logs[s][row[s]].typ != DECISION
    ensures CountingOk(P, v, logs, row[s := row[s] + 1])
  {
    var row' := row[s := row[s] + 1];
    forall k: nat
      ensures HeardOk(P, v, logs, row', k)
    {
      assert HeardOk(P, v, logs, row, k);
    }
  }

  lemma DeliverExtends(P: Params, w: World, r: nat, s: nat)
    requires Shape(P, w) && Can(P, w, Deliver(r, s))
    ensures Extends(P, w, Do(P, w, Deliver(r, s)))
  {
    var m := w.logs[s][w.read[r][s]];
    if IsRoundMsg(m) { HandleHeard(P, w.nodes[r].slot, s, m, RoundOf(m)); }
    else { HandleHeard(P, w.nodes[r].slot, s, m, 0); }
  }

  lemma DeliverKeeps(P: Params, w: World, r: nat, s: nat)
    requires Inv(P, w) && Can(P, w, Deliver(r, s))
    ensures Inv(P, Do(P, w, Deliver(r, s)))
    ensures Extends(P, w, Do(P, w, Deliver(r, s)))
  {
    hide LogOk, PcOk, QueueOk, JustOk, HeardOk, CompleteOk, NotedOk, NodeInv, CountingOk, DecOk, Handle;
    var w' := Do(P, w, Deliver(r, s));
    var m := w.logs[s][w.read[r][s]];
    DeliverExtends(P, w, r, s);
    BackedKept(P, w, w');
    forall i: nat | i < |w'.nodes|
      ensures NodeInv(P, i, w'.nodes[i], w'.logs[i])
      ensures CountingOk(P, w'.nodes[i].slot, w'.logs, w'.read[i])
      ensures DecOk(P, w', w'.nodes[i], w'.logs[i])
    {
      if i == r && m.typ != PROPOSAL_REQUEST {
        DeliverReceiver(P, w, r, s);
      } else if i == r {
        CursorKept(P, w.nodes[r].slot, w.logs, w.read[r], s);
      }
      DecKept(P, w, w', w'.nodes[i], w'.logs[i]);
    }
    RepliesKept(P, w, w');
    if w'.replies != w.replies {
      MajorityObjAt(P, w, r);
      assert MajorityAt(P, w', r, ReplyFor(P, w.nodes[r].slot).value);
    }
  }

  // ---------------------------------------------------------------- all runs

  lemma InitInv(P: Params)
    requires P.Valid()
    ensures Inv(P, Init(P))
  {
  }

  lemma StepKeeps(P: Params, w: World, st: Step)
    requires Inv(P, w) && Can(P, w, st)
    ensures Inv(P, Do(P, w, st)) && Extends(P, w, Do(P, w, st))
  {
    match st
    case Start(i, obj) => StartKeeps(P, w, i, obj);
    case Pop(i) => PopKeeps(P, w, i);
    case Proceed(i) => ProceedKeeps(P, w, i);
    case Adopt(i, obj) => AdoptKeeps(P, w, i, obj);
    case Finish(i) => FinishKeeps(P, w, i);
    case Deliver(r, s) => DeliverKeeps(P, w, r, s);
  }

  lemma RunStep(P: Params, run: seq<World>, t: nat)
    requires IsRun(P, run) && t + 1 < |run| && Inv(P, run[t])
    ensures Inv(P, run[t + 1]) && Extends(P, run[t], run[t + 1])
  {
    hide Inv, Extends, Do, Can;
    assert Leads(P, run[t], run[t + 1]);
    var st :| Can(P, run[t], st) && run[t + 1] == Do(P, run[t], st);
    StepKeeps(P, run[t], st);
  }

  lemma {:induction false} RunInv(P: Params, run: seq<World>, t: nat)
    requires IsRun(P, run) && t < |run|
    ensures Inv(P, run[t])
  {
    hide Inv;
    if t == 0 {
      InitInv(P);
    } else {
      RunInv(P, run, t - 1);
      RunStep(P, run, t - 1);
    }
  }

  /** Along a run nothing is undone. */
  lemma {:induction false} RunExtends(P: Params, run: seq<World>, t: nat, t': nat)
    requires IsRun(P, run) && t <= t' < |run|
    ensures Extends(P, run[t], run[t'])
  {
    hide Inv, IsRun;
    RunInv(P, run, t);
    if t == t' {
      ExtendsRefl(P, run[t]);
    } else {
      RunExtends(P, run, t, t' - 1);
      RunInv(P, run, t' - 1);
      RunStep(P, run, t' - 1);
      ExtendsTransitive(P, run[t], run[t' - 1], run[t']);
    }
  }

  lemma ExtendsRefl(P: Params, w: World)
    requires Inv(P, w)
    ensures Extends(P, w, w)
  {
  }

  lemma ExtendsTransitive(P: Params, a: World, b: World, c: World)
    requires Extends(P, a, b) && Extends(P, b, c)
    ensures Extends(P, a, c)
  {
    forall i: nat | i < |a.logs|
      ensures a.logs[i] <= c.logs[i]
    {
      assert a.logs[i] <= b.logs[i] && b.logs[i] <= c.logs[i];
    }
    forall i: nat, k: nat | i < |a.nodes| && Full(P.c, a.nodes[i].slot, k)
      ensures HeardAt(c.nodes[i].slot, k) == HeardAt(a.nodes[i].slot, k)
    {
      assert HeardAt(b.nodes[i].slot, k) == HeardAt(a.nodes[i].slot, k);
    }
  }

  /** The invariant holds in every reachable world. */
  lemma ReachableInv(P: Params, w: World)
    requires Reachable(P, w)
    ensures Inv(P, w)
  {
    var run :| IsRun(P, run) && run[|run| - 1] == w;
    RunInv(P, run, |run| - 1);
  }
}
