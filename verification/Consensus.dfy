/** The consensus layer of one server: the executor and the message handler over the ring ledger.
    Every method is proved against SlotSpec and Cluster, so that a server made of these methods is
    a node of the cluster.
    Sources: roles/server/layers/consensus/consensus.go, executor.go, msgHandler.go. */
module ConsensusLayer {
  import opened Messages
  import opened Quorums
  import opened SlotSpec
  import opened Cluster
  import opened ClusterInv
  import opened Ledger
  import opened Ring
  import opened Pending

  /** How an AfterWait function ends. Requested: the decided object was asked for from the other
      servers. OutOfRange: the phase has no entry in the slot's arrays, and the server panics. */
  datatype Outcome = Continue | Return(dec: ConsensusObj) | Requested | OutOfRange

  /** How wait ends; Blocked: the queue is empty. */
  datatype Waited = Proceeds | Decides | Blocked | Panics(code: nat)

  /** One AfterWait function, compared with the step of the cluster: v and flips before, v' and
      flips' after, and the outgoing messages before and after. The cluster's step also sends the
      message of the next round, which is left to the BeforeWait function. */
  ghost predicate IsAfterWait(P: Params, i: uint32, v: SlotState, flips: nat, v': SlotState, flips': nat,
                              o: Outcome, toNet: seq<Msg>, toNet': seq<Msg>)
    requires i < P.c.nServers && P.Valid() && InRound(P, v)
  {
    var (nd, out) := AfterWait(P, i, Node(v, Ready, flips));
    && nd.slot == v' && nd.flips == flips'
    && match o
       case Continue => nd.pc.Waiting? && toNet' == toNet
       case Return(dec) => nd.pc == Deciding(dec) && toNet' == toNet + out
       case Requested => nd.pc.Asking? && toNet' == toNet + out
       case OutOfRange => nd.pc.Crashed? && toNet' == toNet
  }

  /** Going on to the next round, or past the last phase, with value x. */
  lemma NextIs(P: Params, i: uint32, v: SlotState, flips: nat, x: uint32, net: seq<Msg>)
    requires i < P.c.nServers && P.Valid() && InRound(P, v)
    requires var k := RoundIndex(v.phase, v.round); RoundVerdict(P.c, P.coin(flips), k, HeardAt(v, k)) == Next(x)
    ensures var flips' := if FlipsCoin(v) then flips + 1 else flips;
      if v.round == 2 && v.phase + 1 >= P.lenBlock
      then IsAfterWait(P, i, v, flips, v, flips', OutOfRange, net, net)
      else IsAfterWait(P, i, v, flips, Advance(v, RoundIndex(v.phase, v.round), x), flips', Continue, net, net)
  {
    hide RoundVerdict;
    AfterWaitNext(P, i, Node(v, Ready, flips), x);
  }

  /** Deciding bit b. */
  lemma DecideIs(P: Params, i: uint32, v: SlotState, flips: nat, b: bit, net: seq<Msg>)
    requires i < P.c.nServers && P.Valid() && InRound(P, v)
    requires var k := RoundIndex(v.phase, v.round); RoundVerdict(P.c, P.coin(flips), k, HeardAt(v, k)) == Decide(b)
    ensures var flips' := if FlipsCoin(v) then flips + 1 else flips;
      var found := if v.phase == 0 && v.round == 1 && HasProposal(HeardAt(v, 0)) then Some(MajV(HeardAt(v, 0)))
                   else ReturnValue(P, v, b);
      match found
      case Some(dec) => IsAfterWait(P, i, v, flips, v.(round := v.round + 1), flips', Return(dec),
                                    net, net + [DecisionMsg(P, dec)])
      case None => IsAfterWait(P, i, v, flips, v, flips', Requested, net, net + [Msg(PROPOSAL_REQUEST, i, P.seqNo, None)])
  {
    hide RoundVerdict, ReturnValue, HasProposal, MajV;
    AfterWaitDecide(P, i, Node(v, Ready, flips), b);
  }

  /** Round 0. */
  lemma AfterProposals(P: Params, i: uint32, v: SlotState, flips: nat, net: seq<Msg>)
    requires i < P.c.nServers && P.Valid() && v.phase == 0 && v.round == 1 && HasProposal(HeardAt(v, 0))
    ensures var h := HeardAt(v, 0);
      if MajT(h) >= P.c.MajorityPlusF()
      then IsAfterWait(P, i, v, flips, v.(round := 2), flips, Return(MajV(h)), net, net + [DecisionMsg(P, MajV(h))])
      else IsAfterWait(P, i, v, flips, v.(mine := v.mine[1 := if MajT(h) >= P.c.Majority() then 1 else 2], round := 2),
                       flips, Continue, net, net)
  {
    hide IsAfterWait, HasProposal, MajT, MajV, AfterWait;
    var h := HeardAt(v, 0);
    if MajT(h) >= P.c.MajorityPlusF() {
      DecideIs(P, i, v, flips, 1, net);
    } else {
      NextIs(P, i, v, flips, if MajT(h) >= P.c.Majority() then 1 else 2, net);
    }
  }

  /** The rounds of states. */
  lemma AfterStates(P: Params, i: uint32, v: SlotState, flips: nat, net: seq<Msg>)
    requires i < P.c.nServers && P.Valid() && 0 < v.phase < P.lenBlock && v.round == 1
    ensures var k := 2 * v.phase;
      var h := HeardAt(v, k);
      if BitMajT(h) >= P.c.MajorityPlusF() then IsDecided(P, i, v, flips, flips, BitMajV(h), net)
      else IsAfterWait(P, i, v, flips,
        v.(mine := v.mine[k + 1 := if BitMajT(h) >= P.c.Majority() then BitMajV(h) else 2], round := 2),
        flips, Continue, net, net)
  {
    hide IsAfterWait, IsDecided, BitMajT, BitMajV, AfterWait;
    RoundParts(v.phase, 1);
    var h := HeardAt(v, 2 * v.phase);
    if BitMajT(h) >= P.c.MajorityPlusF() {
      DecideIs(P, i, v, flips, BitMajV(h), net);
      Decided(P, i, v, flips, flips, BitMajV(h), net);
    } else {
      NextIs(P, i, v, flips, if BitMajT(h) >= P.c.Majority() then BitMajV(h) else 2, net);
    }
  }

  /** The rounds of votes, of which the first does not flip the coin. */
  lemma AfterVotes(P: Params, i: uint32, v: SlotState, flips: nat, net: seq<Msg>)
    requires i < P.c.nServers && P.Valid() && v.phase < P.lenBlock && v.round == 2
    ensures var k := 2 * v.phase + 1;
      var h := HeardAt(v, k);
      var flips' := if v.phase > 0 then flips + 1 else flips;
      var x := if BitMajT(h) >= 1 then BitMajV(h) else if v.phase > 0 then P.coin(flips) else 0;
      if BitMajT(h) >= P.c.FaultyPlusOne() then IsDecided(P, i, v, flips, flips', BitMajV(h), net)
      else if v.phase + 1 >= P.lenBlock then IsAfterWait(P, i, v, flips, v, flips', OutOfRange, net, net)
      else IsAfterWait(P, i, v, flips, v.(mine := v.mine[k + 1 := x], phase := v.phase + 1, round := 1),
                       flips', Continue, net, net)
  {
    hide IsAfterWait, IsDecided, BitMajT, BitMajV, AfterWait;
    RoundParts(v.phase, 2);
    var h := HeardAt(v, 2 * v.phase + 1);
    if BitMajT(h) >= P.c.FaultyPlusOne() {
      DecideIs(P, i, v, flips, BitMajV(h), net);
      Decided(P, i, v, flips, if v.phase > 0 then flips + 1 else flips, BitMajV(h), net);
    } else {
      NextIs(P, i, v, flips, if BitMajT(h) >= 1 then BitMajV(h) else if v.phase > 0 then P.coin(flips) else 0, net);
    }
  }

  /** The two ways to end a round that decides bit b by states or votes. */
  ghost predicate IsDecided(P: Params, i: uint32, v: SlotState, flips: nat, flips': nat, b: bit, net: seq<Msg>)
    requires i < P.c.nServers && P.Valid() && InRound(P, v)
  {
    match ReturnValue(P, v, b)
    case Some(dec) => IsAfterWait(P, i, v, flips, v.(round := v.round + 1), flips', Return(dec),
                                  net, net + [DecisionMsg(P, dec)])
    case None => IsAfterWait(P, i, v, flips, v, flips', Requested, net, net + [Msg(PROPOSAL_REQUEST, i, P.seqNo, None)])
  }

  lemma Decided(P: Params, i: uint32, v: SlotState, flips: nat, flips': nat, b: bit, net: seq<Msg>)
    requires i < P.c.nServers && P.Valid() && InRound(P, v) && (v.phase > 0 || v.round == 2)
    requires match ReturnValue(P, v, b)
      case Some(dec) => IsAfterWait(P, i, v, flips, v.(round := v.round + 1), flips', Return(dec),
                                    net, net + [DecisionMsg(P, dec)])
      case None => IsAfterWait(P, i, v, flips, v, flips', Requested, net, net + [Msg(PROPOSAL_REQUEST, i, P.seqNo, None)])
    ensures IsDecided(P, i, v, flips, flips', b, net)
  {
    hide IsAfterWait, ReturnValue;
  }

  lemma AfterWaitSends(P: Params, i: uint32, nd: Node)
    requires P.Valid() && i < P.c.nServers && InRound(P, nd.slot)
    ensures var (nd', out) := AfterWait(P, i, nd);
      && (nd'.pc.Waiting? ==> InRound(P, nd'.slot) && (nd'.slot.phase > 0 || nd'.slot.round == 2)
                              && out == [BinConMsg(P, nd'.slot)])
      && (nd'.pc.Crashed? ==> out == [])
  {
    hide RoundVerdict, HasProposal, MajV, ReturnValue;
    RoundParts(nd.slot.phase, nd.slot.round);
  }

  /** wait, as repeated pops. */
  function WaitNode(nd: Node): Node
    decreases |nd.slot.queue|
  {
    if nd.pc.Waiting? && |nd.slot.queue| > 0 then WaitNode(PopNode(nd.slot, nd)) else nd
  }

  ghost predicate PopsTo(P: Params, w: World, i: nat, w': World, n: nat)
    decreases n
  {
    if n == 0 then w' == w
    else Shape(P, w) && Can(P, w, Pop(i)) && PopsTo(P, Do(P, w, Pop(i)), i, w', n - 1)
  }

  /** What wait does is what a number of Pop steps of the cluster do. */
  lemma {:induction false} WaitIsPops(P: Params, w: World, i: nat) returns (n: nat)
    requires Shape(P, w) && i < |w.nodes| && w.nodes[i].pc.Waiting?
    ensures PopsTo(P, w, i, w.(nodes := w.nodes[i := WaitNode(w.nodes[i])]), n)
    decreases |w.nodes[i].slot.queue|
  {
    hide PopVerdict;
    var nd := w.nodes[i];
    if |nd.slot.queue| == 0 {
      assert w.nodes[i := nd] == w.nodes;
      n := 0;
    } else {
      var w1 := Do(P, w, Pop(i));
      var nd1 := PopNode(nd.slot, nd);
      assert w.logs[i] + [] == w.logs[i];
      assert w1 == w.(nodes := w.nodes[i := nd1]);
      assert w1.nodes[i := WaitNode(nd1)] == w.nodes[i := WaitNode(nd)];
      if nd1.pc.Waiting? {
        var m := WaitIsPops(P, w1, i);
        n := m + 1;
      } else {
        assert PopsTo(P, w1, i, w1, 0);
        n := 1;
      }
    }
  }

  lemma WaitStep(v: SlotState, flips: nat)
    requires |v.queue| > 0
    ensures var v' := v.(queue := v.queue[1..]);
      var nd := WaitNode(Node(v, Waiting, flips));
      match PopVerdict(v, v.queue[0])
      case Skip => nd == WaitNode(Node(v', Waiting, flips))
      case Go => nd == Node(v', Ready, flips)
      case Received(dec) => nd == Node(v', Deciding(dec), flips)
      case Panic(code) => nd == Node(v', Panicked(code), flips)
  {
    hide PopVerdict;
  }

  lemma WaitNothing(v: SlotState, flips: nat)
    ensures |v.queue| == 0 ==> WaitNode(Node(v, Waiting, flips)) == Node(v, Waiting, flips)
  {
  }

  /** A node once its epilogue has run, if it is to run. */
  function Settled(nd: Node): SlotState {
    if nd.pc.Deciding? then nd.slot.(decision := nd.pc.dec, isDone := true) else nd.slot
  }

  function SettledRequests(r: Requests, nd: Node): Requests {
    if nd.pc.Deciding? then AfterEpilogue(r, nd.slot.myProposal, nd.pc.dec) else r
  }

  function WaitedOf(nd: Node): Waited {
    match nd.pc
    case Deciding(_) => Decides
    case Ready => Proceeds
    case Panicked(code) => Panics(code)
    case _ => Blocked
  }

  /** The part of a stream of replies that requestProposalAndWait consumes: stale ones, up to and
      including the first that is not older than the slot. */
  function SkipStale(replies: seq<Msg>, seqNo: uint32): nat {
    if |replies| == 0 then 0
    else if replies[0].value < seqNo then 1 + SkipStale(replies[1..], seqNo)
    else 0
  }

  /** Reply n is the first one for this slot, and none before it is for a later one. */
  ghost predicate IsFirstFor(replies: seq<Msg>, seqNo: uint32, n: nat) {
    n < |replies| && replies[n].value == seqNo && forall j :: 0 <= j < n ==> replies[j].value < seqNo
  }

  /** It is what SkipStale stops at. */
  lemma {:induction false} FirstReply(replies: seq<Msg>, seqNo: uint32, n: nat)
    requires IsFirstFor(replies, seqNo, n)
    ensures SkipStale(replies, seqNo) == n
    decreases n
  {
    if n > 0 { FirstReply(replies[1..], seqNo, n - 1); }
  }

  /** Only stale replies are skipped, and all of them at the front. */
  lemma {:induction false} SkipsOnlyStale(replies: seq<Msg>, seqNo: uint32)
    ensures var n := SkipStale(replies, seqNo);
      && n <= |replies| && (forall j :: 0 <= j < n ==> replies[j].value < seqNo)
      && (n < |replies| ==> replies[n].value >= seqNo)
  {
    if |replies| > 0 { SkipsOnlyStale(replies[1..], seqNo); }
  }

  /** When replies are never ahead of the slot, there is a first one for it as soon as there is one. */
  lemma {:induction false} SomeFirst(replies: seq<Msg>, seqNo: uint32, k: nat) returns (n: nat)
    requires k < |replies| && replies[k].value == seqNo && forall m :: m in replies ==> m.value <= seqNo
    ensures n <= k && IsFirstFor(replies, seqNo, n)
    decreases k
  {
    n := k;
    if j :| 0 <= j < k && replies[j].value >= seqNo {
      assert replies[j] in replies;
      n := SomeFirst(replies, seqNo, j);
    }
  }

  /** The Discard table holds the printed identifiers of exactly these keys. */
  ghost predicate Marks(d: map<string, bool>, keys: set<Key>) {
    && (forall k: Key :: IdSeqOf(k) in d <==> k in keys)
    && (forall s :: s in d ==> d[s])
  }

  class Consensus {
    const SvrId: uint32
    const C: Conf
    const Coin: nat -> bit
    const Ledger: RingLedger
    const Queue: PQueue
    var SvrSeq: int
    var Flips: nat
    var ConExecutorToNet: seq<Msg>
    var MsgHandlerToNet: seq<Msg>
    var NetToConExecutor: seq<Msg>
    var Discard: map<string, bool>
    var NullSlots: nat
    var NormalSlots: nat
    var UnmatchedSlots: nat
    var CurrConsecutiveNulls: nat
    var MaxConsecutiveNulls: nat
    var OlderThanTermMsg: nat
    ghost var DiscardKeys: set<Key>

    constructor (svrId: uint32, c: Conf, coin: nat -> bit, ledger: RingLedger)
      ensures SvrId == svrId && C == c && Coin == coin && Ledger == ledger
      ensures SvrSeq == -1 && fresh(Queue) && Requests() == Pending.Requests(multiset{}, {}) && DiscardOk()
      ensures ConExecutorToNet == MsgHandlerToNet == NetToConExecutor == []
    {
      SvrId, C, Coin, Ledger := svrId, c, coin, ledger;
      SvrSeq, Flips := -1, 0;
      ConExecutorToNet, MsgHandlerToNet, NetToConExecutor := [], [], [];
      Discard, DiscardKeys := map[], {};
      NullSlots, NormalSlots, UnmatchedSlots := 0, 0, 0;
      CurrConsecutiveNulls, MaxConsecutiveNulls, OlderThanTermMsg := 0, 0, 0;
      Queue := new PQueue();
    }

    ghost function P(seqNo: uint32): Params
      requires Ledger.LenBlockArray < 0x1_0000_0000
    {
      Params(C, Coin, seqNo, Ledger.LenBlockArray)
    }

    ghost predicate Shape() {
      && C.Valid() && SvrId < C.nServers
      && |Ledger.Slots| == LEN_LEDGER && 0 < Ledger.LenBlockArray < 0x1_0000_0000
    }

    function SlotFor(seqNo: nat): Slot
      requires Shape()
    {
      Ledger.Slots[SlotOf(seqNo)]
    }

    /** The slot is there, valid, and at the term of seqNo: PanicTermNotMatched does not panic. */
    ghost predicate Held(seqNo: nat)
      requires Shape()
      reads SlotFor(seqNo)
    {
      && SlotFor(seqNo).Valid() && SlotFor(seqNo).Term == TermOf(seqNo)
      && SlotFor(seqNo).LenBlockArray == Ledger.LenBlockArray
    }

    ghost predicate DiscardOk()
      reads this
    {
      Marks(Discard, DiscardKeys)
    }

    ghost function Requests(): Requests
      reads this, Queue
    {
      Pending.Requests(Queue.Contents(), DiscardKeys)
    }

    // -------------------------------------------------------------- messages

    method SendToNet(msg: Msg)
      modifies this`ConExecutorToNet
      ensures ConExecutorToNet == old(ConExecutorToNet) + [msg]
    {
      ConExecutorToNet := ConExecutorToNet + [msg];
    }

    method GenProposalMsg(seqNo: uint32) returns (msg: Msg)
      requires Shape() && Held(seqNo)
      ensures msg == ProposalMsg(P(seqNo), SlotFor(seqNo).V.myProposal)
    {
      var obj := SlotFor(seqNo).GetMyProposal();
      obj := obj.(svrSeq := seqNo);
      return Msg(PROPOSAL, 0, 0, Some(obj));
    }

    method GenBinConMsg(seqNo: uint32, pse: uint32, rod: uint32) returns (msg: Msg)
      requires Shape() && Held(seqNo) && InRound(P(seqNo), SlotFor(seqNo).V)
      requires pse == SlotFor(seqNo).V.phase && rod == SlotFor(seqNo).V.round
      ensures msg == BinConMsg(P(seqNo), SlotFor(seqNo).V)
    {
      var value := SlotFor(seqNo).GetMyBCMsgs(pse, rod);
      if rod == 1 {
        msg := Msg(STATE, pse, value, Some(EMPTY_OBJ.(svrSeq := seqNo)));
      } else {
        msg := Msg(VOTE, pse, value, Some(EMPTY_OBJ.(svrSeq := seqNo)));
      }
    }

    method GenDecMsgType1(seqNo: uint32) returns (msg: Msg)
      requires Shape() && Held(seqNo) && HasProposal(HeardAt(SlotFor(seqNo).V, 0))
      modifies SlotFor(seqNo)`RecvProposals
      ensures Held(seqNo) && msg == DecisionMsg(P(seqNo), MajV(HeardAt(SlotFor(seqNo).V, 0)))
    {
      var obj := SlotFor(seqNo).RecvProposalsMajV();
      obj := obj.(svrSeq := seqNo);
      return Msg(DECISION, 0, 0, Some(obj));
    }

    method GenDecMsgType2(seqNo: uint32, obj: ConsensusObj) returns (msg: Msg)
      requires Shape()
      ensures msg == DecisionMsg(P(seqNo), obj)
    {
      return Msg(DECISION, 0, 0, Some(obj.(svrSeq := seqNo)));
    }

    method GenProposalReply(seqNo: uint32, dst: uint32) returns (msg: Msg)
      requires Shape() && Held(seqNo) && HasProposal(HeardAt(SlotFor(seqNo).V, 0))
      modifies SlotFor(seqNo)`RecvProposals
      ensures Held(seqNo)
      ensures msg == Msg(PROPOSAL_REPLY, dst, seqNo, Some(MajV(HeardAt(SlotFor(seqNo).V, 0)).(svrSeq := seqNo)))
    {
      var obj := SlotFor(seqNo).RecvProposalsMajV();
      obj := obj.(svrSeq := seqNo);
      return Msg(PROPOSAL_REPLY, dst, seqNo, Some(obj));
    }

    // -------------------------------------------------------------- the executor, round by round

    method Phase0Round1BeforeWait(seqNo: uint32)
      requires Shape() && Held(seqNo)
      modifies this`ConExecutorToNet
      ensures ConExecutorToNet == old(ConExecutorToNet) + [ProposalMsg(P(seqNo), SlotFor(seqNo).V.myProposal)]
    {
      var msg := GenProposalMsg(seqNo);
      SendToNet(msg);
    }

    method Phase0Round1AfterWait(seqNo: uint32) returns (o: Outcome)
      requires Shape() && Held(seqNo) && SlotFor(seqNo).V.phase == 0 && SlotFor(seqNo).V.round == 1
      requires HasProposal(HeardAt(SlotFor(seqNo).V, 0))
      modifies this`ConExecutorToNet, SlotFor(seqNo)
      ensures Held(seqNo)
      ensures IsAfterWait(P(seqNo), SvrId, old(SlotFor(seqNo).V), Flips, SlotFor(seqNo).V, Flips,
                          o, old(ConExecutorToNet), ConExecutorToNet)
    {
      hide IsAfterWait, Slot.Counters, Tallies, MajT, MajV, HasProposal, Count, AfterWait, SlotOf, TermOf;
      AfterProposals(P(seqNo), SvrId, SlotFor(seqNo).V, Flips, ConExecutorToNet);
      var s := SlotFor(seqNo);
      var t := s.RecvProposalsMajT();
      if t >= C.MajorityPlusF() {
        var msg := GenDecMsgType1(seqNo);
        SendToNet(msg);
        var dec := s.RecvProposalsMajV();
        s.NextRound();
        o := Return(dec);
      } else {
        if t >= C.Majority() {
          s.SetMyBCMsgs(0, 2, 1);
        } else {
          s.SetMyBCMsgs(0, 2, 2);
        }
        s.NextRound();
        o := Continue;
      }
    }

    method Phase0Round2BeforeWait(seqNo: uint32)
      requires Shape() && Held(seqNo) && SlotFor(seqNo).V.phase == 0 && SlotFor(seqNo).V.round == 2
      modifies this`ConExecutorToNet
      ensures ConExecutorToNet == old(ConExecutorToNet) + [BinConMsg(P(seqNo), SlotFor(seqNo).V)]
    {
      var msg := GenBinConMsg(seqNo, 0, 2);
      SendToNet(msg);
    }

    /** Decides as RoundVerdict says: sends the Decision, or the request for the object. */
    method DecideRound(seqNo: uint32, pse: uint32, rod: uint32) returns (o: Outcome)
      requires Shape() && Held(seqNo) && pse < Ledger.LenBlockArray
      requires 1 <= rod <= 2 && rod == SlotFor(seqNo).V.round && pse == SlotFor(seqNo).V.phase
      requires HasProposal(HeardAt(SlotFor(seqNo).V, 0))
      modifies this`ConExecutorToNet, SlotFor(seqNo)
      ensures Held(seqNo)
      ensures var v := old(SlotFor(seqNo).V);
        match ReturnValue(P(seqNo), v, BitMajV(HeardAt(v, RoundIndex(pse, rod))))
        case Some(dec) =>
          && o == Return(dec) && SlotFor(seqNo).V == v.(round := v.round + 1)
          && ConExecutorToNet == old(ConExecutorToNet) + [DecisionMsg(P(seqNo), dec)]
        case None =>
          && o == Requested && SlotFor(seqNo).V == v
          && ConExecutorToNet == old(ConExecutorToNet) + [Msg(PROPOSAL_REQUEST, SvrId, seqNo, None)]
    {
      var found := FindReturnValue(seqNo, pse, rod);
      match found
      case None => o := Requested;
      case Some(m) =>
        var msg := GenDecMsgType2(seqNo, m);
        SendToNet(msg);
        SlotFor(seqNo).NextRound();
        o := Return(m);
    }

    method Phase0Round2AfterWait(seqNo: uint32) returns (o: Outcome)
      requires Shape() && Held(seqNo) && SlotFor(seqNo).V.phase == 0 && SlotFor(seqNo).V.round == 2
      requires HasProposal(HeardAt(SlotFor(seqNo).V, 0))
      modifies this`ConExecutorToNet, SlotFor(seqNo)
      ensures Held(seqNo)
      ensures IsAfterWait(P(seqNo), SvrId, old(SlotFor(seqNo).V), Flips, SlotFor(seqNo).V, Flips,
                          o, old(ConExecutorToNet), ConExecutorToNet)
    {
      hide IsAfterWait, Slot.Counters, Tallies, Count, AfterWait, RoundVerdict, BitMajV, BitMajT,
        HasProposal, MajT, MajV, ReturnValue, SlotOf, TermOf;
      AfterVotes(P(seqNo), SvrId, SlotFor(seqNo).V, Flips, ConExecutorToNet);
      var s := SlotFor(seqNo);
      var t := s.RecvBCMsgsMajT(0, 2);
      if t >= C.FaultyPlusOne() {
        o := DecideRound(seqNo, 0, 2);
      } else if 1 >= Ledger.LenBlockArray {
        o := OutOfRange;
      } else {
        if t >= 1 {
          var x := s.RecvBCMsgsMajV(0, 2);
          s.SetMyBCMsgs(1, 1, x);
        } else {
          s.SetMyBCMsgs(1, 1, 0);
        }
        s.IncrPhaseDecrRound();
        o := Continue;
      }
    }

    method PhaseNRound1BeforeWait(seqNo: uint32)
      requires Shape() && Held(seqNo) && InRound(P(seqNo), SlotFor(seqNo).V) && SlotFor(seqNo).V.round == 1
      modifies this`ConExecutorToNet
      ensures ConExecutorToNet == old(ConExecutorToNet) + [BinConMsg(P(seqNo), SlotFor(seqNo).V)]
    {
      var pse := SlotFor(seqNo).Phase;
      var msg := GenBinConMsg(seqNo, pse, 1);
      SendToNet(msg);
    }

    method PhaseNRound1AfterWait(seqNo: uint32) returns (o: Outcome)
      requires Shape() && Held(seqNo) && InRound(P(seqNo), SlotFor(seqNo).V)
      requires SlotFor(seqNo).V.phase > 0 && SlotFor(seqNo).V.round == 1
      requires HasProposal(HeardAt(SlotFor(seqNo).V, 0))
      modifies this`ConExecutorToNet, SlotFor(seqNo)
      ensures Held(seqNo)
      ensures IsAfterWait(P(seqNo), SvrId, old(SlotFor(seqNo).V), Flips, SlotFor(seqNo).V, Flips,
                          o, old(ConExecutorToNet), ConExecutorToNet)
    {
      hide IsAfterWait, Slot.Counters, Tallies, Count, AfterWait, RoundVerdict, BitMajV, BitMajT,
        HasProposal, MajT, MajV, ReturnValue, SlotOf, TermOf;
      AfterStates(P(seqNo), SvrId, SlotFor(seqNo).V, Flips, ConExecutorToNet);
      var s := SlotFor(seqNo);
      var pse := s.Phase;
      var t := s.RecvBCMsgsMajT(pse, 1);
      if t >= C.MajorityPlusF() {
        o := DecideRound(seqNo, pse, 1);
      } else {
        if t >= C.Majority() {
          var x := s.RecvBCMsgsMajV(pse, 1);
          s.SetMyBCMsgs(pse, 2, x);
        } else {
          s.SetMyBCMsgs(pse, 2, 2);
        }
        s.NextRound();
        o := Continue;
      }
    }

    method PhaseNRound2BeforeWait(seqNo: uint32)
      requires Shape() && Held(seqNo) && InRound(P(seqNo), SlotFor(seqNo).V) && SlotFor(seqNo).V.round == 2
      modifies this`ConExecutorToNet
      ensures ConExecutorToNet == old(ConExecutorToNet) + [BinConMsg(P(seqNo), SlotFor(seqNo).V)]
    {
      var pse := SlotFor(seqNo).Phase;
      var msg := GenBinConMsg(seqNo, pse, 2);
      SendToNet(msg);
    }

    method PhaseNRound2AfterWait(seqNo: uint32) returns (o: Outcome)
      requires Shape() && Held(seqNo) && InRound(P(seqNo), SlotFor(seqNo).V)
      requires SlotFor(seqNo).V.phase > 0 && SlotFor(seqNo).V.round == 2
      requires HasProposal(HeardAt(SlotFor(seqNo).V, 0))
      modifies this`ConExecutorToNet, this`Flips, SlotFor(seqNo)
      ensures Held(seqNo)
      ensures IsAfterWait(P(seqNo), SvrId, old(SlotFor(seqNo).V), old(Flips), SlotFor(seqNo).V, Flips,
                          o, old(ConExecutorToNet), ConExecutorToNet)
    {
      hide IsAfterWait, Slot.Counters, Tallies, Count, AfterWait, RoundVerdict, BitMajV, BitMajT,
        HasProposal, MajT, MajV, ReturnValue, SlotOf, TermOf;
      AfterVotes(P(seqNo), SvrId, SlotFor(seqNo).V, Flips, ConExecutorToNet);
      var s := SlotFor(seqNo);
      var pse := s.Phase;
      var randBit := CommonCoinFlip();
      var t := s.RecvBCMsgsMajT(pse, 2);
      if t >= C.FaultyPlusOne() {
        o := DecideRound(seqNo, pse, 2);
      } else if pse + 1 >= Ledger.LenBlockArray {
        o := OutOfRange;
      } else {
        if t >= 1 {
          var x := s.RecvBCMsgsMajV(pse, 2);
          s.SetMyBCMsgs(pse + 1, 1, x);
        } else {
          s.SetMyBCMsgs(pse + 1, 1, randBit);
        }
        s.IncrPhaseDecrRound();
        o := Continue;
      }
    }

    method CommonCoinFlip() returns (b: bit)
      modifies this`Flips
      ensures b == Coin(old(Flips)) && Flips == old(Flips) + 1
    {
      b := Coin(Flips);
      Flips := Flips + 1;
    }

    method ResetCommonCoin()
      modifies this`Flips
      ensures Flips == 0
    {
      Flips := 0;
    }

    /** None: the request was sent, and the reply is still to come. */
    method FindReturnValue(seqNo: uint32, pse: uint32, rod: uint32) returns (found: Option<ConsensusObj>)
      requires Shape() && Held(seqNo) && pse < Ledger.LenBlockArray && 1 <= rod <= 2
      requires HasProposal(HeardAt(SlotFor(seqNo).V, 0))
      modifies this`ConExecutorToNet, SlotFor(seqNo)`RecvProposals
      ensures Held(seqNo)
      ensures found == ReturnValue(P(seqNo), SlotFor(seqNo).V, BitMajV(HeardAt(SlotFor(seqNo).V, RoundIndex(pse, rod))))
      ensures ConExecutorToNet == old(ConExecutorToNet) +
        (if found.None? then [Msg(PROPOSAL_REQUEST, SvrId, seqNo, None)] else [])
    {
      var s := SlotFor(seqNo);
      var b := s.RecvBCMsgsMajV(pse, rod);
      if b == 1 {
        var t := s.RecvProposalsMajT();
        if t >= C.Majority() {
          var obj := s.RecvProposalsMajV();
          found := Some(obj.(svrSeq := seqNo));
        } else {
          SendToNet(Msg(PROPOSAL_REQUEST, SvrId, seqNo, None));
          found := None;
        }
      } else {
        found := Some(EMPTY_OBJ.(isNull := true, svrSeq := seqNo));
      }
    }

    /** The waiting half of requestProposalAndWait, on the replies that arrived so far: the first reply
        for this slot is taken, and what follows it stays. Not ok: the reply has no object, and the
        server panics. */
    method AwaitReply(seqNo: uint32) returns (obj: Option<ConsensusObj>, ok: bool)
      requires forall m :: m in NetToConExecutor ==> m.typ == PROPOSAL_REPLY
      modifies this`NetToConExecutor
      ensures var n := SkipStale(old(NetToConExecutor), seqNo);
        if n < |old(NetToConExecutor)| then
          && obj == old(NetToConExecutor)[n].obj && (ok <==> obj.Some?)
          && NetToConExecutor == old(NetToConExecutor)[n + 1..]
        else obj == None && ok && NetToConExecutor == []
      ensures forall n: nat :: IsFirstFor(old(NetToConExecutor), seqNo, n) ==>
        obj == old(NetToConExecutor)[n].obj && NetToConExecutor == old(NetToConExecutor)[n + 1..]
      ensures (forall m :: m in old(NetToConExecutor) ==> m.value < seqNo) ==>
        obj == None && ok && NetToConExecutor == []
    {
      AwaitFacts(NetToConExecutor, seqNo);
      ghost var n := SkipStale(NetToConExecutor, seqNo);
      ghost var k := 0;
      while |NetToConExecutor| > 0
        invariant k <= |old(NetToConExecutor)| && NetToConExecutor == old(NetToConExecutor)[k..]
        invariant k + SkipStale(NetToConExecutor, seqNo) == n
        decreases |NetToConExecutor|
      {
        var msg := NetToConExecutor[0];
        NetToConExecutor := NetToConExecutor[1..];
        if msg.value < seqNo {
          k := k + 1;
          continue;
        }
        return msg.obj, msg.obj.Some?;
      }
      return None, true;
    }

    lemma AwaitFacts(replies: seq<Msg>, seqNo: uint32)
      ensures SkipStale(replies, seqNo) <= |replies|
      ensures forall n: nat :: IsFirstFor(replies, seqNo, n) ==> SkipStale(replies, seqNo) == n
      ensures (forall m :: m in replies ==> m.value < seqNo) ==> SkipStale(replies, seqNo) == |replies|
    {
      SkipsOnlyStale(replies, seqNo);
      forall n: nat | IsFirstFor(replies, seqNo, n)
        ensures SkipStale(replies, seqNo) == n
      {
        FirstReply(replies, seqNo, n);
      }
    }

    // -------------------------------------------------------------- waiting and concluding

    /** Takes messages from the slot's queue until the executor may go on, or the slot is decided,
        or the queue is empty. */
    method WaitInSlot(seqNo: uint32) returns (r: Waited)
      requires Shape() && Held(seqNo) && DiscardOk()
      requires forall m :: m in SlotFor(seqNo).V.queue && m.typ == DECISION ==> m.obj.Some?
      modifies this`Discard, this`DiscardKeys, this`NullSlots, this`NormalSlots, this`UnmatchedSlots
      modifies this`CurrConsecutiveNulls, this`MaxConsecutiveNulls, Queue, SlotFor(seqNo)
      ensures Held(seqNo) && DiscardOk()
      ensures var nd := WaitNode(Node(old(SlotFor(seqNo).V), Waiting, Flips));
        && r == WaitedOf(nd) && SlotFor(seqNo).V == Settled(nd)
        && Requests() == SettledRequests(old(Requests()), nd)
    {
      hide Slot.Counters, Tallies, SlotOf, TermOf, WaitNode, PopNode, AfterEpilogue, Marks;
      var s := SlotFor(seqNo);
      ghost var start := Node(s.V, Waiting, Flips);
      while |s.Queue| > 0
        invariant Held(seqNo) && DiscardOk() && Requests() == old(Requests())
        invariant WaitNode(Node(s.V, Waiting, Flips)) == WaitNode(start)
        invariant forall m :: m in s.V.queue && m.typ == DECISION ==> m.obj.Some?
        decreases |s.Queue|
      {
        WaitStep(s.V, Flips);
        var msg := s.Receive();
        if IsRoundMsg(msg) {
          if s.HasRecvDec {
            continue;
          }
          if msg.phase != s.Phase {
            return Panics(1);
          }
          if s.Round == 1 && s.Phase == 0 && msg.typ != PROPOSAL {
            return Panics(2);
          } else if s.Round == 1 && s.Phase != 0 && msg.typ != STATE {
            return Panics(3);
          } else if s.Round == 2 && msg.typ != VOTE {
            return Panics(4);
          }
          return Proceeds;
        } else if msg.typ == DECISION {
          if s.IsDone {
            return Panics(5);
          }
          Epilogue(seqNo, msg.obj.value);
          return Decides;
        }
      }
      WaitNothing(s.V, Flips);
      return Blocked;
    }

    /** Records the decision, puts my proposal back unless it is what was decided, and marks a
        decided object of somebody else for removal. */
    method Epilogue(seqNo: uint32, dec: ConsensusObj)
      requires Shape() && Held(seqNo) && DiscardOk()
      modifies this`Discard, this`DiscardKeys, this`NullSlots, this`NormalSlots, this`UnmatchedSlots
      modifies this`CurrConsecutiveNulls, this`MaxConsecutiveNulls, Queue, SlotFor(seqNo)
      ensures Held(seqNo) && DiscardOk()
      ensures SlotFor(seqNo).V == old(SlotFor(seqNo).V).(decision := dec, isDone := true)
      ensures Requests() == AfterEpilogue(old(Requests()), old(SlotFor(seqNo).V.myProposal), dec)
      ensures var mine := old(SlotFor(seqNo).V.myProposal);
        && NullSlots == old(NullSlots) + (if dec.isNull then 1 else 0)
        && NormalSlots == old(NormalSlots) + (if !dec.isNull && KeyOf(dec) == KeyOf(mine) then 1 else 0)
        && UnmatchedSlots == old(UnmatchedSlots) + (if !dec.isNull && KeyOf(dec) != KeyOf(mine) then 1 else 0)
        && CurrConsecutiveNulls == (if dec.isNull then old(CurrConsecutiveNulls) + 1 else 0)
    {
      hide Slot.Valid, Marks, AfterEpilogue, PQueue.Contents, SlotOf, TermOf;
      SlotFor(seqNo).SetDecision(dec);
      RecordOutcome(seqNo, dec);
    }

    method RecordOutcome(seqNo: uint32, dec: ConsensusObj)
      requires Shape() && Held(seqNo) && DiscardOk()
      modifies this`Discard, this`DiscardKeys, this`NullSlots, this`NormalSlots, this`UnmatchedSlots
      modifies this`CurrConsecutiveNulls, this`MaxConsecutiveNulls, Queue
      ensures DiscardOk() && Requests() == AfterEpilogue(old(Requests()), SlotFor(seqNo).V.myProposal, dec)
      ensures var mine := SlotFor(seqNo).V.myProposal;
        && NullSlots == old(NullSlots) + (if dec.isNull then 1 else 0)
        && NormalSlots == old(NormalSlots) + (if !dec.isNull && KeyOf(dec) == KeyOf(mine) then 1 else 0)
        && UnmatchedSlots == old(UnmatchedSlots) + (if !dec.isNull && KeyOf(dec) != KeyOf(mine) then 1 else 0)
        && CurrConsecutiveNulls == (if dec.isNull then old(CurrConsecutiveNulls) + 1 else 0)
    {
      hide Slot.Valid, Marks, PQueue.Contents, SlotOf, TermOf;
      if dec.isNull {
        CountNull();
        PutBackMyProposal(seqNo);
      } else {
        EndNulls();
        var mine := SlotFor(seqNo).GetMyProposal();
        if !ProxySeqIdEqual(dec, mine) {
          UnmatchedSlots := UnmatchedSlots + 1;
          PutBackMyProposal(seqNo);
          Mark(dec);
        } else {
          NormalSlots := NormalSlots + 1;
        }
      }
    }

    method CountNull()
      modifies this`NullSlots, this`CurrConsecutiveNulls
      ensures NullSlots == old(NullSlots) + 1 && CurrConsecutiveNulls == old(CurrConsecutiveNulls) + 1
    {
      NullSlots := NullSlots + 1;
      CurrConsecutiveNulls := CurrConsecutiveNulls + 1;
    }

    method EndNulls()
      modifies this`CurrConsecutiveNulls, this`MaxConsecutiveNulls
      ensures CurrConsecutiveNulls == 0
      ensures old(CurrConsecutiveNulls) <= MaxConsecutiveNulls && old(MaxConsecutiveNulls) <= MaxConsecutiveNulls
      ensures MaxConsecutiveNulls == old(CurrConsecutiveNulls) || MaxConsecutiveNulls == old(MaxConsecutiveNulls)
    {
      if CurrConsecutiveNulls > MaxConsecutiveNulls {
        MaxConsecutiveNulls := CurrConsecutiveNulls;
      }
      CurrConsecutiveNulls := 0;
    }

    method Mark(dec: ConsensusObj)
      requires DiscardOk()
      modifies this`Discard, this`DiscardKeys
      ensures DiscardOk() && DiscardKeys == old(DiscardKeys) + {KeyOf(dec)}
    {
      MarkKey(Discard, DiscardKeys, KeyOf(dec));
      Discard := Discard[GetIdSeq(dec) := true];
      DiscardKeys := DiscardKeys + {KeyOf(dec)};
    }

    method Unmark(obj: ConsensusObj)
      requires DiscardOk()
      modifies this`Discard, this`DiscardKeys
      ensures DiscardOk() && DiscardKeys == old(DiscardKeys) - {KeyOf(obj)}
    {
      MarkKey(Discard, DiscardKeys, KeyOf(obj));
      Discard := Discard - {GetIdSeq(obj)};
      DiscardKeys := DiscardKeys - {KeyOf(obj)};
    }

    method PutBackMyProposal(seqNo: uint32)
      requires Shape() && Held(seqNo)
      modifies Queue
      ensures Queue.Contents() == old(Queue.Contents()) + multiset{SlotFor(seqNo).V.myProposal}
    {
      var obj := SlotFor(seqNo).GetMyProposal();
      Queue.Push(obj);
    }

    // -------------------------------------------------------------- the executor and the handler, on the ring

    /** The executor's SvrSeq is the last logical slot started. */
    ghost predicate Valid()
      reads this, Ledger, Ledger.Slots
    {
      Shape() && Ledger.Valid() && DiscardOk() && -1 <= SvrSeq == Ledger.Started
    }

    method BeforeWait(seqNo: uint32)
      requires Shape() && Held(seqNo) && InRound(P(seqNo), SlotFor(seqNo).V)
      requires SlotFor(seqNo).V.phase > 0 || SlotFor(seqNo).V.round == 2
      modifies this`ConExecutorToNet
      ensures ConExecutorToNet == old(ConExecutorToNet) + [BinConMsg(P(seqNo), SlotFor(seqNo).V)]
    {
      hide Slot.Counters, Tallies, SlotOf, TermOf;
      var s := SlotFor(seqNo);
      if s.Phase == 0 {
        Phase0Round2BeforeWait(seqNo);
      } else if s.Round == 1 {
        PhaseNRound1BeforeWait(seqNo);
      } else {
        PhaseNRound2BeforeWait(seqNo);
      }
    }

    /** One turn of the executor's main loop after wait returned true: AfterWait of the round the
        slot is in, and then the epilogue or BeforeWait of the next round. */
    method RoundInSlot(seqNo: uint32) returns (o: Outcome)
      requires Shape() && Held(seqNo) && DiscardOk() && InRound(P(seqNo), SlotFor(seqNo).V)
      requires HasProposal(HeardAt(SlotFor(seqNo).V, 0))
      modifies this`Discard, this`DiscardKeys, this`NullSlots, this`NormalSlots, this`UnmatchedSlots
      modifies this`CurrConsecutiveNulls, this`MaxConsecutiveNulls, Queue, SlotFor(seqNo)
      modifies this`ConExecutorToNet, this`Flips
      ensures Held(seqNo) && DiscardOk()
      ensures var (nd, out) := AfterWait(P(seqNo), SvrId, Node(old(SlotFor(seqNo).V), Ready, old(Flips)));
        && SlotFor(seqNo).V == Settled(nd) && Requests() == SettledRequests(old(Requests()), nd)
        && Flips == nd.flips && ConExecutorToNet == old(ConExecutorToNet) + out
    {
      hide Slot.Counters, Tallies, AfterWait, HasProposal, Count, Marks, SlotOf, TermOf;
      var s := SlotFor(seqNo);
      if s.Phase == 0 && s.Round == 1 {
        o := Phase0Round1AfterWait(seqNo);
      } else if s.Phase == 0 {
        o := Phase0Round2AfterWait(seqNo);
      } else if s.Round == 1 {
        o := PhaseNRound1AfterWait(seqNo);
      } else {
        o := PhaseNRound2AfterWait(seqNo);
      }
      AfterWaitSends(P(seqNo), SvrId, Node(old(s.V), Ready, old(Flips)));
      match o
      case Return(dec) => Epilogue(seqNo, dec);
      case Continue => BeforeWait(seqNo);
      case Requested =>
      case OutOfRange =>
    }

    method Round(seqNo: uint32) returns (o: Outcome)
      requires Valid() && seqNo == SvrSeq && !LogAt(Ledger.Log, seqNo).isDone
      requires InRound(P(seqNo), LogAt(Ledger.Log, seqNo)) && HasProposal(HeardAt(LogAt(Ledger.Log, seqNo), 0))
      modifies this, Queue, Ledger, SlotFor(seqNo)
      ensures Valid() && SvrSeq == old(SvrSeq)
      ensures var (nd, out) := AfterWait(P(seqNo), SvrId, Node(LogAt(old(Ledger.Log), seqNo), Ready, old(Flips)));
        && Ledger.Log == old(Ledger.Log)[seqNo := Settled(nd)]
        && Requests() == SettledRequests(old(Requests()), nd)
        && Flips == nd.flips && ConExecutorToNet == old(ConExecutorToNet) + out
    {
      hide Slot.Valid, AfterWait, HasProposal, Represents, Marks, SlotOf, TermOf;
      Ledger.UndecidedSlotIsHeld(seqNo);
      o := RoundInSlot(seqNo);
      Ledger.Sync(seqNo);
    }

    /** wait, for the slot being decided. */
    method Wait(seqNo: uint32) returns (r: Waited)
      requires Valid() && seqNo == SvrSeq && !LogAt(Ledger.Log, seqNo).isDone
      requires forall m :: m in LogAt(Ledger.Log, seqNo).queue && m.typ == DECISION ==> m.obj.Some?
      modifies this, Queue, Ledger, SlotFor(seqNo)
      ensures Valid() && SvrSeq == old(SvrSeq) && ConExecutorToNet == old(ConExecutorToNet) && Flips == old(Flips)
      ensures var nd := WaitNode(Node(LogAt(old(Ledger.Log), seqNo), Waiting, Flips));
        && r == WaitedOf(nd) && Ledger.Log == old(Ledger.Log)[seqNo := Settled(nd)]
        && Requests() == SettledRequests(old(Requests()), nd)
    {
      hide Slot.Valid, WaitNode, Represents, Marks, SlotOf, TermOf;
      Ledger.UndecidedSlotIsHeld(seqNo);
      r := WaitInSlot(seqNo);
      Ledger.Sync(seqNo);
    }

    /** What the AfterWait function and its caller do with a requested object. */
    method ConcludeWith(seqNo: uint32, obj: ConsensusObj)
      requires Shape() && Held(seqNo) && DiscardOk() && SlotFor(seqNo).V.round < 0xFFFF_FFFF
      modifies this`Discard, this`DiscardKeys, this`NullSlots, this`NormalSlots, this`UnmatchedSlots
      modifies this`CurrConsecutiveNulls, this`MaxConsecutiveNulls, Queue, SlotFor(seqNo)
      modifies this`ConExecutorToNet
      ensures Held(seqNo) && DiscardOk()
      ensures var v := old(SlotFor(seqNo).V);
        var nd := Node(v.(round := v.round + 1), Deciding(obj), Flips);
        SlotFor(seqNo).V == Settled(nd) && Requests() == SettledRequests(old(Requests()), nd)
      ensures ConExecutorToNet == old(ConExecutorToNet) + [DecisionMsg(P(seqNo), obj)]
    {
      hide Slot.Valid, Marks, AfterEpilogue, SlotOf, TermOf;
      var msg := GenDecMsgType2(seqNo, obj);
      SendToNet(msg);
      SlotFor(seqNo).NextRound();
      Epilogue(seqNo, obj);
    }

    /** The rest of requestProposalAndWait, and of the AfterWait function that asked. */
    method Adopt(seqNo: uint32) returns (adopted: bool, ok: bool)
      requires Valid() && seqNo == SvrSeq && !LogAt(Ledger.Log, seqNo).isDone
      requires LogAt(Ledger.Log, seqNo).round < 0xFFFF_FFFF
      requires forall m :: m in NetToConExecutor ==> m.typ == PROPOSAL_REPLY
      modifies this, Queue, Ledger, SlotFor(seqNo)
      ensures Valid() && SvrSeq == old(SvrSeq) && Flips == old(Flips)
      ensures var n := SkipStale(old(NetToConExecutor), seqNo);
        && (ok <==> n < |old(NetToConExecutor)| ==> old(NetToConExecutor)[n].obj.Some?)
        && (adopted <==> ok && n < |old(NetToConExecutor)|)
      ensures adopted ==>
        var obj := old(NetToConExecutor)[SkipStale(old(NetToConExecutor), seqNo)].obj.value;
        var v := LogAt(old(Ledger.Log), seqNo);
        var nd := Node(v.(round := v.round + 1), Deciding(obj), Flips);
        && Ledger.Log == old(Ledger.Log)[seqNo := Settled(nd)]
        && Requests() == SettledRequests(old(Requests()), nd)
        && ConExecutorToNet == old(ConExecutorToNet) + [DecisionMsg(P(seqNo), obj)]
      ensures !adopted ==> Ledger.Log == old(Ledger.Log) && Requests() == old(Requests())
      ensures !adopted ==> ConExecutorToNet == old(ConExecutorToNet)
      ensures forall n: nat :: IsFirstFor(old(NetToConExecutor), seqNo, n) && old(NetToConExecutor)[n].obj.Some? ==>
        && adopted && LogAt(Ledger.Log, seqNo).isDone
        && LogAt(Ledger.Log, seqNo).decision == old(NetToConExecutor)[n].obj.value
    {
      hide Slot.Valid, Represents, Marks, SkipStale, SlotOf, TermOf, IsFirstFor;
      AwaitFacts(NetToConExecutor, seqNo);
      Ledger.UndecidedSlotIsHeld(seqNo);
      var reply, there := AwaitReply(seqNo);
      if reply.None? {
        return false, there;
      }
      ConcludeWith(seqNo, reply.value);
      Ledger.Sync(seqNo);
      return true, true;
    }

    /** Takes the least pending request. A marked one is dropped; any other one becomes my proposal
        for the next slot, whose position in the ring is recycled if it is a term behind. Within the
        window that starts the next logical slot; beyond it an unread slot is lost. */
    method GetRequest() returns (proceed: bool, obj: Option<ConsensusObj>)
      requires Valid() && SvrSeq + 1 < 0x1_0000_0000
      modifies this, Queue, Ledger, SlotFor(SvrSeq + 1)
      ensures Valid() <==> !proceed || SvrSeq < Ledger.Consumed + LEN_LEDGER
      ensures obj.None? <==> old(Queue.Contents()) == multiset{}
      ensures obj.None? ==> Requests() == old(Requests()) && !proceed
      ensures obj.Some? ==>
        && IsLeast(old(Queue.Contents()), obj.value) && Requests() == Popped(old(Requests()), obj.value)
        && (proceed <==> KeyOf(obj.value) !in old(Requests()).discard)
      ensures proceed ==> SvrSeq == old(SvrSeq) + 1 && Flips == 0
      ensures proceed && Valid() ==>
        Ledger.Log == old(Ledger.Log)[SvrSeq := LogAt(old(Ledger.Log), SvrSeq).(myProposal := obj.value, round := 1)]
      ensures proceed && !Valid() ==> SlotFor(SvrSeq).V == FRESH.(myProposal := obj.value, round := 1)
      ensures !proceed ==> SvrSeq == old(SvrSeq) && Ledger.Log == old(Ledger.Log)
    {
      hide Slot.Valid, Represents, Marks, SlotOf, TermOf, IsLeast, Popped, LogAt, PQueue.Contents, Slot.Counters;
      var x, skip := TakeRequest();
      if x.None? || skip {
        return false, x;
      }
      StartSlot(x.value);
      return true, x;
    }

    /** Takes the least request, if there is one: to be skipped when it is marked. */
    method TakeRequest() returns (obj: Option<ConsensusObj>, skip: bool)
      requires Valid()
      modifies this`Discard, this`DiscardKeys, Queue
      ensures Valid()
      ensures obj.None? <==> old(Queue.Contents()) == multiset{}
      ensures obj.None? ==> Requests() == old(Requests())
      ensures obj.Some? ==>
        && IsLeast(old(Queue.Contents()), obj.value) && Requests() == Popped(old(Requests()), obj.value)
        && (skip <==> KeyOf(obj.value) in old(Requests()).discard)
    {
      hide Slot.Valid, Slot.Counters, Represents, Marks, Itoa, SlotOf, TermOf, IsLeast, KeyLess;
      var x, ok := Queue.Pop();
      if !ok {
        return None, false;
      }
      MarkedIffListed(Discard, DiscardKeys, x);
      if GetIdSeq(x) in Discard && Discard[GetIdSeq(x)] {
        Unmark(x);
        return Some(x), true;
      }
      return Some(x), false;
    }

    /** The panic that UpdateTermIfNecessary is asked for does not happen. */
    method StartSlot(x: ConsensusObj)
      requires Valid() && SvrSeq + 1 < 0x1_0000_0000
      modifies this`SvrSeq, this`Flips, Ledger, SlotFor(SvrSeq + 1)
      ensures SvrSeq == old(SvrSeq) + 1 && Flips == 0 && Ledger.Consumed == old(Ledger.Consumed)
      ensures Valid() <==> SvrSeq < Ledger.Consumed + LEN_LEDGER
      ensures Valid() ==>
        Ledger.Log == old(Ledger.Log)[SvrSeq := LogAt(old(Ledger.Log), SvrSeq).(myProposal := x, round := 1)]
      ensures !Valid() ==> SlotFor(SvrSeq).V == FRESH.(myProposal := x, round := 1)
    {
      hide Slot.Valid, Represents, Marks, SlotOf, TermOf;
      SvrSeq := SvrSeq + 1;
      var matched, panicked := Ledger.UpdateTermIfNecessary(SvrSeq, true);
      assert !panicked;
      ghost var inWindow := SvrSeq < Ledger.Consumed + LEN_LEDGER;
      if inWindow {
        Ledger.NotConsumedYet();
        Ledger.ConsumedIsDone(SvrSeq);
      }
      SlotFor(SvrSeq).Start(x);
      ResetCommonCoin();
      if inWindow {
        Ledger.Sync(SvrSeq);
        Ledger.StartNext();
      }
    }

    /** binConMsgHandling once the slot is found: counts the message unless its round is full, and
        notifies the executor when the round becomes full or when the first Decision comes. Not ok:
        an index is out of range, and the server panics. */
    method HandleInSlot(seqNo: uint32, msg: Msg, ghost from: nat) returns (ok: bool)
      requires Shape() && Held(seqNo) && msg.obj.Some? && (IsRoundMsg(msg) || msg.typ == DECISION)
      modifies SlotFor(seqNo)
      ensures ok <==> !NoCounter(C, Ledger.LenBlockArray, old(SlotFor(seqNo).V), msg)
      ensures Held(seqNo)
      ensures SlotFor(seqNo).V == if ok then Handle(P(seqNo), old(SlotFor(seqNo).V), from, msg) else old(SlotFor(seqNo).V)
    {
      hide Slot.Counters, Tallies, Count, SlotOf, TermOf;
      var s := SlotFor(seqNo);
      if s.IsDone {
        return true;
      }
      if msg.typ == PROPOSAL {
        var enough := s.HasEnoughMsg(C, 0, 1);
        if enough {
          return true;
        }
        s.PutRecvProposals(msg.obj.value, from, msg);
        enough := s.HasEnoughMsg(C, 0, 1);
        if enough {
          s.Send(Msg(PROPOSAL, 0, seqNo, None));
        }
      } else if msg.typ == STATE || msg.typ == VOTE {
        var round := if msg.typ == STATE then 1 else 2;
        if msg.phase >= Ledger.LenBlockArray {
          return false;
        }
        var enough := s.HasEnoughMsg(C, msg.phase, round);
        if enough {
          return true;
        }
        if msg.value >= 3 {
          return false;
        }
        s.PutRecvBCMsgs(msg.phase, round, msg.value, from, msg);
        enough := s.HasEnoughMsg(C, msg.phase, round);
        if enough {
          s.Send(Msg(msg.typ, msg.phase, seqNo, None));
        }
      } else if !s.HasRecvDec {
        s.Send(msg);
        s.SetHasRecvDec();
      }
      return true;
    }

    /** What a message that names slot seqNo finds there: the slot of its term, or a new one. */
    ghost function Found(seqNo: uint32): SlotState
      requires Shape() && |Ledger.Terms| == LEN_LEDGER
      reads Ledger, SlotFor(seqNo)
    {
      if TermOf(seqNo) == Ledger.TermHeld(seqNo) + 1 then FRESH else SlotFor(seqNo).V
    }

    /** The term of the message is neither that of the position nor the next one. */
    ghost predicate Refused(seqNo: uint32)
      requires |Ledger.Terms| == LEN_LEDGER
      reads Ledger
    {
      TermOf(seqNo) != Ledger.TermHeld(seqNo) && TermOf(seqNo) != Ledger.TermHeld(seqNo) + 1
    }

    /** Within the window a message changes the logical slot it names, and only that one; one whose
        slot was recycled would not have changed it. Beyond the window it is lost, or an unread slot
        is. Not ok: the server panics, because there is no object to look at or no counter. */
    method BinConMsgHandling(msg: Msg, ghost from: nat) returns (ok: bool)
      requires Valid() && (IsRoundMsg(msg) || msg.typ == DECISION)
      modifies this`OlderThanTermMsg, Ledger, if msg.obj.Some? then {SlotFor(msg.obj.value.svrSeq)} else {}
      ensures Ledger.Consumed == old(Ledger.Consumed)
      ensures msg.obj.None? ==> !ok
      ensures OlderThanTermMsg == old(OlderThanTermMsg) +
        (if msg.obj.Some? && old(Refused(msg.obj.value.svrSeq)) then 1 else 0)
      ensures msg.obj.Some? ==> (ok <==>
        || old(Refused(msg.obj.value.svrSeq))
        || !NoCounter(C, Ledger.LenBlockArray, old(Found(msg.obj.value.svrSeq)), msg))
      ensures Valid() <==> msg.obj.None? || msg.obj.value.svrSeq < Ledger.Consumed + LEN_LEDGER
                           || old(Refused(msg.obj.value.svrSeq))
      ensures !ok && Valid() ==> Ledger.Log == old(Ledger.Log)
      ensures ok && old(Refused(msg.obj.value.svrSeq)) ==> Ledger.Log == old(Ledger.Log)
      ensures ok && msg.obj.value.svrSeq < Ledger.Consumed + LEN_LEDGER ==> var seqNo := msg.obj.value.svrSeq;
        forall s: nat :: LogAt(Ledger.Log, s) ==
          if s == seqNo then Handle(P(seqNo), LogAt(old(Ledger.Log), seqNo), from, msg) else LogAt(old(Ledger.Log), s)
    {
      hide Slot.Valid, Represents, Marks, SlotOf, TermOf, Handle, NoCounter;
      if msg.obj.None? {
        return false;
      }
      var seqNo := msg.obj.value.svrSeq;
      var matched, _ := Ledger.UpdateTermIfNecessary(seqNo, false);
      DoneIgnores(P(seqNo), LogAt(Ledger.Log, seqNo), from, msg);
      if seqNo < Ledger.Consumed + LEN_LEDGER { Ledger.ConsumedIsDone(seqNo); }
      if !matched {
        OlderThanTermMsg := OlderThanTermMsg + 1;
        return true;
      }
      ok := HandleInSlot(seqNo, msg, from);
      if seqNo < Ledger.Consumed + LEN_LEDGER {
        if ok {
          Ledger.Sync(seqNo);
        }
      }
    }

    method ReplyFromSlot(seqNo: uint32, dst: uint32)
      requires Shape() && Held(seqNo)
      requires Full(C, SlotFor(seqNo).V, 0) ==> HasProposal(HeardAt(SlotFor(seqNo).V, 0))
      modifies this`MsgHandlerToNet, SlotFor(seqNo)`RecvProposals
      ensures Held(seqNo)
      ensures match ReplyFor(P(seqNo), SlotFor(seqNo).V)
        case None => MsgHandlerToNet == old(MsgHandlerToNet)
        case Some(obj) => MsgHandlerToNet == old(MsgHandlerToNet) + [Msg(PROPOSAL_REPLY, dst, seqNo, Some(obj))]
    {
      hide Slot.Valid, Count, MajT, MajV, HasProposal, SlotOf, TermOf;
      var s := SlotFor(seqNo);
      var enough := s.HasEnoughMsg(C, 0, 1);
      if enough {
        var t := s.RecvProposalsMajT();
        if t >= C.Majority() {
          var reply := GenProposalReply(seqNo, dst);
          MsgHandlerToNet := MsgHandlerToNet + [reply];
        }
      }
    }

    /** What a ProposalRequest is answered. */
    ghost function ReplyTo(msg: Msg): seq<Msg>
      requires Shape()
      reads Ledger, SlotFor(msg.value)
    {
      match ReplyFor(P(msg.value), LogAt(Ledger.Log, msg.value))
      case None => []
      case Some(obj) =>
        if SlotFor(msg.value).Term == TermOf(msg.value) then [Msg(PROPOSAL_REPLY, msg.phase, msg.value, Some(obj))]
        else []
    }

    /** The reply to server dst's request for slot s is for s, goes to dst, and has an object that n/2 + 1
        of the proposals counted for s are for; and there is one when there is such an object and the
        position is at the slot. */
    lemma ReplyReaches(dst: uint32, s: uint32)
      requires Shape()
      ensures var replies := ReplyTo(Msg(PROPOSAL_REQUEST, dst, s, None));
        var h := HeardAt(LogAt(Ledger.Log, s), 0);
        && (forall m :: m in replies ==>
              && m.typ == PROPOSAL_REPLY && m.phase == dst && m.value == s && m.obj.Some?
              && m.obj.value.svrSeq == s && Count(h, OfKey(KeyOf(m.obj.value))) >= C.nServers / 2 + 1)
        && (|replies| == if SlotFor(s).Term == s / LEN_LEDGER && |h| >= C.nServers - C.nFaulty
                            && Proposed(h, C.nServers / 2 + 1) then 1 else 0)
    {
      hide ReplyFor, Proposed;
      ReplyExact(P(s), LogAt(Ledger.Log, s));
    }

    /** A ProposalRequest is answered when the proposals counted have a majority object, and the
        slot was not recycled. */
    method ProposalRequestHandling(msg: Msg)
      requires Valid()
      requires Full(C, LogAt(Ledger.Log, msg.value), 0) ==> HasProposal(HeardAt(LogAt(Ledger.Log, msg.value), 0))
      modifies this`MsgHandlerToNet, SlotFor(msg.value)`RecvProposals
      ensures Valid() && Ledger.Log == old(Ledger.Log)
      ensures MsgHandlerToNet == old(MsgHandlerToNet) + old(ReplyTo(msg))
      ensures SlotFor(msg.value).Term < TermOf(msg.value) ==> ReplyFor(P(msg.value), LogAt(Ledger.Log, msg.value)).None?
    {
      hide Slot.Valid, Represents, Marks, Count, MajT, MajV, HasProposal, ReplyFor, SlotOf, TermOf;
      var matched := Ledger.IsTermMatched(msg.value);
      Ledger.FutureIsFresh(msg.value);
      NoReplyWhenFresh(P(msg.value));
      if !matched {
        return;
      }
      ReplyFromSlot(msg.value, msg.phase);
    }

    /** The message is about a slot less than LenLedger ahead of the next one to be consumed. */
    ghost predicate InWindow(msg: Msg)
      reads Ledger
    {
      SlotNamed(msg).Some? ==> SlotNamed(msg).value < Ledger.Consumed + LEN_LEDGER
    }

    /** The slot that a message may touch. */
    function SlotsTouched(msg: Msg): set<Slot>
      requires Shape()
    {
      if SlotNamed(msg).Some? then {SlotFor(SlotNamed(msg).value)} else {}
    }

    /** What a message does to logical slot s. */
    ghost function Delivered(msg: Msg, from: nat, s: nat, v: SlotState): SlotState
      requires Ledger.LenBlockArray < 0x1_0000_0000
    {
      if (IsRoundMsg(msg) || msg.typ == DECISION) && msg.obj.Some? && s == msg.obj.value.svrSeq
      then Handle(P(msg.obj.value.svrSeq), v, from, msg)
      else v
    }

    /** One turn of the handler. It takes every message that Handled describes; of the others it
        cannot take those that lack their object, and those of a type it does not know. */
    method MsgHandler(msg: Msg, ghost from: nat) returns (ok: bool)
      requires Valid()
      requires msg.typ == PROPOSAL_REQUEST && Full(C, LogAt(Ledger.Log, msg.value), 0) ==>
        HasProposal(HeardAt(LogAt(Ledger.Log, msg.value), 0))
      modifies this`OlderThanTermMsg, this`MsgHandlerToNet, Queue, Ledger, SlotsTouched(msg)
      ensures Handled(Ledger.LenBlockArray, msg) ==> ok
      ensures msg.typ != PROPOSAL_REQUEST && msg.obj.None? ==> !ok
      ensures msg.typ == PROPOSAL_REPLY || msg.typ < CLIENT_REQUEST || msg.typ > DECISION ==> !ok
      ensures Requests() == if ok && msg.typ == CLIENT_REQUEST
        then old(Requests()).(queue := old(Queue.Contents()) + multiset{msg.obj.value}) else old(Requests())
      ensures MsgHandlerToNet == old(MsgHandlerToNet) + (if msg.typ == PROPOSAL_REQUEST then old(ReplyTo(msg)) else [])
      ensures InWindow(msg) ==> Valid()
      ensures ok && InWindow(msg) ==>
        forall s: nat :: LogAt(Ledger.Log, s) == Delivered(msg, from, s, LogAt(old(Ledger.Log), s))
    {
      hide Slot.Valid, Represents, Marks, SlotOf, TermOf, Handle, HasProposal, ReplyFor, ReplyTo, PQueue.Contents;
      if msg.typ == CLIENT_REQUEST {
        if msg.obj.None? {
          return false;
        }
        Queue.Push(msg.obj.value);
        return true;
      } else if msg.typ == PROPOSAL_REQUEST {
        ProposalRequestHandling(msg);
        return true;
      } else if msg.typ == PROPOSAL || msg.typ == STATE || msg.typ == VOTE || msg.typ == DECISION {
        ok := BinConMsgHandling(msg, from);
      } else {
        return false;
      }
    }
  }

  /** A State or Vote that has no counter in a slot that is still open. */
  predicate NoCounter(c: Conf, lenBlock: nat, v: SlotState, m: Msg) {
    && !v.isDone && (m.typ == STATE || m.typ == VOTE)
    && (m.phase >= lenBlock || (!Full(c, v, RoundOf(m)) && m.value >= 3))
  }

  lemma DoneIgnores(P: Params, v: SlotState, from: nat, m: Msg)
    ensures v.isDone ==> Handle(P, v, from, m) == v
    ensures Handle(P, v, from, m).isDone == v.isDone
  {
  }

  lemma NoReplyWhenFresh(P: Params)
    ensures P.Valid() ==> ReplyFor(P, FRESH).None?
  {
  }

  lemma MarkedIffListed(d: map<string, bool>, keys: set<Key>, obj: ConsensusObj)
    requires Marks(d, keys)
    ensures (GetIdSeq(obj) in d && d[GetIdSeq(obj)]) <==> KeyOf(obj) in keys
  {
    hide IdSeqOf;
  }

  lemma MarkKey(d: map<string, bool>, keys: set<Key>, k: Key)
    requires Marks(d, keys)
    ensures Marks(d[IdSeqOf(k) := true], keys + {k})
    ensures Marks(d - {IdSeqOf(k)}, keys - {k})
  {
    hide Itoa, IdSeqOf;
    forall a: Key
      ensures IdSeqOf(a) == IdSeqOf(k) <==> a == k
    {
      IdSeqInjective(a, k);
    }
  }
}
