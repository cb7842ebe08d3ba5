/** What one server knows about one slot, as a value, and what the message handler and the
    consensus executor do to it. The classes in Slot.dfy and Consensus.dfy are proved against
    these functions, and Cluster.dfy runs n servers made of them.

    Rounds are numbered 0, 1, 2, ... : round 0 collects proposals, round 2p+1 collects the votes
    of phase p, round 2p collects the states of phase p (p >= 1). */
module SlotSpec {
  import opened Messages
  import opened Quorums

  type bit = x: uint32 | x < 2

  /** The constants a slot is decided under. The coin is the sequence of bits that the seeded
      generator yields after a reset. */
  datatype Params = Params(c: Conf, coin: nat -> bit, seqNo: uint32, lenBlock: uint32) {
    predicate Valid() {
      c.Valid() && 0 < lenBlock
    }
  }

  function RoundIndex(phase: nat, round: nat): nat
    requires round == 1 || round == 2
  {
    2 * phase + round - 1
  }

  // ---------------------------------------------------------------- tallies

  /** What a counted message counts for: its proposal's key, or its binary value (2 is '?'). */
  datatype Label = OfKey(key: Key) | Bit(x: uint32)

  function LabelOf(m: Msg): Label {
    if m.typ == PROPOSAL && m.obj.Some? then OfKey(KeyOf(m.obj.value)) else Bit(m.value)
  }

  /** The messages counted for one round, each with the server it came from. */
  type Heard = seq<(nat, Msg)>

  function Count(h: Heard, l: Label): (n: nat)
    ensures n <= |h|
  {
    if |h| == 0 then 0
    else Count(h[..|h| - 1], l) + (if LabelOf(h[|h| - 1].1) == l then 1 else 0)
  }

  predicate Beats(h: Heard, a: Key, b: Key) {
    || Count(h, OfKey(a)) > Count(h, OfKey(b))
    || (Count(h, OfKey(a)) == Count(h, OfKey(b)) && KeyLess(a, b))
  }

  /** The key that comes first when the tallies are sorted. */
  ghost predicate IsMajorityKey(h: Heard, k: Key) {
    && Count(h, OfKey(k)) > 0
    && forall k' :: k' != k && Count(h, OfKey(k')) > 0 ==> Beats(h, k, k')
  }

  function BestKey(h: Heard, n: nat): Option<Key>
    requires n <= |h|
  {
    if n == 0 then None
    else
      var best := BestKey(h, n - 1);
      match LabelOf(h[n - 1].1)
      case Bit(_) => best
      case OfKey(k) => if best.None? || Beats(h, k, best.value) then Some(k) else best
  }

  predicate HasProposal(h: Heard) {
    BestKey(h, |h|).Some?
  }

  function MajKey(h: Heard): Key
    requires HasProposal(h)
  {
    BestKey(h, |h|).value
  }

  function MajT(h: Heard): nat
    requires HasProposal(h)
  {
    Count(h, OfKey(MajKey(h)))
  }

  /** The object first received under a key. */
  function FirstObj(h: Heard, k: Key): ConsensusObj
    requires Count(h, OfKey(k)) > 0
  {
    var front := h[..|h| - 1];
    if Count(front, OfKey(k)) > 0 then FirstObj(front, k) else h[|h| - 1].1.obj.value
  }

  function MajV(h: Heard): ConsensusObj
    requires HasProposal(h)
  {
    BestKeyIsMajority(h);
    FirstObj(h, MajKey(h))
  }

  function BitMajV(h: Heard): bit {
    if Count(h, Bit(0)) > Count(h, Bit(1)) then 0 else 1
  }

  function BitMajT(h: Heard): nat {
    if Count(h, Bit(0)) > Count(h, Bit(1)) then Count(h, Bit(0)) else Count(h, Bit(1))
  }

  // ---------------------------------------------------------------- a slot

  datatype SlotState = SlotState(
    isDone: bool, hasRecvDec: bool, decision: ConsensusObj,
    queue: seq<Msg>,              // from the handler to the executor
    phase: uint32, round: uint32,
    myProposal: ConsensusObj,
    mine: map<nat, uint32>,       // my state or vote, by round index
    heard: map<nat, Heard>)       // counted messages, by round index

  /** A slot after Reset. */
  const FRESH := SlotState(false, false, EMPTY_OBJ, [], 0, 0, EMPTY_OBJ, map[], map[])

  function HeardAt(v: SlotState, k: nat): Heard {
    if k in v.heard then v.heard[k] else []
  }

  function MineAt(v: SlotState, k: nat): uint32 {
    if k in v.mine then v.mine[k] else 0
  }

  /** HasEnoughMsg: n - f messages are counted. */
  predicate Full(c: Conf, v: SlotState, k: nat) {
    |HeardAt(v, k)| >= c.NMinusF()
  }

  function Counted(v: SlotState, k: nat, from: nat, m: Msg): SlotState {
    v.(heard := v.heard[k := HeardAt(v, k) + [(from, m)]])
  }

  // ---------------------------------------------------------------- the message handler

  predicate IsRoundMsg(m: Msg) {
    m.typ == PROPOSAL || m.typ == STATE || m.typ == VOTE
  }

  /** The round a Proposal, State or Vote message belongs to. */
  function RoundOf(m: Msg): nat
    requires IsRoundMsg(m)
  {
    if m.typ == PROPOSAL then 0 else if m.typ == STATE then 2 * m.phase else 2 * m.phase + 1
  }

  /** The internal message that tells the executor that a round is full. */
  function Notice(P: Params, m: Msg): Msg {
    Msg(m.typ, if m.typ == PROPOSAL then 0 else m.phase, P.seqNo, None)
  }

  /** binConMsgHandling, after the term check. */
  function Handle(P: Params, v: SlotState, from: nat, m: Msg): SlotState {
    if v.isDone then v
    else if IsRoundMsg(m) then
      var k := RoundOf(m);
      if Full(P.c, v, k) then v
      else
        var v' := Counted(v, k, from, m);
        if Full(P.c, v', k) then v'.(queue := v'.queue + [Notice(P, m)]) else v'
    else if m.typ == DECISION && !v.hasRecvDec then v.(queue := v.queue + [m], hasRecvDec := true)
    else v
  }

  /** The object a ProposalRequest is answered with, if it is answered. */
  function ReplyFor(P: Params, v: SlotState): Option<ConsensusObj> {
    if Full(P.c, v, 0) && HasProposal(HeardAt(v, 0)) && MajT(HeardAt(v, 0)) >= P.c.Majority()
    then Some(MajV(HeardAt(v, 0)).(svrSeq := P.seqNo))
    else None
  }

  // ---------------------------------------------------------------- the executor

  /** What wait does with the message at the head of the slot's queue. */
  datatype PopAction = Skip | Go | Received(dec: ConsensusObj) | Panic(code: nat)

  function PopVerdict(v: SlotState, m: Msg): PopAction {
    if IsRoundMsg(m) then
      if v.hasRecvDec then Skip
      else if m.phase != v.phase then Panic(1)
      else if v.round == 1 && v.phase == 0 && m.typ != PROPOSAL then Panic(2)
      else if v.round == 1 && v.phase != 0 && m.typ != STATE then Panic(3)
      else if v.round == 2 && m.typ != VOTE then Panic(4)
      else Go
    else if m.typ == DECISION && m.obj.Some? then
      if v.isDone then Panic(5) else Received(m.obj.value)
    else Skip
  }

  /** How a full round ends: with a decided bit, or with a value for the next round. */
  datatype Verdict = Decide(b: bit) | Next(x: uint32)

  function RoundVerdict(c: Conf, flip: bit, k: nat, h: Heard): Verdict {
    if k == 0 then
      if HasProposal(h) && MajT(h) >= c.MajorityPlusF() then Decide(1)
      else Next(if HasProposal(h) && MajT(h) >= c.Majority() then 1 else 2)
    else if k % 2 == 1 then
      if BitMajT(h) >= c.FaultyPlusOne() then Decide(BitMajV(h))
      else if BitMajT(h) >= 1 then Next(BitMajV(h))
      else Next(if k == 1 then 0 else flip)
    else
      if BitMajT(h) >= c.MajorityPlusF() then Decide(BitMajV(h))
      else if BitMajT(h) >= c.Majority() then Next(BitMajV(h))
      else Next(2)
  }

  /** findReturnValue for a decided bit; None means that the proposal must be requested. */
  function ReturnValue(P: Params, v: SlotState, b: bit): Option<ConsensusObj> {
    if b == 0 then Some(EMPTY_OBJ.(isNull := true, svrSeq := P.seqNo))
    else if HasProposal(HeardAt(v, 0)) && MajT(HeardAt(v, 0)) >= P.c.Majority()
    then Some(MajV(HeardAt(v, 0)).(svrSeq := P.seqNo))
    else None
  }

  function DecisionMsg(P: Params, obj: ConsensusObj): Msg {
    Msg(DECISION, 0, 0, Some(obj.(svrSeq := P.seqNo)))
  }

  /** The Proposal, State or Vote message of round k. */
  predicate IsRound(P: Params, m: Msg, k: nat) {
    && m.obj.Some? && m.obj.value.svrSeq == P.seqNo
    && m.phase == k / 2 && m.phase < P.lenBlock
    && (k == 0 ==> m.typ == PROPOSAL && !m.obj.value.isNull)
    && (k > 0 && k % 2 == 0 ==> m.typ == STATE && m.value < 2)
    && (k % 2 == 1 ==> m.typ == VOTE && m.value < 3 && (k == 1 ==> m.value != 0))
  }

  /** The slot after the executor stored its value for the round that follows round k. */
  function Advance(v: SlotState, k: nat, x: uint32): SlotState
    requires v.phase + 1 < 0x1_0000_0000 && 1 <= v.round < 0xFFFF_FFFF
  {
    var v' := v.(mine := v.mine[k + 1 := x]);
    if k % 2 == 0 then v'.(round := v.round + 1)
    else v'.(phase := v.phase + 1, round := v.round - 1)
  }

  // ---------------------------------------------------------------- facts about tallies

  lemma {:induction false} CountAppend(h: Heard, e: (nat, Msg), l: Label)
    ensures Count(h + [e], l) == Count(h, l) + (if LabelOf(e.1) == l then 1 else 0)
  {
    assert (h + [e])[..|h|] == h;
  }

  lemma {:induction false} CountMember(h: Heard, l: Label)
    ensures Count(h, l) > 0 <==> exists j :: 0 <= j < |h| && LabelOf(h[j].1) == l
  {
    if |h| > 0 {
      var front := h[..|h| - 1];
      CountMember(front, l);
      if j :| 0 <= j < |h| && LabelOf(h[j].1) == l {
        if j < |front| { assert front[j] == h[j]; }
      }
      if j :| 0 <= j < |front| && LabelOf(front[j].1) == l { assert h[j] == front[j]; }
    }
  }

  lemma {:induction false} BestKeyOfPrefix(h: Heard, n: nat)
    requires n <= |h|
    ensures BestKey(h, n).None? ==> forall j :: 0 <= j < n ==> LabelOf(h[j].1).Bit?
    ensures BestKey(h, n).Some? ==>
      && (exists j :: 0 <= j < n && LabelOf(h[j].1) == OfKey(BestKey(h, n).value))
      && (forall j :: 0 <= j < n && LabelOf(h[j].1).OfKey? && LabelOf(h[j].1).key != BestKey(h, n).value
            ==> Beats(h, BestKey(h, n).value, LabelOf(h[j].1).key))
  {
    if n > 0 {
      BestKeyOfPrefix(h, n - 1);
    }
  }

  /** Sorting the tallies puts the unique majority key first. */
  lemma BestKeyIsMajority(h: Heard)
    ensures HasProposal(h) ==> IsMajorityKey(h, BestKey(h, |h|).value)
    ensures HasProposal(h) <==> exists k: Key :: Count(h, OfKey(k)) > 0
  {
    BestKeyOfPrefix(h, |h|);
    if HasProposal(h) {
      CountMember(h, OfKey(MajKey(h)));
      forall k' | k' != MajKey(h) && Count(h, OfKey(k')) > 0
        ensures Beats(h, MajKey(h), k')
      {
        CountMember(h, OfKey(k'));
      }
    }
    forall k | Count(h, OfKey(k)) > 0
      ensures HasProposal(h)
    {
      CountMember(h, OfKey(k));
    }
  }

  lemma MajorityKeyUnique(h: Heard, k: Key)
    requires IsMajorityKey(h, k)
    ensures HasProposal(h) && MajKey(h) == k
  {
    BestKeyIsMajority(h);
    assert !(Beats(h, k, MajKey(h)) && Beats(h, MajKey(h), k));
  }

  /** The majority key and its tally depend only on how often each key was received, not on the
      order of arrival. */
  lemma MajorityOrderIndependent(h1: Heard, h2: Heard)
    requires forall k: Key :: Count(h1, OfKey(k)) == Count(h2, OfKey(k))
    ensures HasProposal(h1) == HasProposal(h2)
    ensures HasProposal(h1) ==> MajKey(h1) == MajKey(h2) && MajT(h1) == MajT(h2)
  {
    BestKeyIsMajority(h1);
    BestKeyIsMajority(h2);
    assert HasProposal(h2) ==> Count(h1, OfKey(MajKey(h2))) > 0;
    if HasProposal(h1) {
      assert Count(h2, OfKey(MajKey(h1))) > 0;
      MajorityKeyUnique(h2, MajKey(h1));
    }
  }

  lemma {:induction false} FirstObjIn(h: Heard, k: Key)
    requires Count(h, OfKey(k)) > 0
    ensures exists j :: 0 <= j < |h| && h[j].1.typ == PROPOSAL && h[j].1.obj == Some(FirstObj(h, k))
    ensures KeyOf(FirstObj(h, k)) == k
  {
    var front := h[..|h| - 1];
    if Count(front, OfKey(k)) > 0 {
      FirstObjIn(front, k);
      var j :| 0 <= j < |front| && front[j].1.typ == PROPOSAL && front[j].1.obj == Some(FirstObj(front, k));
      assert h[j] == front[j];
    } else {
      assert h[|h| - 1].1.obj == Some(FirstObj(h, k));
    }
  }

  lemma {:induction false} FirstObjAppend(h: Heard, e: (nat, Msg), k: Key)
    requires Count(h + [e], OfKey(k)) > 0
    ensures FirstObj(h + [e], k) ==
      if Count(h, OfKey(k)) > 0 then FirstObj(h, k) else (h + [e])[|h|].1.obj.value
  {
    assert (h + [e])[..|h|] == h;
  }

  // ---------------------------------------------------------------- the functions above, by counts alone

  /** Some object was proposed by at least t of the servers heard. */
  ghost predicate Proposed(h: Heard, t: int) {
    exists k: Key :: Count(h, OfKey(k)) > 0 && Count(h, OfKey(k)) >= t
  }

  lemma MajTIsGreatest(h: Heard, t: int)
    ensures (HasProposal(h) && MajT(h) >= t) <==> Proposed(h, t)
  {
    BestKeyIsMajority(h);
    if HasProposal(h) {
      var best := MajKey(h);
      forall k | Count(h, OfKey(k)) > 0
        ensures Count(h, OfKey(k)) <= MajT(h)
      {
        assert k != best ==> Beats(h, best, k);
      }
    }
  }

  /** The majority key has the greatest tally, and of the keys with that tally the smallest sequence
      number, and then the smallest proxy id; the majority object is the first that came under it. */
  lemma MajorityExact(h: Heard)
    requires HasProposal(h)
    ensures var best := MajKey(h);
      forall k: Key :: k != best && Count(h, OfKey(k)) > 0 ==>
        || Count(h, OfKey(k)) < Count(h, OfKey(best))
        || (Count(h, OfKey(k)) == Count(h, OfKey(best)) && best.proSeq < k.proSeq)
        || (Count(h, OfKey(k)) == Count(h, OfKey(best)) && best.proSeq == k.proSeq && best.proId < k.proId)
    ensures exists j: nat :: IsFirst(h, OfKey(MajKey(h)), j) && h[j].1.obj == Some(MajV(h))
  {
    BestKeyIsMajority(h);
    forall k: Key | k != MajKey(h) && Count(h, OfKey(k)) > 0
      ensures Beats(h, MajKey(h), k)
    {
    }
    FirstObjIsFirst(h, MajKey(h));
  }

  /** Message j is the first with the label. */
  predicate IsFirst(h: Heard, l: Label, j: nat) {
    j < |h| && LabelOf(h[j].1) == l && forall i :: 0 <= i < j ==> LabelOf(h[i].1) != l
  }

  lemma {:induction false} FirstObjIsFirst(h: Heard, k: Key)
    requires Count(h, OfKey(k)) > 0
    ensures exists j: nat :: IsFirst(h, OfKey(k), j) && h[j].1.obj == Some(FirstObj(h, k))
  {
    var front := h[..|h| - 1];
    CountMember(front, OfKey(k));
    if Count(front, OfKey(k)) > 0 {
      FirstObjIsFirst(front, k);
      var j: nat :| IsFirst(front, OfKey(k), j) && front[j].1.obj == Some(FirstObj(front, k));
      assert IsFirst(h, OfKey(k), j) && h[j] == front[j];
    } else {
      forall i | 0 <= i < |h| - 1
        ensures LabelOf(h[i].1) != OfKey(k)
      {
        assert front[i] == h[i];
      }
      assert IsFirst(h, OfKey(k), |h| - 1);
    }
  }

  /** The majority bit is 1 unless more zeros were counted, and its tally is the greater one. */
  lemma BitMajorityExact(h: Heard)
    ensures BitMajV(h) == 1 <==> Count(h, Bit(0)) <= Count(h, Bit(1))
    ensures BitMajT(h) == Count(h, Bit(BitMajV(h))) >= Count(h, Bit(1 - BitMajV(h)))
  {
  }

  /** A ProposalRequest is answered if and only if n - f proposals are counted and n/2 + 1 of them are
      for one object; and then with such an object, stamped with the slot. */
  lemma ReplyExact(P: Params, v: SlotState)
    requires P.Valid()
    ensures ReplyFor(P, v).Some? <==>
      |HeardAt(v, 0)| >= P.c.nServers - P.c.nFaulty && Proposed(HeardAt(v, 0), P.c.nServers / 2 + 1)
    ensures ReplyFor(P, v).Some? ==>
      var obj := ReplyFor(P, v).value;
      && Count(HeardAt(v, 0), OfKey(KeyOf(obj))) >= P.c.nServers / 2 + 1 && obj.svrSeq == P.seqNo
      && exists j :: 0 <= j < |HeardAt(v, 0)| && IsStamped(HeardAt(v, 0)[j].1, P.seqNo, obj)
  {
    var h := HeardAt(v, 0);
    MajTIsGreatest(h, P.c.nServers / 2 + 1);
    if HasProposal(h) { StampedObj(P, h); }
  }

  /** The message proposes the object, but for the slot number. */
  predicate IsStamped(m: Msg, seqNo: uint32, obj: ConsensusObj) {
    m.typ == PROPOSAL && m.obj.Some? && m.obj.value.(svrSeq := seqNo) == obj
  }

  lemma StampedObj(P: Params, h: Heard)
    requires HasProposal(h)
    ensures KeyOf(MajV(h)) == MajKey(h)
    ensures exists j :: 0 <= j < |h| && IsStamped(h[j].1, P.seqNo, MajV(h).(svrSeq := P.seqNo))
  {
    BestKeyIsMajority(h);
    FirstObjIn(h, MajKey(h));
    var j :| 0 <= j < |h| && h[j].1.typ == PROPOSAL && h[j].1.obj == Some(MajV(h));
    assert IsStamped(h[j].1, P.seqNo, MajV(h).(svrSeq := P.seqNo));
  }

  /** A server that decided 0 returns null; one that decided 1 returns an object if and only if n/2 + 1
      of the proposals that it counted are for one object, and then that object. */
  lemma ReturnExact(P: Params, v: SlotState, b: bit)
    requires P.Valid()
    ensures b == 0 ==> ReturnValue(P, v, b) == Some(ConsensusObj(0, 0, P.seqNo, true, [], [], []))
    ensures b == 1 ==> (ReturnValue(P, v, b).Some? <==> Proposed(HeardAt(v, 0), P.c.nServers / 2 + 1))
    ensures b == 1 && ReturnValue(P, v, b).Some? ==>
      var obj := ReturnValue(P, v, b).value;
      && Count(HeardAt(v, 0), OfKey(KeyOf(obj))) >= P.c.nServers / 2 + 1 && obj.svrSeq == P.seqNo
      && exists j :: 0 <= j < |HeardAt(v, 0)| && IsStamped(HeardAt(v, 0)[j].1, P.seqNo, obj)
  {
    var h := HeardAt(v, 0);
    MajTIsGreatest(h, P.c.nServers / 2 + 1);
    if HasProposal(h) { StampedObj(P, h); }
  }

  /** How the round of proposals ends. */
  lemma ProposalsEnd(c: Conf, flip: bit, h: Heard)
    requires c.Valid()
    ensures RoundVerdict(c, flip, 0, h) ==
      if Proposed(h, c.nServers / 2 + c.nFaulty + 1) then Decide(1)
      else if Proposed(h, c.nServers / 2 + 1) then Next(1)
      else Next(2)
  {
    MajTIsGreatest(h, c.nServers / 2 + c.nFaulty + 1);
    MajTIsGreatest(h, c.nServers / 2 + 1);
  }

  /** How a round of states ends, when no more are counted than there are servers: a bit is decided, or
      voted for, exactly when a super-majority or a majority has it. */
  lemma StatesEnd(c: Conf, flip: bit, k: nat, h: Heard, b: bit)
    requires c.Valid() && k > 0 && k % 2 == 0 && Count(h, Bit(0)) + Count(h, Bit(1)) <= c.nServers
    ensures RoundVerdict(c, flip, k, h) == Decide(b) <==> Count(h, Bit(b)) >= c.nServers / 2 + c.nFaulty + 1
    ensures RoundVerdict(c, flip, k, h) == Next(b) <==>
      c.nServers / 2 + 1 <= Count(h, Bit(b)) < c.nServers / 2 + c.nFaulty + 1
    ensures RoundVerdict(c, flip, k, h).Next? ==> RoundVerdict(c, flip, k, h).x <= 2
  {
  }

  /** How a round of votes ends, when not both bits were voted for: f + 1 votes for a bit decide it, and
      fewer are followed; without any, it is 0 in phase 0, and the coin later. */
  lemma VotesEnd(c: Conf, flip: bit, k: nat, h: Heard, b: bit)
    requires c.Valid() && k % 2 == 1 && (Count(h, Bit(0)) == 0 || Count(h, Bit(1)) == 0)
    ensures RoundVerdict(c, flip, k, h) == Decide(b) <==> Count(h, Bit(b)) >= c.nFaulty + 1
    ensures 1 <= Count(h, Bit(b)) <= c.nFaulty ==> RoundVerdict(c, flip, k, h) == Next(b)
    ensures Count(h, Bit(0)) == 0 && Count(h, Bit(1)) == 0 ==>
      RoundVerdict(c, flip, k, h) == Next(if k == 1 then 0 else flip)
  {
  }
}
