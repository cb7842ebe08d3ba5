/** n servers deciding one slot. Each server is a message handler and an executor over a slot;
    a server's broadcasts form a log, and every server (the sender too) has read a prefix of it,
    which is what a FIFO link that may fail at any point delivers. A crashed server is one that
    takes no further step. Steps are the atomic actions of the two routines.
    Sources: roles/server/layers/consensus/executor.go, msgHandler.go. */
module Cluster {
  import opened Messages
  import opened SlotSpec

  /** Where the executor of a server stands. Asking: in requestProposalAndWait. Deciding: the
      epilogue is still to run. Crashed: an array index went out of range. */
  datatype Pc =
    | Idle
    | Waiting
    | Ready
    | Asking
    | Deciding(dec: ConsensusObj)
    | Done
    | Crashed
    | Panicked(code: nat)

  datatype Node = Node(slot: SlotState, pc: Pc, flips: nat)

  /** logs[s] is everything s broadcast; read[r][s] is how much of it the handler of r has taken;
      replies holds every ProposalReply sent, with its destination. */
  datatype World = World(
    nodes: seq<Node>, logs: seq<seq<Msg>>, read: seq<seq<nat>>, replies: set<(uint32, ConsensusObj)>)

  function Init(P: Params): World {
    World(seq(P.c.nServers, _ => Node(FRESH, Idle, 0)),
          seq(P.c.nServers, _ => []),
          seq(P.c.nServers, _ => seq(P.c.nServers, _ => 0)),
          {})
  }

  ghost predicate Shape(P: Params, w: World) {
    && P.Valid()
    && |w.nodes| == |w.logs| == |w.read| == P.c.nServers
    && (forall r :: 0 <= r < P.c.nServers ==> |w.read[r]| == P.c.nServers)
  }

  // ---------------------------------------------------------------- steps

  datatype Step =
    | Start(i: nat, obj: ConsensusObj)
    | Pop(i: nat)
    | Proceed(i: nat)
    | Adopt(i: nat, obj: ConsensusObj)
    | Finish(i: nat)
    | Deliver(r: nat, s: nat)

  function ProposalMsg(P: Params, obj: ConsensusObj): Msg {
    Msg(PROPOSAL, 0, 0, Some(obj.(svrSeq := P.seqNo)))
  }

  /** genBinConMsg: the state or vote of the round the slot is in. */
  function BinConMsg(P: Params, v: SlotState): Msg
    requires v.round == 1 || v.round == 2
  {
    Msg(if v.round == 1 then STATE else VOTE, v.phase,
        MineAt(v, RoundIndex(v.phase, v.round)), Some(EMPTY_OBJ.(svrSeq := P.seqNo)))
  }

  /** Is the current round a coin round, i.e. round 2 of a phase after phase 0? */
  predicate FlipsCoin(v: SlotState) {
    v.round == 2 && v.phase > 0
  }

  /** The code after wait returned true: the four AfterWait functions, and the BeforeWait
      function of the next round. */
  function AfterWait(P: Params, i: nat, nd: Node): (Node, seq<Msg>)
    requires i < P.c.nServers && P.Valid()
    requires (nd.slot.round == 1 || nd.slot.round == 2) && nd.slot.phase < P.lenBlock
  {
    var v := nd.slot;
    var k := RoundIndex(v.phase, v.round);
    var flips := if FlipsCoin(v) then nd.flips + 1 else nd.flips;
    match RoundVerdict(P.c, P.coin(nd.flips), k, HeardAt(v, k))
    case Next(x) =>
      if k % 2 == 1 && v.phase + 1 >= P.lenBlock then (Node(v, Crashed, flips), [])
      else
        var v' := Advance(v, k, x);
        (Node(v', Waiting, flips), [BinConMsg(P, v')])
    case Decide(b) =>
      var found := if k == 0 && HasProposal(HeardAt(v, 0)) then Some(MajV(HeardAt(v, 0))) else ReturnValue(P, v, b);
      match found
      case Some(dec) => (Node(v.(round := v.round + 1), Deciding(dec), flips), [DecisionMsg(P, dec)])
      case None => (Node(v, Asking, flips), [Msg(PROPOSAL_REQUEST, i, P.seqNo, None)])
  }

  predicate Can(P: Params, w: World, st: Step)
    requires Shape(P, w)
  {
    match st
    case Start(i, obj) => i < |w.nodes| && w.nodes[i].pc.Idle? && !obj.isNull
    case Pop(i) => i < |w.nodes| && w.nodes[i].pc.Waiting? && |w.nodes[i].slot.queue| > 0
    case Proceed(i) => i < |w.nodes| && w.nodes[i].pc.Ready?
                       && 1 <= w.nodes[i].slot.round <= 2 && w.nodes[i].slot.phase < P.lenBlock
    case Adopt(i, obj) => i < |w.nodes| && w.nodes[i].pc.Asking? && (i, obj) in w.replies
                          && w.nodes[i].slot.round < 0xFFFF_FFFF
    case Finish(i) => i < |w.nodes| && w.nodes[i].pc.Deciding?
    case Deliver(r, s) => r < |w.nodes| && s < |w.nodes| && w.read[r][s] < |w.logs[s]|
  }

  function PopNode(v: SlotState, nd: Node): Node
    requires |v.queue| > 0
  {
    var v' := v.(queue := v.queue[1..]);
    match PopVerdict(v, v.queue[0])
    case Skip => nd.(slot := v')
    case Go => nd.(slot := v', pc := Ready)
    case Received(dec) => nd.(slot := v', pc := Deciding(dec))
    case Panic(code) => nd.(slot := v', pc := Panicked(code))
  }

  function At(w: World, i: nat, nd: Node, out: seq<Msg>): World
    requires i < |w.nodes| && i < |w.logs|
  {
    w.(nodes := w.nodes[i := nd], logs := w.logs[i := w.logs[i] + out])
  }

  function Do(P: Params, w: World, st: Step): World
    requires Shape(P, w) && Can(P, w, st)
  {
    match st
    case Start(i, obj) =>
      At(w, i, Node(w.nodes[i].slot.(myProposal := obj, round := 1), Waiting, 0), [ProposalMsg(P, obj)])
    case Pop(i) => At(w, i, PopNode(w.nodes[i].slot, w.nodes[i]), [])
    case Proceed(i) => var (nd, out) := AfterWait(P, i, w.nodes[i]); At(w, i, nd, out)
    case Adopt(i, obj) =>
      var v := w.nodes[i].slot;
      At(w, i, w.nodes[i].(slot := v.(round := v.round + 1), pc := Deciding(obj)), [DecisionMsg(P, obj)])
    case Finish(i) =>
      At(w, i, w.nodes[i].(slot := w.nodes[i].slot.(decision := w.nodes[i].pc.dec, isDone := true), pc := Done), [])
    case Deliver(r, s) =>
      var m := w.logs[s][w.read[r][s]];
      var w' := w.(read := w.read[r := w.read[r][s := w.read[r][s] + 1]]);
      if m.typ == PROPOSAL_REQUEST then
        match ReplyFor(P, w.nodes[r].slot)
        case Some(obj) => w'.(replies := w.replies + {(m.phase, obj)})
        case None => w'
      else w'.(nodes := w.nodes[r := w.nodes[r].(slot := Handle(P, w.nodes[r].slot, s, m))])
  }

  ghost predicate Leads(P: Params, w: World, w': World) {
    Shape(P, w) && exists st :: Can(P, w, st) && w' == Do(P, w, st)
  }

  /** A run starts in the initial world and takes enabled steps. */
  ghost predicate IsRun(P: Params, run: seq<World>) {
    && P.Valid()
    && |run| > 0 && run[0] == Init(P)
    && forall t: nat, u: nat :: u == t + 1 && u < |run| ==> Leads(P, run[t], run[u])
  }

  ghost predicate Reachable(P: Params, w: World) {
    exists run :: IsRun(P, run) && run[|run| - 1] == w
  }

  /** What the handler can take in any state: it knows the type, the object that it looks at is
      there, and the counters that it may touch exist. */
  predicate Handled(lenBlock: nat, m: Msg) {
    && CLIENT_REQUEST <= m.typ <= DECISION && m.typ != PROPOSAL_REPLY
    && (m.typ != PROPOSAL_REQUEST ==> m.obj.Some?)
    && (m.typ == STATE || m.typ == VOTE ==> m.phase < lenBlock && m.value < 3)
  }

  /** The slot that a message from another server is about. */
  function SlotNamed(m: Msg): Option<uint32> {
    if m.typ == PROPOSAL_REQUEST then Some(m.value)
    else if m.obj.Some? then Some(m.obj.value.svrSeq)
    else None
  }

  // ---------------------------------------------------------------- the invariant

  /** log[k] is a round message. */
  predicate SentIn(log: seq<Msg>, k: nat) {
    k < |log| && IsRoundMsg(log[k])
  }

  /** Server s has broadcast its message of round k. */
  predicate Sent(w: World, s: nat, k: nat) {
    s < |w.logs| && SentIn(w.logs[s], k)
  }

  /** A log is the sender's round messages in round order, one a round, and then possibly a
      ProposalRequest and a Decision. */
  ghost predicate LogOk(P: Params, i: nat, log: seq<Msg>) {
    && (forall j: nat, k: nat :: j <= k && SentIn(log, k) ==> SentIn(log, j))
    && (forall k: nat :: SentIn(log, k) ==> IsRound(P, log[k], k))
    && (forall k: nat :: k < |log| && !SentIn(log, k) ==>
          IsRequestFrom(P, log[k], i) || IsDecisionOf(P, log[k]))
  }

  predicate IsRequestFrom(P: Params, m: Msg, i: nat) {
    m.typ == PROPOSAL_REQUEST && m.phase == i && m.value == P.seqNo && m.obj.None?
  }

  predicate IsDecisionOf(P: Params, m: Msg) {
    m.typ == DECISION && m.obj.Some? && m.obj.value.svrSeq == P.seqNo
  }

  predicate InRound(P: Params, v: SlotState) {
    1 <= v.round <= 2 && v.phase < P.lenBlock
  }

  ghost predicate PcOk(P: Params, nd: Node, log: seq<Msg>) {
    && (nd.pc.Idle? ==> log == [] && nd.slot.phase == nd.slot.round == 0)
    && (nd.pc.Waiting? || nd.pc.Ready? || nd.pc.Asking? ==>
          && InRound(P, nd.slot)
          && SentIn(log, RoundIndex(nd.slot.phase, nd.slot.round))
          && |log| == RoundIndex(nd.slot.phase, nd.slot.round) + (if nd.pc.Asking? then 2 else 1))
    && (nd.pc.Waiting? || nd.pc.Ready? ==> nd.flips == if nd.slot.phase > 0 then nd.slot.phase - 1 else 0)
    && (nd.pc.Ready? ==> Full(P.c, nd.slot, RoundIndex(nd.slot.phase, nd.slot.round)))
    && !nd.pc.Panicked?
    && (nd.slot.isDone <==> nd.pc.Done?)
  }

  predicate HasSender(h: Heard, s: nat) {
    exists j :: 0 <= j < |h| && h[j].0 == s
  }

  /** The messages counted for round k are the round-k messages of distinct senders, read from
      their logs, and at most n - f of them. */
  ghost predicate HeardOk(P: Params, v: SlotState, logs: seq<seq<Msg>>, row: seq<nat>, k: nat)
    requires |logs| == |row|
  {
    var h := HeardAt(v, k);
    && |h| <= P.c.NMinusF()
    && (forall j :: 0 <= j < |h| ==>
          h[j].0 < |logs| && k < row[h[j].0] && SentIn(logs[h[j].0], k) && h[j].1 == logs[h[j].0][k])
    && (forall j, j' :: 0 <= j < j' < |h| ==> h[j].0 != h[j'].0)
  }

  /** Every round message read so far is counted, unless its round is full. */
  ghost predicate CompleteOk(P: Params, v: SlotState, logs: seq<seq<Msg>>, row: seq<nat>)
    requires |logs| == |row|
  {
    && (forall s :: 0 <= s < |logs| ==> row[s] <= |logs[s]|)
    && (!v.isDone ==> forall s: nat, k: nat :: s < |logs| && k < row[s] && SentIn(logs[s], k) ==>
          Full(P.c, v, k) || HasSender(HeardAt(v, k), s))
  }

  /** Every Decision read so far is noted. */
  ghost predicate NotedOk(v: SlotState, logs: seq<seq<Msg>>, row: seq<nat>)
    requires |logs| == |row|
  {
    !v.isDone ==>
      forall s: nat, k: nat :: s < |logs| && k < row[s] && k < |logs[s]| && logs[s][k].typ == DECISION ==> v.hasRecvDec
  }

  predicate NoticeFor(m: Msg, k: nat) {
    && m.phase == k / 2
    && m.typ == (if k == 0 then PROPOSAL else if k % 2 == 0 then STATE else VOTE)
  }

  /** The round whose notice the executor takes from the queue next. */
  function NextNotice(nd: Node): nat {
    if (nd.pc.Waiting? || nd.pc.Ready?) && 1 <= nd.slot.round <= 2 then
      RoundIndex(nd.slot.phase, nd.slot.round) + (if nd.pc.Ready? then 1 else 0)
    else 0
  }

  predicate Queueing(pc: Pc) {
    pc.Idle? || pc.Waiting? || pc.Ready?
  }

  /** The queue holds exactly the notices of rounds c, c + 1, ..., up to the last full round. */
  ghost predicate Notices(P: Params, v: SlotState, c: nat) {
    && (forall j: nat :: j < |v.queue| ==> NoticeFor(v.queue[j], c + j))
    && (forall k: nat :: Full(P.c, v, k) <==> k < c + |v.queue|)
  }

  /** Until a Decision is received the queue holds the notices of a contiguous run of rounds,
      from the round the executor is in; once one is received it is still in the queue. */
  ghost predicate QueueOk(P: Params, nd: Node) {
    Queueing(nd.pc) ==>
      && (!nd.slot.hasRecvDec ==> Notices(P, nd.slot, NextNotice(nd)))
      && (nd.slot.hasRecvDec ==> exists j :: 0 <= j < |nd.slot.queue| && nd.slot.queue[j].typ == DECISION)
  }

  /** The flip a server uses in round k, when that is a coin round: flip number k/2 - 1. */
  function FlipOf(P: Params, k: nat): bit {
    if k >= 3 then P.coin(k / 2 - 1) else P.coin(0)
  }

  function VerdictOf(P: Params, v: SlotState, k: nat): Verdict {
    RoundVerdict(P.c, FlipOf(P, k), k, HeardAt(v, k))
  }

  /** Every message after the first says what the verdict on the sender's previous, full round
      says. */
  ghost predicate JustOk(P: Params, v: SlotState, log: seq<Msg>) {
    forall k: nat :: 1 <= k && SentIn(log, k) ==>
      Full(P.c, v, k - 1) && VerdictOf(P, v, k - 1) == Next(log[k].value)
  }

  /** Server i found bit b decided by the messages of round k. */
  predicate DecidesAt(P: Params, w: World, i: nat, k: nat, b: bit) {
    i < |w.nodes| && Full(P.c, w.nodes[i].slot, k) && VerdictOf(P, w.nodes[i].slot, k) == Decide(b)
  }

  ghost predicate DecidedBit(P: Params, w: World, b: bit) {
    exists i: nat, k: nat :: DecidesAt(P, w, i, k, b)
  }

  /** Server j counted a majority of proposals for this object. */
  predicate MajorityAt(P: Params, w: World, j: nat, obj: ConsensusObj) {
    j < |w.nodes| && ReplyFor(P, w.nodes[j].slot) == Some(obj)
  }

  /** A decision some server may reach: null after bit 0, a majority proposal after bit 1. */
  ghost predicate Backed(P: Params, w: World, dec: ConsensusObj) {
    if dec.isNull then dec == EMPTY_OBJ.(isNull := true, svrSeq := P.seqNo) && DecidedBit(P, w, 0)
    else DecidedBit(P, w, 1) && exists j: nat :: MajorityAt(P, w, j, dec)
  }

  ghost predicate DecMsgsOk(P: Params, w: World, ms: seq<Msg>) {
    forall k :: 0 <= k < |ms| && ms[k].typ == DECISION ==> ms[k].obj.Some? && Backed(P, w, ms[k].obj.value)
  }

  ghost predicate DecOk(P: Params, w: World, nd: Node, log: seq<Msg>) {
    && (nd.pc.Deciding? ==> Backed(P, w, nd.pc.dec))
    && (nd.pc.Done? ==> Backed(P, w, nd.slot.decision))
    && (nd.pc.Asking? ==> DecidedBit(P, w, 1))
    && DecMsgsOk(P, w, nd.slot.queue)
    && DecMsgsOk(P, w, log)
  }

  ghost predicate RepliesOk(P: Params, w: World) {
    forall d, obj :: (d, obj) in w.replies ==> !obj.isNull && exists j: nat :: MajorityAt(P, w, j, obj)
  }

  ghost predicate CountingOk(P: Params, v: SlotState, logs: seq<seq<Msg>>, row: seq<nat>)
    requires |logs| == |row|
  {
    CompleteOk(P, v, logs, row) && NotedOk(v, logs, row) && forall k: nat :: HeardOk(P, v, logs, row, k)
  }

  /** A server asks for the decided object only when its proposals are frozen without a majority. */
  predicate AskOk(P: Params, nd: Node) {
    nd.pc.Asking? ==> Full(P.c, nd.slot, 0) && ReplyFor(P, nd.slot).None?
  }

  /** The part of the invariant that concerns server i alone. */
  ghost predicate NodeInv(P: Params, i: nat, nd: Node, log: seq<Msg>) {
    LogOk(P, i, log) && PcOk(P, nd, log) && QueueOk(P, nd) && JustOk(P, nd.slot, log) && AskOk(P, nd)
  }

  ghost predicate Inv(P: Params, w: World) {
    && Shape(P, w)
    && (forall i: nat :: i < |w.nodes| ==> NodeInv(P, i, w.nodes[i], w.logs[i]))
    && (forall i: nat :: i < |w.nodes| ==> CountingOk(P, w.nodes[i].slot, w.logs, w.read[i]))
    && (forall i: nat :: i < |w.nodes| ==> DecOk(P, w, w.nodes[i], w.logs[i]))
    && RepliesOk(P, w)
  }
}
