/** All slots together: servers that take requests from their pending queues, decide one slot after
    the other, and execute the decisions in slot order. Every slot runs the cluster protocol of
    Cluster.dfy; this layer adds the queues, the Discard tables and the key-value stores.
    Sources: roles/server/layers/consensus/executor.go, roles/server/layers/proxy/proxy.go. */
module Replication {
  import opened Messages
  import opened Quorums
  import opened SlotSpec
  import opened Cluster
  import opened Pending
  import opened KvStore
  import opened Redis

  datatype Group = Group(c: Conf, coin: nat -> bit, lenBlock: uint32, layout: Layout) {
    predicate Valid() {
      c.Valid() && 0 < lenBlock
    }
  }

  function P(g: Group, s: uint32): Params {
    Params(g.c, g.coin, s, g.lenBlock)
  }

  /** A server above its slots. props[s] is what it proposed for slot s, so SvrSeq is |props| - 1;
      decs[s] is its decision of slot s; answers are those of the commands executed, slot by slot.
      The executor works on a slot when |decs| < |props|. */
  datatype Peer = Peer(
    props: seq<ConsensusObj>, decs: seq<ConsensusObj>, requests: Requests, arrived: set<Key>,
    store: Store, answers: seq<seq<Bytes>>)

  /** issued: the objects that proxies broadcast as client requests. Slots nobody touched yet are
      left out of the map. */
  datatype System = System(slots: map<uint32, World>, peers: seq<Peer>, issued: map<Key, ConsensusObj>)

  const NEWCOMER := Peer([], [], Requests(multiset{}, {}), {}, map[], [])

  function Start0(g: Group): System {
    System(map[], seq(g.c.nServers, _ => NEWCOMER), map[])
  }

  function SlotAt(g: Group, sys: System, s: uint32): World {
    if s in sys.slots then sys.slots[s] else Init(P(g, s))
  }

  datatype Act =
    | Issue(obj: ConsensusObj)
    | Arrive(i: nat, k: Key)
    | Drop(i: nat, obj: ConsensusObj)
    | Begin(i: nat, obj: ConsensusObj)
    | Inside(s: uint32, st: Step)
    | Conclude(i: nat)
    | Execute(i: nat)

  predicate Working(p: Peer) {
    |p.decs| < |p.props|
  }

  /** Steps of the cluster that change neither what a server proposed nor what it decided. The
      executor of a server takes them only on the slot that it works on. */
  predicate IsInside(sys: System, s: uint32, st: Step) {
    match st
    case Start(_, _) => false
    case Finish(_) => false
    case Deliver(_, _) => true
    case Pop(i) => i < |sys.peers| && |sys.peers[i].decs| == s < |sys.peers[i].props|
    case Proceed(i) => i < |sys.peers| && |sys.peers[i].decs| == s < |sys.peers[i].props|
    case Adopt(i, _) => i < |sys.peers| && |sys.peers[i].decs| == s < |sys.peers[i].props|
  }

  ghost predicate CanDo(g: Group, sys: System, s: uint32, st: Step) {
    Shape(P(g, s), SlotAt(g, sys, s)) && Can(P(g, s), SlotAt(g, sys, s), st)
  }

  ghost function InSlot(g: Group, sys: System, s: uint32, st: Step): System
    requires CanDo(g, sys, s, st)
  {
    sys.(slots := sys.slots[s := Do(P(g, s), SlotAt(g, sys, s), st)])
  }

  function WithPeer(sys: System, i: nat, p: Peer): System
    requires i < |sys.peers|
  {
    sys.(peers := sys.peers[i := p])
  }

  /** What the epilogue of a slot changes above it. */
  function Concluded(p: Peer, dec: ConsensusObj): Peer
    requires Working(p)
  {
    p.(decs := p.decs + [dec], requests := AfterEpilogue(p.requests, p.props[|p.decs|], dec))
  }

  function ExecutedNext(L: Layout, p: Peer): Peer
    requires |p.answers| < |p.decs| && (p.decs[|p.answers|].isNull || Executable(L, p.decs[|p.answers|]))
  {
    var cmds := Executed(L, p.decs[|p.answers|]);
    p.(store := RunStore(L, p.store, cmds), answers := p.answers + [Answers(L, p.store, cmds)])
  }

  ghost predicate Enabled(g: Group, sys: System, a: Act) {
    match a
    case Issue(obj) => !obj.isNull && KeyOf(obj) !in sys.issued
    case Arrive(i, k) => i < |sys.peers| && k in sys.issued && k !in sys.peers[i].arrived
    case Drop(i, obj) =>
      && i < |sys.peers| && !Working(sys.peers[i])
      && IsLeast(sys.peers[i].requests.queue, obj) && KeyOf(obj) in sys.peers[i].requests.discard
    case Begin(i, obj) =>
      && i < |sys.peers| && !Working(sys.peers[i]) && |sys.peers[i].props| < 0x1_0000_0000
      && IsLeast(sys.peers[i].requests.queue, obj) && KeyOf(obj) !in sys.peers[i].requests.discard
      && CanDo(g, sys, |sys.peers[i].props|, Start(i, obj))
    case Inside(s, st) => IsInside(sys, s, st) && CanDo(g, sys, s, st)
    case Conclude(i) =>
      && i < |sys.peers| && Working(sys.peers[i]) && |sys.peers[i].decs| < 0x1_0000_0000
      && CanDo(g, sys, |sys.peers[i].decs|, Finish(i))
    case Execute(i) =>
      && i < |sys.peers| && |sys.peers[i].answers| < |sys.peers[i].decs|
      && var dec := sys.peers[i].decs[|sys.peers[i].answers|]; dec.isNull || Executable(g.layout, dec)
  }

  ghost function After(g: Group, sys: System, a: Act): System
    requires Enabled(g, sys, a)
  {
    match a
    case Issue(obj) => sys.(issued := sys.issued[KeyOf(obj) := obj])
    case Arrive(i, k) =>
      var p := sys.peers[i];
      WithPeer(sys, i, p.(arrived := p.arrived + {k},
                          requests := p.requests.(queue := p.requests.queue + multiset{sys.issued[k]})))
    case Drop(i, obj) =>
      var p := sys.peers[i];
      WithPeer(sys, i, p.(requests := Popped(p.requests, obj)))
    case Begin(i, obj) =>
      var p := sys.peers[i];
      var p' := p.(requests := Popped(p.requests, obj), props := p.props + [obj]);
      InSlot(g, WithPeer(sys, i, p'), |p.props|, Start(i, obj))
    case Inside(s, st) => InSlot(g, sys, s, st)
    case Conclude(i) =>
      var p := sys.peers[i];
      var dec := SlotAt(g, sys, |p.decs|).nodes[i].pc.dec;
      InSlot(g, WithPeer(sys, i, Concluded(p, dec)), |p.decs|, Finish(i))
    case Execute(i) => WithPeer(sys, i, ExecutedNext(g.layout, sys.peers[i]))
  }

  ghost predicate Follows(g: Group, sys: System, sys': System) {
    exists a :: Enabled(g, sys, a) && sys' == After(g, sys, a)
  }

  ghost predicate IsHistory(g: Group, run: seq<System>) {
    && g.Valid()
    && |run| > 0 && run[0] == Start0(g)
    && forall t: nat, u: nat :: u == t + 1 && u < |run| ==> Follows(g, run[t], run[u])
  }

  ghost predicate Occurs(g: Group, sys: System) {
    exists run :: IsHistory(g, run) && run[|run| - 1] == sys
  }

  // ---------------------------------------------------------------- what a server keeps

  /** The object under its key, as the proxy issued it. */
  predicate Known(issued: map<Key, ConsensusObj>, obj: ConsensusObj) {
    KeyOf(obj) in issued && obj == issued[KeyOf(obj)]
  }

  /** A decision is null, or an issued object stamped with its slot. */
  predicate KnownAt(issued: map<Key, ConsensusObj>, s: nat, dec: ConsensusObj) {
    dec.isNull || (s < 0x1_0000_0000 && KeyOf(dec) in issued && dec == issued[KeyOf(dec)].(svrSeq := s))
  }

  predicate DecidesKey(p: Peer, s: nat, k: Key) {
    s < |p.decs| && !p.decs[s].isNull && KeyOf(p.decs[s]) == k
  }

  ghost predicate DecidedKey(p: Peer, k: Key) {
    exists s: nat :: DecidesKey(p, s, k)
  }

  predicate WorksOn(p: Peer, k: Key) {
    Working(p) && KeyOf(p.props[|p.decs|]) == k
  }

  /** The copies of an issued object at a server: queued, or being proposed. */
  function CopyCount(p: Peer, obj: ConsensusObj): nat {
    p.requests.queue[obj] + (if WorksOn(p, KeyOf(obj)) then 1 else 0)
  }

  /** Exactly once, as one server sees it: an undecided request that arrived has one copy, queued
      or being proposed; a decided one is marked for removal exactly while its copy is still to be
      popped (or to arrive). */
  ghost predicate Accounted(p: Peer, obj: ConsensusObj) {
    var k := KeyOf(obj);
    if DecidedKey(p, k) then
      && !WorksOn(p, k)
      && (k in p.requests.discard ==> CopyCount(p, obj) == if k in p.arrived then 1 else 0)
      && (k !in p.requests.discard ==> CopyCount(p, obj) == 0 && k in p.arrived)
    else
      k !in p.requests.discard && CopyCount(p, obj) == if k in p.arrived then 1 else 0
  }

  /** What was decided for a slot is not proposed again for a later one. */
  predicate Unrepeated(p: Peer) {
    forall s: nat, t: nat :: s < t < |p.props| && s < |p.decs| && !p.decs[s].isNull ==>
      KeyOf(p.props[t]) != KeyOf(p.decs[s])
  }

  /** No two slots have the same decision, but for null. */
  predicate DecidedOnce(p: Peer) {
    forall s: nat, t: nat :: s < t < |p.decs| && !p.decs[s].isNull && !p.decs[t].isNull ==>
      KeyOf(p.decs[s]) != KeyOf(p.decs[t])
  }

  /** The store and the answers are those of executing the decisions in slot order. */
  function Replay(L: Layout, decs: seq<ConsensusObj>): (Store, seq<seq<Bytes>>)
    requires AllBatches(L, decs)
  {
    if |decs| == 0 then (map[], [])
    else
      var (store, answers) := Replay(L, decs[..|decs| - 1]);
      var cmds := Executed(L, decs[|decs| - 1]);
      (RunStore(L, store, cmds), answers + [Answers(L, store, cmds)])
  }

  ghost predicate Histories(issued: map<Key, ConsensusObj>, p: Peer) {
    && |p.decs| <= |p.props| <= |p.decs| + 1 && |p.props| <= 0x1_0000_0000
    && (forall s :: 0 <= s < |p.props| ==> Known(issued, p.props[s]))
    && (forall s :: 0 <= s < |p.decs| ==> KnownAt(issued, s, p.decs[s]))
    && Unrepeated(p) && DecidedOnce(p)
  }

  ghost predicate RequestsOk(issued: map<Key, ConsensusObj>, p: Peer) {
    && (forall obj :: obj in p.requests.queue ==> Known(issued, obj))
    && (forall k :: k in p.arrived ==> k in issued)
    && (forall k :: k in p.requests.discard ==> k in issued)
    && (forall k :: k in issued ==> Accounted(p, issued[k]))
  }

  ghost predicate StoreOk(L: Layout, p: Peer) {
    && |p.answers| <= |p.decs| && AllBatches(L, p.decs[..|p.answers|])
    && (p.store, p.answers) == Replay(L, p.decs[..|p.answers|])
  }

  ghost predicate IssuedOk(issued: map<Key, ConsensusObj>) {
    forall k :: k in issued ==> KeyOf(issued[k]) == k && !issued[k].isNull
  }

  ghost predicate PeerOk(L: Layout, issued: map<Key, ConsensusObj>, p: Peer) {
    Histories(issued, p) && RequestsOk(issued, p) && StoreOk(L, p)
  }

  // ---------------------------------------------------------------- how slots and servers are linked

  predicate Broadcast(log: seq<Msg>, obj: ConsensusObj) {
    SentIn(log, 0) && log[0].obj == Some(obj)
  }

  /** A server's place in slot s, seen from what it proposed and decided. */
  predicate Linked(p: Peer, s: uint32, nd: Node, log: seq<Msg>) {
    && (nd.pc.Idle? <==> s >= |p.props|)
    && (s < |p.props| ==> nd.slot.myProposal == p.props[s] && Broadcast(log, p.props[s].(svrSeq := s)))
    && (nd.pc.Done? <==> s < |p.decs|)
    && (s < |p.decs| ==> nd.slot.decision == p.decs[s])
  }

  /** Only a server that started the slot is replied to. */
  ghost predicate RepliesAsked(w: World) {
    forall d, obj :: (d, obj) in w.replies ==> d < |w.nodes| && !w.nodes[d].pc.Idle?
  }

  ghost predicate SlotOk(g: Group, sys: System, s: uint32) {
    var w := SlotAt(g, sys, s);
    && Inv(P(g, s), w)
    && |w.nodes| == |w.logs| == |sys.peers|
    && (forall i: nat :: i < |sys.peers| ==> Linked(sys.peers[i], s, w.nodes[i], w.logs[i]))
    && RepliesAsked(w)
  }

  ghost predicate SysInv(g: Group, sys: System) {
    && g.Valid()
    && |sys.peers| == g.c.nServers
    && IssuedOk(sys.issued)
    && (forall s: uint32 :: SlotOk(g, sys, s))
    && (forall i: nat :: i < |sys.peers| ==> PeerOk(g.layout, sys.issued, sys.peers[i]))
  }
}
