/** Every action keeps the invariant of Replication.dfy. */
module ReplicationInv {
  import opened Messages
  import opened SlotSpec
  import opened Cluster
  import opened ClusterInv
  import opened Agreement
  import opened Pending
  import opened KvStore
  import opened Redis
  import opened Replication

  // ---------------------------------------------------------------- one server

  lemma IssueKeepsPeer(L: Layout, issued: map<Key, ConsensusObj>, p: Peer, obj: ConsensusObj)
    requires PeerOk(L, issued, p) && KeyOf(obj) !in issued
    ensures PeerOk(L, issued[KeyOf(obj) := obj], p)
  {
    hide StoreOk, Unrepeated, DecidedOnce, AllBatches;
    var k := KeyOf(obj);
    var issued' := issued[k := obj];
    assert obj !in p.requests.queue;
    forall s: nat
      ensures !DecidesKey(p, s, k)
    {
      assert s < |p.decs| ==> KnownAt(issued, s, p.decs[s]);
    }
    forall j | j in issued'
      ensures Accounted(p, issued'[j])
    {
      if j != k { assert issued'[j] == issued[j]; }
    }
  }

  lemma ArriveKeepsPeer(L: Layout, issued: map<Key, ConsensusObj>, p: Peer, k: Key)
    requires PeerOk(L, issued, p) && IssuedOk(issued) && k in issued && k !in p.arrived
    ensures PeerOk(L, issued, p.(arrived := p.arrived + {k},
                                 requests := p.requests.(queue := p.requests.queue + multiset{issued[k]})))
  {
    hide StoreOk, Histories;
    var p' := p.(arrived := p.arrived + {k},
                 requests := p.requests.(queue := p.requests.queue + multiset{issued[k]}));
    SameHistories(L, issued, p, p');
    forall j | j in issued
      ensures Accounted(p', issued[j])
    {
      SameDecidedKey(p, p', j);
      assert Accounted(p, issued[j]);
      assert j != k ==> issued[j] != issued[k];
    }
  }

  lemma SameHistories(L: Layout, issued: map<Key, ConsensusObj>, p: Peer, p': Peer)
    requires p'.props == p.props && p'.decs == p.decs && p'.store == p.store && p'.answers == p.answers
    ensures Histories(issued, p) ==> Histories(issued, p')
    ensures StoreOk(L, p) ==> StoreOk(L, p')
  {
  }

  lemma SameDecidedKey(p: Peer, p': Peer, k: Key)
    requires p'.decs == p.decs
    ensures DecidedKey(p', k) == DecidedKey(p, k)
  {
    if s: nat :| DecidesKey(p, s, k) { assert DecidesKey(p', s, k); }
    if s: nat :| DecidesKey(p', s, k) { assert DecidesKey(p, s, k); }
  }

  lemma DropKeepsPeer(L: Layout, issued: map<Key, ConsensusObj>, p: Peer, obj: ConsensusObj)
    requires PeerOk(L, issued, p) && IssuedOk(issued)
    requires !Working(p) && obj in p.requests.queue && KeyOf(obj) in p.requests.discard
    ensures PeerOk(L, issued, p.(requests := Popped(p.requests, obj)))
  {
    hide StoreOk, Histories;
    var p' := p.(requests := Popped(p.requests, obj));
    SameHistories(L, issued, p, p');
    assert Known(issued, obj);
    assert Accounted(p, issued[KeyOf(obj)]);
    forall j | j in issued
      ensures Accounted(p', issued[j])
    {
      SameDecidedKey(p, p', j);
      assert Accounted(p, issued[j]);
      assert j != KeyOf(obj) ==> issued[j] != obj;
    }
  }

  /** A popped object that is not marked was not decided before. */
  lemma PoppedIsUndecided(L: Layout, issued: map<Key, ConsensusObj>, p: Peer, obj: ConsensusObj)
    requires PeerOk(L, issued, p) && obj in p.requests.queue && KeyOf(obj) !in p.requests.discard
    ensures Known(issued, obj) && !DecidedKey(p, KeyOf(obj)) && p.requests.queue[obj] == 1
    ensures KeyOf(obj) in p.arrived && !WorksOn(p, KeyOf(obj))
  {
    hide StoreOk, Histories;
    assert Known(issued, obj);
    assert Accounted(p, issued[KeyOf(obj)]);
  }

  lemma BeginKeepsPeer(L: Layout, issued: map<Key, ConsensusObj>, p: Peer, obj: ConsensusObj)
    requires PeerOk(L, issued, p) && IssuedOk(issued)
    requires !Working(p) && obj in p.requests.queue && KeyOf(obj) !in p.requests.discard
    requires |p.props| < 0x1_0000_0000
    ensures PeerOk(L, issued, p.(requests := Popped(p.requests, obj), props := p.props + [obj]))
  {
    hide StoreOk;
    var p' := p.(requests := Popped(p.requests, obj), props := p.props + [obj]);
    PoppedIsUndecided(L, issued, p, obj);
    SameStore(L, p, p');
    BeginHistories(issued, p, p', obj);
    hide Histories;
    forall j | j in issued
      ensures Accounted(p', issued[j])
    {
      SameDecidedKey(p, p', j);
      assert Accounted(p, issued[j]);
      assert j != KeyOf(obj) ==> issued[j] != obj;
    }
  }

  lemma SameStore(L: Layout, p: Peer, p': Peer)
    requires StoreOk(L, p) && p'.store == p.store && p'.answers == p.answers
    requires |p'.decs| >= |p.decs| && p'.decs[..|p.decs|] == p.decs
    ensures StoreOk(L, p')
  {
    assert p'.decs[..|p.answers|] == p.decs[..|p.answers|];
  }

  lemma BeginHistories(issued: map<Key, ConsensusObj>, p: Peer, p': Peer, obj: ConsensusObj)
    requires Histories(issued, p) && !Working(p) && Known(issued, obj) && !DecidedKey(p, KeyOf(obj))
    requires p'.props == p.props + [obj] && p'.decs == p.decs && |p.props| < 0x1_0000_0000
    ensures Histories(issued, p')
  {
    forall s: nat, t: nat | s < t < |p'.props| && s < |p'.decs| && !p'.decs[s].isNull
      ensures KeyOf(p'.props[t]) != KeyOf(p'.decs[s])
    {
      if t == |p.props| {
        assert DecidesKey(p, s, KeyOf(p.decs[s]));
      } else {
        assert p'.props[t] == p.props[t];
      }
    }
  }

  lemma ConcludeHistories(issued: map<Key, ConsensusObj>, p: Peer, p': Peer, dec: ConsensusObj)
    requires Histories(issued, p) && Working(p) && IssuedOk(issued)
    requires KnownAt(issued, |p.decs|, dec) && (!dec.isNull ==> !DecidedKey(p, KeyOf(dec)))
    requires p'.props == p.props && p'.decs == p.decs + [dec]
    ensures Histories(issued, p')
  {
    forall s: nat, t: nat | s < t < |p'.decs| && !p'.decs[s].isNull && !p'.decs[t].isNull
      ensures KeyOf(p'.decs[s]) != KeyOf(p'.decs[t])
    {
      if t == |p.decs| { assert DecidesKey(p, s, KeyOf(p.decs[s])); }
    }
  }

  lemma DecidedKeyAppend(p: Peer, p': Peer, dec: ConsensusObj, k: Key)
    requires p'.decs == p.decs + [dec]
    ensures DecidedKey(p', k) <==> DecidedKey(p, k) || (!dec.isNull && KeyOf(dec) == k)
  {
    if s: nat :| DecidesKey(p, s, k) { assert DecidesKey(p', s, k); }
    if s: nat :| DecidesKey(p', s, k) { assert s < |p.decs| ==> DecidesKey(p, s, k); }
    if !dec.isNull && KeyOf(dec) == k { assert DecidesKey(p', |p.decs|, k); }
  }

  lemma ConcludeKeepsPeer(L: Layout, issued: map<Key, ConsensusObj>, p: Peer, dec: ConsensusObj)
    requires PeerOk(L, issued, p) && IssuedOk(issued) && Working(p)
    requires KnownAt(issued, |p.decs|, dec) && (!dec.isNull ==> !DecidedKey(p, KeyOf(dec)))
    ensures PeerOk(L, issued, Concluded(p, dec))
  {
    hide StoreOk, RequestsOk;
    var p' := Concluded(p, dec);
    SameStore(L, p, p');
    ConcludeHistories(issued, p, p', dec);
    ConcludeRequests(issued, p, dec);
  }

  lemma ConcludeRequests(issued: map<Key, ConsensusObj>, p: Peer, dec: ConsensusObj)
    requires Histories(issued, p) && RequestsOk(issued, p) && IssuedOk(issued) && Working(p)
    requires KnownAt(issued, |p.decs|, dec) && (!dec.isNull ==> !DecidedKey(p, KeyOf(dec)))
    ensures RequestsOk(issued, Concluded(p, dec))
  {
    hide AllBatches, Unrepeated, DecidedOnce;
    var p' := Concluded(p, dec);
    var mine := p.props[|p.decs|];
    assert Known(issued, mine) && !Working(p');
    hide Histories, IssuedOk;
    forall j | j in issued
      ensures Accounted(p', issued[j])
    {
      DecidedKeyAppend(p, p', dec, j);
      assert Accounted(p, issued[j]);
      assert j != KeyOf(mine) ==> issued[j] != mine;
    }
  }

  lemma ExecuteKeepsPeer(L: Layout, issued: map<Key, ConsensusObj>, p: Peer)
    requires PeerOk(L, issued, p) && |p.answers| < |p.decs|
    requires p.decs[|p.answers|].isNull || Executable(L, p.decs[|p.answers|])
    ensures PeerOk(L, issued, ExecutedNext(L, p))
  {
    hide Histories, RequestsOk, StoreOk, Executed;
    var p' := ExecutedNext(L, p);
    ExecuteHistories(issued, p, p');
    ExecuteRequests(issued, p, p');
    ExecuteStore(L, p);
  }

  lemma ExecuteHistories(issued: map<Key, ConsensusObj>, p: Peer, p': Peer)
    requires Histories(issued, p) && p'.props == p.props && p'.decs == p.decs
    ensures Histories(issued, p')
  {
  }

  lemma ExecuteRequests(issued: map<Key, ConsensusObj>, p: Peer, p': Peer)
    requires RequestsOk(issued, p) && p'.props == p.props && p'.decs == p.decs
    requires p'.requests == p.requests && p'.arrived == p.arrived
    ensures RequestsOk(issued, p')
  {
    forall j | j in issued
      ensures Accounted(p', issued[j])
    {
      SameDecidedKey(p, p', KeyOf(issued[j]));
      assert Accounted(p, issued[j]);
    }
  }

  lemma ExecuteStore(L: Layout, p: Peer)
    requires StoreOk(L, p) && |p.answers| < |p.decs|
    requires p.decs[|p.answers|].isNull || Executable(L, p.decs[|p.answers|])
    ensures StoreOk(L, ExecutedNext(L, p))
  {
    hide Executed, Executable, RunStore, Answers;
    var front, decs' := p.decs[..|p.answers|], p.decs[..|p.answers| + 1];
    assert decs'[..|front|] == front && decs'[|front|] == p.decs[|p.answers|];
  }

  // ---------------------------------------------------------------- one slot

  /** Nothing that links a server to the slot changes. */
  predicate SamePlace(nd: Node, nd': Node) {
    && nd'.pc.Idle? == nd.pc.Idle? && nd'.pc.Done? == nd.pc.Done?
    && nd'.slot.myProposal == nd.slot.myProposal && nd'.slot.decision == nd.slot.decision
  }

  ghost predicate SameRest(w: World, w': World, but: int) {
    && |w'.nodes| == |w.nodes| && |w'.logs| == |w.logs|
    && (forall j: nat :: j < |w.nodes| && j != but ==> SamePlace(w.nodes[j], w'.nodes[j]))
    && (forall j: nat :: j < |w.logs| && SentIn(w.logs[j], 0) ==>
          SentIn(w'.logs[j], 0) && w'.logs[j][0] == w.logs[j][0])
  }

  lemma AfterWaitPlace(P: Params, i: nat, nd: Node)
    requires i < P.c.nServers && P.Valid() && InRound(P, nd.slot) && nd.pc.Ready?
    ensures SamePlace(nd, AfterWait(P, i, nd).0)
  {
    hide RoundVerdict, HasProposal, MajV, ReturnValue;
  }

  lemma HandlePlace(P: Params, v: SlotState, from: nat, m: Msg)
    ensures Handle(P, v, from, m).myProposal == v.myProposal && Handle(P, v, from, m).decision == v.decision
  {
  }

  lemma InsidePlaces(P: Params, w: World, st: Step)
    requires Inv(P, w) && Can(P, w, st) && !st.Start? && !st.Finish?
    ensures SameRest(w, Do(P, w, st), -1)
  {
    hide Inv, AfterWait, Handle, RoundVerdict, ReplyFor;
    InvShape(P, w);
    var w' := Do(P, w, st);
    match st
    case Proceed(i) => AfterWaitPlace(P, i, w.nodes[i]);
    case Deliver(r, s) => HandlePlace(P, w.nodes[r].slot, s, w.logs[s][w.read[r][s]]);
    case _ =>
  }

  lemma StartPlaces(P: Params, w: World, i: nat, obj: ConsensusObj)
    requires Inv(P, w) && Can(P, w, Start(i, obj)) && |w.nodes| == |w.logs|
    ensures var w' := Do(P, w, Start(i, obj));
      && SameRest(w, w', i) && w'.nodes[i].pc.Waiting? && w'.nodes[i].slot.myProposal == obj
      && Broadcast(w'.logs[i], obj.(svrSeq := P.seqNo))
  {
    hide LogOk, JustOk, QueueOk, HeardOk, CompleteOk, DecOk;
    assert NodeInv(P, i, w.nodes[i], w.logs[i]);
  }

  lemma FinishPlaces(P: Params, w: World, i: nat)
    requires Inv(P, w) && Can(P, w, Finish(i))
    ensures var w' := Do(P, w, Finish(i));
      && SameRest(w, w', i) && w'.nodes[i].pc.Done? && w'.nodes[i].slot.decision == w.nodes[i].pc.dec
      && w'.nodes[i].slot.myProposal == w.nodes[i].slot.myProposal
  {
    hide Inv;
    InvShape(P, w);
  }

  lemma RepliesKept(P: Params, w: World, st: Step)
    requires Inv(P, w) && Can(P, w, st) && RepliesAsked(w)
    ensures RepliesAsked(Do(P, w, st))
  {
    hide Inv, AfterWait, Handle, RoundVerdict, ReplyFor;
    InvShape(P, w);
    var w' := Do(P, w, st);
    if st.Proceed? { AfterWaitPlace(P, st.i, w.nodes[st.i]); }
    if st.Deliver? && w.logs[st.s][w.read[st.r][st.s]].typ == PROPOSAL_REQUEST {
      RequestSender(P, w, st.s, w.read[st.r][st.s]);
    }
  }

  lemma RequestSender(P: Params, w: World, s: nat, k: nat)
    requires Inv(P, w) && s < |w.logs| && k < |w.logs[s]| && w.logs[s][k].typ == PROPOSAL_REQUEST
    ensures w.logs[s][k].phase == s < |w.nodes| && !w.nodes[s].pc.Idle?
  {
    hide JustOk, QueueOk, HeardOk, CompleteOk, DecOk;
    assert NodeInv(P, s, w.nodes[s], w.logs[s]);
  }

  // ---------------------------------------------------------------- all slots

  lemma SlotParts(g: Group, sys: System, s: uint32)
    requires SysInv(g, sys)
    ensures SlotOk(g, sys, s) && Shape(P(g, s), SlotAt(g, sys, s))
  {
    hide Inv;
    assert SlotOk(g, sys, s);
    InvShape(P(g, s), SlotAt(g, sys, s));
  }

  /** What was broadcast as a proposal is an issued object, proposed by its sender. */
  lemma SentProposal(g: Group, sys: System, s: uint32, j: nat)
    requires SysInv(g, sys) && Sent(SlotAt(g, sys, s), j, 0)
    ensures j < |sys.peers| && s < |sys.peers[j].props| && Known(sys.issued, sys.peers[j].props[s])
    ensures SlotAt(g, sys, s).logs[j][0].obj == Some(sys.peers[j].props[s].(svrSeq := s))
  {
    hide JustOk, QueueOk, HeardOk, CompleteOk, DecOk, RequestsOk, StoreOk, Unrepeated, DecidedOnce;
    SlotParts(g, sys, s);
    var w := SlotAt(g, sys, s);
    assert NodeInv(P(g, s), j, w.nodes[j], w.logs[j]);
    assert PeerOk(g.layout, sys.issued, sys.peers[j]);
  }

  lemma ObjectsNamed(g: Group, sys: System, s: uint32)
    requires SysInv(g, sys)
    ensures KeysNameObjects(SlotAt(g, sys, s))
  {
    hide SysInv;
    var w := SlotAt(g, sys, s);
    forall i: nat, j: nat | Sent(w, i, 0) && Sent(w, j, 0) && LabelOf(w.logs[i][0]) == LabelOf(w.logs[j][0])
      ensures w.logs[i][0].obj == w.logs[j][0].obj
    {
      SentProposal(g, sys, s, i);
      SentProposal(g, sys, s, j);
      ProposalLabel(g, sys, s, i);
      ProposalLabel(g, sys, s, j);
    }
  }

  lemma ProposalLabel(g: Group, sys: System, s: uint32, j: nat)
    requires SysInv(g, sys) && Sent(SlotAt(g, sys, s), j, 0)
    ensures SlotAt(g, sys, s).logs[j][0].obj.Some?
    ensures LabelOf(SlotAt(g, sys, s).logs[j][0]) == OfKey(KeyOf(SlotAt(g, sys, s).logs[j][0].obj.value))
  {
    hide Inv;
    SlotParts(g, sys, s);
    SentMsg(P(g, s), SlotAt(g, sys, s), j, 0);
  }

  /** Two servers that decided a slot hold the same decision. */
  lemma SameDecision(g: Group, sys: System, i: nat, j: nat, s: uint32)
    requires SysInv(g, sys) && i < |sys.peers| && j < |sys.peers|
    requires s < |sys.peers[i].decs| && s < |sys.peers[j].decs|
    ensures sys.peers[i].decs[s] == sys.peers[j].decs[s]
  {
    hide SysInv, Backed, Inv;
    ObjectsNamed(g, sys, s);
    DecisionBackedAt(g, sys, i, s);
    DecisionBackedAt(g, sys, j, s);
    SlotInv(g, sys, s);
    BackedEqual(P(g, s), SlotAt(g, sys, s), sys.peers[i].decs[s], sys.peers[j].decs[s]);
  }

  lemma SlotInv(g: Group, sys: System, s: uint32)
    requires SysInv(g, sys)
    ensures Inv(P(g, s), SlotAt(g, sys, s))
  {
    hide Inv;
    SlotParts(g, sys, s);
  }

  lemma DecisionBackedAt(g: Group, sys: System, i: nat, s: uint32)
    requires SysInv(g, sys) && i < |sys.peers| && s < |sys.peers[i].decs|
    ensures Backed(P(g, s), SlotAt(g, sys, s), sys.peers[i].decs[s])
  {
    hide Backed, LogOk, JustOk, QueueOk, HeardOk, CompleteOk, DecOk, PeerOk, IssuedOk;
    SlotParts(g, sys, s);
    var w := SlotAt(g, sys, s);
    assert NodeInv(P(g, s), i, w.nodes[i], w.logs[i]);
    DoneBacked(P(g, s), w, i);
  }

  /** A backed decision of a slot was proposed for it by some server, in this very form. */
  lemma BackedProposer(g: Group, sys: System, s: uint32, dec: ConsensusObj) returns (j: nat)
    requires SysInv(g, sys) && Backed(P(g, s), SlotAt(g, sys, s), dec) && !dec.isNull
    ensures j < |sys.peers| && s < |sys.peers[j].props| && Known(sys.issued, sys.peers[j].props[s])
    ensures dec == sys.peers[j].props[s].(svrSeq := s)
  {
    hide SysInv, MajorityAt, DecidedBit, Inv;
    SlotInv(g, sys, s);
    var i: nat :| MajorityAt(P(g, s), SlotAt(g, sys, s), i, dec);
    j := ProposerOf(P(g, s), SlotAt(g, sys, s), i, dec);
    SentProposal(g, sys, s, j);
  }

  /** A decision about to be made for the slot a server works on was not made there before. */
  lemma NotDecidedBefore(g: Group, sys: System, i: nat, s: uint32, dec: ConsensusObj)
    requires SysInv(g, sys) && i < |sys.peers| && |sys.peers[i].decs| == s
    requires Backed(P(g, s), SlotAt(g, sys, s), dec) && !dec.isNull
    ensures KnownAt(sys.issued, s, dec) && !DecidedKey(sys.peers[i], KeyOf(dec))
  {
    hide Backed, SlotOk, RequestsOk, StoreOk, Known, KnownAt, AllBatches, IssuedOk;
    var j := BackedProposer(g, sys, s, dec);
    KnownStamped(sys.issued, sys.peers[j].props[s], s);
    assert PeerOk(g.layout, sys.issued, sys.peers[j]);
    forall t: nat
      ensures !DecidesKey(sys.peers[i], t, KeyOf(dec))
    {
      if t < s {
        SameDecision(g, sys, i, j, t);
        assert !sys.peers[j].decs[t].isNull ==> KeyOf(sys.peers[j].props[s]) != KeyOf(sys.peers[j].decs[t]);
      }
    }
  }

  lemma KnownStamped(issued: map<Key, ConsensusObj>, obj: ConsensusObj, s: uint32)
    requires Known(issued, obj)
    ensures KnownAt(issued, s, obj.(svrSeq := s)) && KeyOf(obj.(svrSeq := s)) == KeyOf(obj)
  {
  }

  // ---------------------------------------------------------------- every action

  predicate SameSlotHistory(p: Peer, p': Peer, s: uint32) {
    && (s < |p.props| <==> s < |p'.props|) && (s < |p.props| ==> p'.props[s] == p.props[s])
    && (s < |p.decs| <==> s < |p'.decs|) && (s < |p.decs| ==> p'.decs[s] == p.decs[s])
  }

  lemma SlotUntouched(g: Group, sys: System, sys': System, s: uint32)
    requires SlotOk(g, sys, s) && SlotAt(g, sys', s) == SlotAt(g, sys, s) && |sys'.peers| == |sys.peers|
    requires forall i: nat :: i < |sys.peers| ==> SameSlotHistory(sys.peers[i], sys'.peers[i], s)
    ensures SlotOk(g, sys', s)
  {
    hide Inv, RepliesAsked;
  }

  /** Actions that leave the slots alone. */
  lemma PeerActionKeeps(g: Group, sys: System, sys': System, i: nat, p': Peer)
    requires SysInv(g, sys) && i < |sys.peers| && sys' == WithPeer(sys, i, p')
    requires p'.props == sys.peers[i].props && p'.decs == sys.peers[i].decs
    requires PeerOk(g.layout, sys.issued, p')
    ensures SysInv(g, sys')
  {
    hide PeerOk, SlotOk, IssuedOk;
    forall s: uint32
      ensures SlotOk(g, sys', s)
    {
      assert SlotOk(g, sys, s);
      SlotUntouched(g, sys, sys', s);
    }
  }

  lemma IssueKeeps(g: Group, sys: System, obj: ConsensusObj)
    requires SysInv(g, sys) && Enabled(g, sys, Issue(obj))
    ensures SysInv(g, After(g, sys, Issue(obj)))
  {
    hide PeerOk, SlotOk;
    var sys' := After(g, sys, Issue(obj));
    forall s: uint32
      ensures SlotOk(g, sys', s)
    {
      assert SlotOk(g, sys, s);
      SlotUntouched(g, sys, sys', s);
    }
    forall i: nat | i < |sys.peers|
      ensures PeerOk(g.layout, sys'.issued, sys'.peers[i])
    {
      IssueKeepsPeer(g.layout, sys.issued, sys.peers[i], obj);
    }
  }

  /** A step inside a slot, with the change of the server that it goes with. */
  lemma SlotActionKeeps(g: Group, sys: System, sys': System, s: uint32, st: Step, i: nat)
    requires SysInv(g, sys) && i < |sys.peers| && CanDo(g, sys, s, st)
    requires |sys'.peers| == |sys.peers| && sys'.issued == sys.issued
    requires sys'.slots == sys.slots[s := Do(P(g, s), SlotAt(g, sys, s), st)]
    requires forall j: nat :: j < |sys.peers| && j != i ==> sys'.peers[j] == sys.peers[j]
    requires forall t: uint32 :: t != s ==> SameSlotHistory(sys.peers[i], sys'.peers[i], t)
    requires SameRest(SlotAt(g, sys, s), Do(P(g, s), SlotAt(g, sys, s), st), i)
    requires var w' := Do(P(g, s), SlotAt(g, sys, s), st);
      i < |w'.nodes| && i < |w'.logs| && Linked(sys'.peers[i], s, w'.nodes[i], w'.logs[i])
    requires PeerOk(g.layout, sys.issued, sys'.peers[i])
    ensures SysInv(g, sys')
  {
    hide PeerOk, IssuedOk, Inv, Do, Can, RepliesAsked;
    var w, w' := SlotAt(g, sys, s), Do(P(g, s), SlotAt(g, sys, s), st);
    SlotParts(g, sys, s);
    StepKeeps(P(g, s), w, st);
    RepliesKept(P(g, s), w, st);
    assert SlotAt(g, sys', s) == w';
    hide SlotOk;
    assert SlotOk(g, sys', s) by {
      assert SlotOk(g, sys, s);
      SlotMoved(g, sys, sys', s, w', i);
    }
    forall t: uint32 | t != s
      ensures SlotOk(g, sys', t)
    {
      assert SlotOk(g, sys, t);
      forall j: nat | j < |sys.peers|
        ensures SameSlotHistory(sys.peers[j], sys'.peers[j], t)
      {
        assert j != i ==> sys'.peers[j] == sys.peers[j];
      }
      SlotUntouched(g, sys, sys', t);
    }
  }

  lemma SlotMoved(g: Group, sys: System, sys': System, s: uint32, w': World, i: nat)
    requires SlotOk(g, sys, s) && SlotAt(g, sys', s) == w' && Inv(P(g, s), w') && RepliesAsked(w')
    requires |sys'.peers| == |sys.peers| && i < |sys.peers|
    requires forall j: nat :: j < |sys.peers| && j != i ==> sys'.peers[j] == sys.peers[j]
    requires SameRest(SlotAt(g, sys, s), w', i)
    requires i < |w'.nodes| && i < |w'.logs| && Linked(sys'.peers[i], s, w'.nodes[i], w'.logs[i])
    ensures SlotOk(g, sys', s)
  {
    hide Inv, RepliesAsked;
    var w := SlotAt(g, sys, s);
    forall j: nat | j < |sys.peers|
      ensures Linked(sys'.peers[j], s, w'.nodes[j], w'.logs[j])
    {
      if j != i { assert Linked(sys.peers[j], s, w.nodes[j], w.logs[j]); }
    }
  }

  lemma InsideKeeps(g: Group, sys: System, s: uint32, st: Step)
    requires SysInv(g, sys) && Enabled(g, sys, Inside(s, st))
    ensures SysInv(g, After(g, sys, Inside(s, st)))
  {
    hide PeerOk, IssuedOk, Inv, Do, Can, RepliesAsked;
    var w := SlotAt(g, sys, s);
    SlotParts(g, sys, s);
    InsidePlaces(P(g, s), w, st);
    assert Linked(sys.peers[0], s, w.nodes[0], w.logs[0]);
    assert PeerOk(g.layout, sys.issued, sys.peers[0]);
    SlotActionKeeps(g, sys, After(g, sys, Inside(s, st)), s, st, 0);
  }

  lemma BeginKeeps(g: Group, sys: System, i: nat, obj: ConsensusObj)
    requires SysInv(g, sys) && Enabled(g, sys, Begin(i, obj))
    ensures SysInv(g, After(g, sys, Begin(i, obj)))
  {
    hide IssuedOk, PeerOk, Inv, Do, Can, RepliesAsked;
    var p, s := sys.peers[i], |sys.peers[i].props|;
    var sys' := After(g, sys, Begin(i, obj));
    assert PeerOk(g.layout, sys.issued, p);
    BeginKeepsPeer(g.layout, sys.issued, p, obj);
    SlotParts(g, sys, s);
    var w := SlotAt(g, sys, s);
    StartPlaces(P(g, s), w, i, obj);
    assert Linked(p, s, w.nodes[i], w.logs[i]);
    SlotActionKeeps(g, sys, sys', s, Step.Start(i, obj), i);
  }

  lemma ConcludeKeeps(g: Group, sys: System, i: nat)
    requires SysInv(g, sys) && Enabled(g, sys, Conclude(i))
    ensures SysInv(g, After(g, sys, Conclude(i)))
  {
    hide IssuedOk, PeerOk, Inv, Do, RepliesAsked, Backed, DecidedKey, KnownAt;
    var p, s := sys.peers[i], |sys.peers[i].decs|;
    var w := SlotAt(g, sys, s);
    var dec := w.nodes[i].pc.dec;
    var sys' := After(g, sys, Conclude(i));
    SlotParts(g, sys, s);
    DecidingBacked(P(g, s), w, i);
    if !dec.isNull { NotDecidedBefore(g, sys, i, s, dec); }
    NullKnown(sys.issued, s, dec);
    assert PeerOk(g.layout, sys.issued, p);
    ConcludeKeepsPeer(g.layout, sys.issued, p, dec);
    FinishPlaces(P(g, s), w, i);
    assert Linked(p, s, w.nodes[i], w.logs[i]);
    SlotActionKeeps(g, sys, sys', s, Finish(i), i);
  }

  lemma NullKnown(issued: map<Key, ConsensusObj>, s: nat, dec: ConsensusObj)
    ensures dec.isNull ==> KnownAt(issued, s, dec)
  {
  }

  lemma DecidingBacked(P: Params, w: World, i: nat)
    requires Inv(P, w) && i < |w.nodes| && w.nodes[i].pc.Deciding?
    ensures Backed(P, w, w.nodes[i].pc.dec)
  {
    hide LogOk, JustOk, QueueOk, HeardOk, CompleteOk, Backed;
    assert DecOk(P, w, w.nodes[i], w.logs[i]);
  }

  lemma ActKeeps(g: Group, sys: System, a: Act)
    requires SysInv(g, sys) && Enabled(g, sys, a)
    ensures SysInv(g, After(g, sys, a))
  {
    hide SlotOk, PeerOk, IssuedOk, Do, Can;
    match a
    case Issue(obj) => IssueKeeps(g, sys, obj);
    case Arrive(i, k) =>
      ArriveKeepsPeer(g.layout, sys.issued, sys.peers[i], k);
      PeerActionKeeps(g, sys, After(g, sys, a), i, After(g, sys, a).peers[i]);
    case Drop(i, obj) =>
      DropKeepsPeer(g.layout, sys.issued, sys.peers[i], obj);
      PeerActionKeeps(g, sys, After(g, sys, a), i, After(g, sys, a).peers[i]);
    case Begin(i, obj) => BeginKeeps(g, sys, i, obj);
    case Inside(s, st) => InsideKeeps(g, sys, s, st);
    case Conclude(i) => ConcludeKeeps(g, sys, i);
    case Execute(i) =>
      ExecuteKeepsPeer(g.layout, sys.issued, sys.peers[i]);
      PeerActionKeeps(g, sys, After(g, sys, a), i, After(g, sys, a).peers[i]);
  }

  lemma Start0Ok(g: Group)
    requires g.Valid()
    ensures SysInv(g, Start0(g))
  {
    hide Inv;
    forall s: uint32
      ensures SlotOk(g, Start0(g), s)
    {
      InitInv(P(g, s));
    }
  }

  lemma {:induction false} HistoryInv(g: Group, run: seq<System>, t: nat)
    requires IsHistory(g, run) && t < |run|
    ensures SysInv(g, run[t])
  {
    hide SysInv, Enabled, After;
    if t == 0 {
      Start0Ok(g);
    } else {
      HistoryInv(g, run, t - 1);
      assert Follows(g, run[t - 1], run[t]);
      var a :| Enabled(g, run[t - 1], a) && run[t] == After(g, run[t - 1], a);
      ActKeeps(g, run[t - 1], a);
    }
  }

  lemma OccursInv(g: Group, sys: System)
    requires Occurs(g, sys)
    ensures SysInv(g, sys)
  {
    hide SysInv;
    var run :| IsHistory(g, run) && run[|run| - 1] == sys;
    HistoryInv(g, run, |run| - 1);
  }
}
