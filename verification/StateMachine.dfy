/** What clients are promised: every request is decided in one slot at most, no request is lost, and
    all servers apply the same commands in the same order and give the same answers. */
module StateMachine {
  import opened Messages
  import opened Cluster
  import opened Pending
  import opened KvStore
  import opened Redis
  import opened Replication
  import opened ReplicationInv

  // ---------------------------------------------------------------- over time

  lemma DecisionsStay(g: Group, sys: System, a: Act, i: nat)
    requires Enabled(g, sys, a) && i < |sys.peers|
    ensures |After(g, sys, a).peers| == |sys.peers|
    ensures sys.peers[i].decs <= After(g, sys, a).peers[i].decs
  {
    hide Do, Can, AfterEpilogue, Popped, RunStore, Answers, IsLeast;
  }

  lemma {:induction false} DecisionsGrow(g: Group, run: seq<System>, t: nat, t': nat, i: nat)
    requires IsHistory(g, run) && t <= t' < |run| && i < |run[t].peers|
    ensures i < |run[t'].peers| && run[t].peers[i].decs <= run[t'].peers[i].decs
  {
    hide IsHistory, Enabled, After;
    if t < t' {
      DecisionsGrow(g, run, t, t' - 1, i);
      var a := StepOf(g, run, t' - 1);
      DecisionsStay(g, run[t' - 1], a, i);
    }
  }

  lemma StepOf(g: Group, run: seq<System>, t: nat) returns (a: Act)
    requires IsHistory(g, run) && t + 1 < |run|
    ensures Enabled(g, run[t], a) && run[t + 1] == After(g, run[t], a)
  {
    hide Enabled, After;
    assert Follows(g, run[t], run[t + 1]);
    a :| Enabled(g, run[t], a) && run[t + 1] == After(g, run[t], a);
  }

  /** At any two moments of a history, the decisions of two servers agree slot by slot. */
  lemma LogsAgree(g: Group, run: seq<System>, t: nat, t': nat, i: nat, j: nat, s: nat)
    requires IsHistory(g, run) && t < |run| && t' < |run| && i < |run[t].peers| && j < |run[t'].peers|
    requires s < |run[t].peers[i].decs| && s < |run[t'].peers[j].decs|
    ensures run[t].peers[i].decs[s] == run[t'].peers[j].decs[s]
  {
    hide SysInv, IsHistory;
    var last := if t <= t' then t' else t;
    HistoryInv(g, run, last);
    DecisionsGrow(g, run, t, last, i);
    DecisionsGrow(g, run, t', last, j);
    FewSlots(g, run[last], i);
    SameDecision(g, run[last], i, j, s);
  }

  lemma FewSlots(g: Group, sys: System, i: nat)
    requires SysInv(g, sys) && i < |sys.peers|
    ensures |sys.peers[i].decs| <= |sys.peers[i].props| <= |sys.peers[i].decs| + 1
    ensures |sys.peers[i].props| <= 0x1_0000_0000
  {
    hide SlotOk, IssuedOk, RequestsOk, StoreOk;
    assert PeerOk(g.layout, sys.issued, sys.peers[i]);
  }

  // ---------------------------------------------------------------- exactly once

  /** No request is decided in two slots, at whichever servers one looks. */
  lemma ExactlyOnce(g: Group, sys: System, i: nat, j: nat, s: nat, t: nat)
    requires Occurs(g, sys) && i < |sys.peers| && j < |sys.peers|
    requires s < |sys.peers[i].decs| && t < |sys.peers[j].decs| && s != t
    requires !sys.peers[i].decs[s].isNull && !sys.peers[j].decs[t].isNull
    ensures KeyOf(sys.peers[i].decs[s]) != KeyOf(sys.peers[j].decs[t])
  {
    hide Occurs, SlotOk, IssuedOk, RequestsOk, StoreOk;
    OccursInv(g, sys);
    FewSlots(g, sys, i);
    FewSlots(g, sys, j);
    if s < t {
      SameDecision(g, sys, i, j, s);
      assert PeerOk(g.layout, sys.issued, sys.peers[j]);
    } else {
      SameDecision(g, sys, i, j, t);
      assert PeerOk(g.layout, sys.issued, sys.peers[i]);
    }
  }

  /** A request that reached a server and is not decided there is queued or being proposed there,
      once; after the decision, a Discard mark is there exactly while a copy is still to be popped
      or to arrive, and nothing else of the request is left. */
  lemma RequestsAccountedFor(g: Group, sys: System, i: nat, obj: ConsensusObj)
    requires Occurs(g, sys) && i < |sys.peers| && Known(sys.issued, obj)
    ensures Accounted(sys.peers[i], obj)
  {
    hide Occurs, SlotOk, StoreOk, Histories, Accounted;
    OccursInv(g, sys);
    assert PeerOk(g.layout, sys.issued, sys.peers[i]);
  }

  /** Nothing else is ever queued or proposed. */
  lemma OnlyRequestsAreQueued(g: Group, sys: System, i: nat, obj: ConsensusObj)
    requires Occurs(g, sys) && i < |sys.peers| && (obj in sys.peers[i].requests.queue || obj in sys.peers[i].props)
    ensures Known(sys.issued, obj)
  {
    hide Occurs, SlotOk, StoreOk, Accounted, Known;
    OccursInv(g, sys);
    assert PeerOk(g.layout, sys.issued, sys.peers[i]);
  }

  /** A non-null decision is what a proxy issued, stamped with the slot; so the proxy can execute the
      next decision exactly when that object can be executed. */
  lemma DecisionsAreIssued(g: Group, sys: System, i: nat, s: nat)
    requires Occurs(g, sys) && i < |sys.peers| && s < |sys.peers[i].decs|
    ensures KnownAt(sys.issued, s, sys.peers[i].decs[s])
    ensures s == |sys.peers[i].answers| ==>
      (Enabled(g, sys, Execute(i)) <==>
        sys.peers[i].decs[s].isNull || Executable(g.layout, sys.issued[KeyOf(sys.peers[i].decs[s])]))
  {
    hide Occurs, SlotOk, RequestsOk, StoreOk, Unrepeated, DecidedOnce, IssuedOk, FitsBuffers, AllCmds, Offset;
    OccursInv(g, sys);
    assert PeerOk(g.layout, sys.issued, sys.peers[i]);
  }

  /** A decision that cannot be executed stops every server there: at no moment of the history has
      any server executed that slot. */
  lemma UnexecutableStops(g: Group, run: seq<System>, t: nat, t': nat, i: nat, j: nat, s: nat)
    requires IsHistory(g, run) && t < |run| && t' < |run| && i < |run[t].peers| && j < |run[t'].peers|
    requires s < |run[t].peers[i].decs|
    requires !run[t].peers[i].decs[s].isNull && !Executable(g.layout, run[t].peers[i].decs[s])
    ensures |run[t'].peers[j].answers| <= s
  {
    hide IsHistory, SysInv, Executable;
    HistoryInv(g, run, t');
    if s < |run[t'].peers[j].answers| {
      ExecutedWasExecutable(g, run[t'], j, s);
      LogsAgree(g, run, t, t', i, j, s);
    }
  }

  lemma ExecutedWasExecutable(g: Group, sys: System, j: nat, s: nat)
    requires SysInv(g, sys) && j < |sys.peers| && s < |sys.peers[j].answers|
    ensures s < |sys.peers[j].decs| && (sys.peers[j].decs[s].isNull || Executable(g.layout, sys.peers[j].decs[s]))
  {
    hide SysInv, Executable, Replay;
    StoreOkAt(g, sys, j);
    var p := sys.peers[j];
    assert p.decs[..|p.answers|][s] == p.decs[s];
  }

  // ---------------------------------------------------------------- the executor is never misled

  /** A server takes a pending request for its next slot into a slot it did not start before. */
  lemma BeginStartsAFreshSlot(g: Group, sys: System, i: nat, obj: ConsensusObj)
    requires Occurs(g, sys) && i < |sys.peers|
    requires !Working(sys.peers[i]) && |sys.peers[i].props| < 0x1_0000_0000
    requires IsLeast(sys.peers[i].requests.queue, obj) && KeyOf(obj) !in sys.peers[i].requests.discard
    ensures Enabled(g, sys, Begin(i, obj))
  {
    hide Occurs, Inv, Histories, StoreOk, Accounted, Executable;
    OccursInv(g, sys);
    var p := sys.peers[i];
    SlotParts(g, sys, |p.props|);
    assert PeerOk(g.layout, sys.issued, p);
    assert Known(sys.issued, obj);
    var w := SlotAt(g, sys, |p.props|);
    assert Linked(p, |p.props|, w.nodes[i], w.logs[i]);
  }

  /** A ProposalReply to a server is never for a slot ahead of the one it works on; so the first
      one that is not older than the slot is for that slot. */
  lemma RepliesAreForThisSlot(g: Group, sys: System, i: uint32, t: uint32, obj: ConsensusObj)
    requires Occurs(g, sys) && (i, obj) in SlotAt(g, sys, t).replies
    ensures i < |sys.peers| && t < |sys.peers[i].props|
    ensures |sys.peers[i].props| - 1 <= t ==> t == |sys.peers[i].props| - 1
  {
    hide Occurs, Inv;
    OccursInv(g, sys);
    SlotParts(g, sys, t);
    var w := SlotAt(g, sys, t);
    assert Linked(sys.peers[i], t, w.nodes[i], w.logs[i]);
  }

  // ---------------------------------------------------------------- state machine replication

  /** The commands that a server executed so far, in order. */
  function History(L: Layout, p: Peer): seq<Bytes>
    requires |p.answers| <= |p.decs| && AllBatches(L, p.decs[..|p.answers|])
  {
    Commands(L, p.decs[..|p.answers|])
  }

  lemma {:induction false} ReplayRuns(L: Layout, decs: seq<ConsensusObj>)
    requires AllBatches(L, decs)
    ensures Replay(L, decs).0 == RunStore(L, map[], Commands(L, decs)) && |Replay(L, decs).1| == |decs|
    ensures forall c :: 0 <= c < |decs| ==>
      Replay(L, decs).1[c] == Answers(L, RunStore(L, map[], Commands(L, decs[..c])), Executed(L, decs[c]))
    ensures !L.batched ==> Flat(Replay(L, decs).1) == RunAnswers(L, map[], Commands(L, decs))
  {
    hide RunStore, RunAnswers, BatchAnswers, Executed, Executable;
    if |decs| == 0 {
      RunNothing(L);
    } else {
      var front := decs[..|decs| - 1];
      ReplayRuns(L, front);
      RunAppend(L, map[], Commands(L, front), Executed(L, decs[|decs| - 1]));
      var (store, answers) := Replay(L, front);
      FlatAppend(answers, Answers(L, store, Executed(L, decs[|decs| - 1])));
      forall c | 0 <= c < |decs|
        ensures Replay(L, decs).1[c] == Answers(L, RunStore(L, map[], Commands(L, decs[..c])), Executed(L, decs[c]))
      {
        assert c < |front| ==> front[..c] == decs[..c];
      }
    }
  }

  lemma RunNothing(L: Layout)
    ensures RunStore(L, map[], []) == map[] && RunAnswers(L, map[], []) == []
  {
  }

  /** The store is what executing the commands of the slots in order makes of an empty store. The
      answers given for a slot are those of its storage mode on the store before it; with the
      dictionary, all answers together are those of executing all commands one at a time. */
  lemma StoreIsReplay(g: Group, sys: System, i: nat)
    requires Occurs(g, sys) && i < |sys.peers|
    ensures var p := sys.peers[i];
      && |p.answers| <= |p.decs| && AllBatches(g.layout, p.decs[..|p.answers|])
      && p.store == RunStore(g.layout, map[], History(g.layout, p))
      && (!g.layout.batched ==> Flat(p.answers) == RunAnswers(g.layout, map[], History(g.layout, p)))
    ensures forall c :: 0 <= c < |sys.peers[i].answers| ==> AnsweredAt(g.layout, sys.peers[i], c)
  {
    hide Occurs, SlotOk, RequestsOk, Histories, Executable, RunStore, RunAnswers, Answers, Executed;
    OccursInv(g, sys);
    var p := sys.peers[i];
    assert PeerOk(g.layout, sys.issued, p);
    var decs := p.decs[..|p.answers|];
    ReplayRuns(g.layout, decs);
    forall c | 0 <= c < |p.answers|
      ensures AnsweredAt(g.layout, p, c)
    {
      assert decs[..c] == p.decs[..c];
    }
  }

  /** The answers of slot c are those of its commands after the commands of the slots before it. */
  ghost predicate AnsweredAt(L: Layout, p: Peer, c: nat) {
    && c < |p.answers| && c < |p.decs| && AllBatches(L, p.decs[..c]) && (p.decs[c].isNull || Executable(L, p.decs[c]))
    && p.answers[c] == Answers(L, RunStore(L, map[], Commands(L, p.decs[..c])), Executed(L, p.decs[c]))
  }

  /** State machine replication: at any two moments of a history, two servers that executed equally
      many slots have the same store and gave the same answers, in either storage mode. */
  lemma Replicated(g: Group, run: seq<System>, t: nat, t': nat, i: nat, j: nat)
    requires IsHistory(g, run) && t < |run| && t' < |run| && i < |run[t].peers| && j < |run[t'].peers|
    requires |run[t].peers[i].answers| == |run[t'].peers[j].answers|
    ensures run[t].peers[i].store == run[t'].peers[j].store
    ensures run[t].peers[i].answers == run[t'].peers[j].answers
  {
    hide SysInv, IsHistory, Replay, AllBatches;
    var p, q := run[t].peers[i], run[t'].peers[j];
    HistoryInv(g, run, t);
    HistoryInv(g, run, t');
    StoreOkAt(g, run[t], i);
    StoreOkAt(g, run[t'], j);
    forall s: nat | s < |p.answers|
      ensures p.decs[s] == q.decs[s]
    {
      LogsAgree(g, run, t, t', i, j, s);
    }
    assert p.decs[..|p.answers|] == q.decs[..|q.answers|];
  }

  lemma StoreOkAt(g: Group, sys: System, i: nat)
    requires SysInv(g, sys) && i < |sys.peers|
    ensures StoreOk(g.layout, sys.peers[i])
  {
    hide SlotOk, RequestsOk, Histories, StoreOk;
    assert PeerOk(g.layout, sys.issued, sys.peers[i]);
  }
}
