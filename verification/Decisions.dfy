/** Decisions that a server receives from others: the first one that its handler reads ends the wait of
    its executor, with the object that it carries.
    Sources: roles/server/layers/consensus/msgHandler.go, executor.go. */
module Decisions {
  import opened Messages
  import opened SlotSpec
  import opened Cluster
  import opened ClusterInv
  import opened Agreement
  import opened ConsensusLayer

  /** A server that is not done with the slot notes every Decision that it reads. */
  lemma ReadDecisionsAreNoted(P: Params, w: World, i: nat, s: nat, k: nat)
    requires Reachable(P, w) && i < |w.nodes| && |w.read| == |w.nodes| && s < |w.logs| && s < |w.read[i]|
    requires k < w.read[i][s] && k < |w.logs[s]| && w.logs[s][k].typ == DECISION
    ensures w.nodes[i].slot.isDone || w.nodes[i].slot.hasRecvDec
  {
    hide Reachable, CompleteOk, HeardOk, NodeInv, DecOk;
    ReachableInv(P, w);
    assert CountingOk(P, w.nodes[i].slot, w.logs, w.read[i]);
  }

  // ---------------------------------------------------------------- what wait does with the queue

  /** What wait does with one message: it goes on exactly with the notice of the executor's own round
      (NoticeFor says which that is), unless a Decision was received; and it panics exactly on any
      other notice then, and on a Decision for a slot that is done. */
  lemma PopExact(v: SlotState, m: Msg)
    requires 1 <= v.round <= 2
    ensures var own := NoticeFor(m, RoundIndex(v.phase, v.round));
      && (PopVerdict(v, m).Go? <==> IsRoundMsg(m) && !v.hasRecvDec && own)
      && (PopVerdict(v, m).Panic? <==>
            || (IsRoundMsg(m) && !v.hasRecvDec && !own)
            || (m.typ == DECISION && m.obj.Some? && v.isDone))
      && (PopVerdict(v, m).Received? <==> m.typ == DECISION && m.obj.Some? && !v.isDone)
    ensures PopVerdict(v, m).Received? ==> Some(PopVerdict(v, m).dec) == m.obj
  {
    RoundParts(v.phase, v.round);
  }

  /** The first Decision in a queue. */
  function FirstDecision(queue: seq<Msg>): Option<Msg> {
    if |queue| == 0 then None
    else if queue[0].typ == DECISION then Some(queue[0])
    else FirstDecision(queue[1..])
  }

  lemma {:induction false} FirstDecisionAppend(queue: seq<Msg>, m: Msg)
    ensures FirstDecision(queue + [m]) ==
      if FirstDecision(queue).Some? then FirstDecision(queue) else if m.typ == DECISION then Some(m) else None
  {
    if |queue| > 0 {
      FirstDecisionAppend(queue[1..], m);
      assert (queue + [m])[1..] == queue[1..] + [m];
    }
  }

  lemma {:induction false} FirstDecisionThere(queue: seq<Msg>)
    ensures FirstDecision(queue).Some? <==> exists j :: 0 <= j < |queue| && queue[j].typ == DECISION
    ensures FirstDecision(queue).Some? ==>
      FirstDecision(queue).value in queue && FirstDecision(queue).value.typ == DECISION
  {
    if |queue| > 0 {
      FirstDecisionThere(queue[1..]);
      if j :| 0 <= j < |queue| && queue[j].typ == DECISION {
        if j > 0 { assert queue[1..][j - 1] == queue[j]; }
      }
      if j :| 0 <= j < |queue[1..]| && queue[1..][j].typ == DECISION { assert queue[j + 1].typ == DECISION; }
    }
  }

  /** Once a Decision was received, wait skips the notices before it and decides its object. */
  lemma {:induction false} WaitDecides(v: SlotState, flips: nat, obj: ConsensusObj)
    requires v.hasRecvDec && !v.isDone && FirstDecision(v.queue).Some?
    requires FirstDecision(v.queue).value.obj == Some(obj)
    requires forall j :: 0 <= j < |v.queue| ==> IsRoundMsg(v.queue[j]) || v.queue[j].typ == DECISION
    ensures WaitNode(Node(v, Waiting, flips)).pc == Deciding(obj)
    decreases |v.queue|
  {
    var nd := PopNode(v, Node(v, Waiting, flips));
    if v.queue[0].typ != DECISION {
      WaitDecides(nd.slot, flips, obj);
    }
  }

  // ---------------------------------------------------------------- over runs

  /** The queue holds notices and Decisions with objects only. */
  ghost predicate OnlyNotices(v: SlotState) {
    forall j :: 0 <= j < |v.queue| ==> IsRoundMsg(v.queue[j]) || (v.queue[j].typ == DECISION && v.queue[j].obj.Some?)
  }

  lemma QueuesKept(P: Params, w: World, st: Step, i: nat)
    requires Inv(P, w) && Can(P, w, st) && i < |w.nodes| && OnlyNotices(w.nodes[i].slot)
    ensures OnlyNotices(Do(P, w, st).nodes[i].slot)
  {
    hide NodeInv, CountingOk, RepliesOk, AfterWait, RoundVerdict, ReplyFor, Backed;
    match st
    case Proceed(j) => AfterWaitQueue(P, j, w.nodes[j]);
    case Deliver(r, s) => assert DecOk(P, w, w.nodes[s], w.logs[s]);
    case _ =>
  }

  lemma AfterWaitQueue(P: Params, i: nat, nd: Node)
    requires P.Valid() && i < P.c.nServers && (nd.slot.round == 1 || nd.slot.round == 2) && nd.slot.phase < P.lenBlock
    ensures var nd' := AfterWait(P, i, nd).0;
      && nd'.slot.queue == nd.slot.queue && nd'.slot.hasRecvDec == nd.slot.hasRecvDec
      && nd'.slot.isDone == nd.slot.isDone && !nd'.pc.Idle?
  {
    hide RoundVerdict, ReturnValue, HasProposal, MajV;
  }

  lemma {:induction false} RunQueues(P: Params, run: seq<World>, t: nat, i: nat)
    requires IsRun(P, run) && t < |run| && i < |run[t].nodes|
    ensures OnlyNotices(run[t].nodes[i].slot)
  {
    hide Inv, Do, Can, OnlyNotices;
    if t > 0 {
      RunInv(P, run, t - 1);
      var st := StepAt(P, run, t - 1);
      SameServers(P, run[t - 1], st);
      RunQueues(P, run, t - 1, i);
      QueuesKept(P, run[t - 1], st, i);
    } else {
      InitQueues(P, i);
    }
  }

  lemma InitQueues(P: Params, i: nat)
    requires P.Valid() && i < |Init(P).nodes|
    ensures OnlyNotices(Init(P).nodes[i].slot)
  {
  }

  lemma StepAt(P: Params, run: seq<World>, t: nat) returns (st: Step)
    requires IsRun(P, run) && t + 1 < |run|
    ensures Shape(P, run[t]) && Can(P, run[t], st) && run[t + 1] == Do(P, run[t], st)
  {
    hide Do, Can;
    assert Leads(P, run[t], run[t + 1]);
    st :| Can(P, run[t], st) && run[t + 1] == Do(P, run[t], st);
  }

  lemma SameServers(P: Params, w: World, st: Step)
    requires Shape(P, w) && Can(P, w, st)
    ensures |Do(P, w, st).nodes| == |w.nodes|
  {
    hide AfterWait, Handle, ReplyFor;
  }

  /** A waiting server of a run that received a Decision stops waiting with it. */
  lemma NotedDecisionEndsWait(P: Params, run: seq<World>, t: nat, i: nat)
    requires IsRun(P, run) && t < |run| && i < |run[t].nodes|
    requires run[t].nodes[i].pc.Waiting? && run[t].nodes[i].slot.hasRecvDec
    ensures var nd := run[t].nodes[i];
      && FirstDecision(nd.slot.queue).Some? && FirstDecision(nd.slot.queue).value.obj.Some?
      && WaitNode(nd).pc == Deciding(FirstDecision(nd.slot.queue).value.obj.value)
  {
    hide IsRun, LogOk, JustOk, CountingOk, DecOk, WaitNode;
    var nd := run[t].nodes[i];
    RunInv(P, run, t);
    RunQueues(P, run, t, i);
    assert NodeInv(P, i, nd, run[t].logs[i]);
    FirstDecisionThere(nd.slot.queue);
    WaitDecides(nd.slot, nd.flips, FirstDecision(nd.slot.queue).value.obj.value);
  }

  /** m is the Decision that will end the wait of server i, if it waits again. */
  ghost predicate Awaits(w: World, i: nat, m: Msg) {
    && i < |w.nodes| && w.nodes[i].slot.hasRecvDec
    && (Queueing(w.nodes[i].pc) ==> FirstDecision(w.nodes[i].slot.queue) == Some(m))
  }

  lemma AwaitsKept(P: Params, w: World, st: Step, i: nat, m: Msg)
    requires Inv(P, w) && Can(P, w, st) && Awaits(w, i, m) && m.obj.Some?
    ensures Awaits(Do(P, w, st), i, m)
  {
    hide NodeInv, CountingOk, DecOk, RepliesOk, AfterWait, RoundVerdict, ReplyFor, PopVerdict;
    var nd := w.nodes[i];
    match st
    case Proceed(j) => AfterWaitQueue(P, j, w.nodes[j]);
    case Pop(j) => if j == i { PopAwaits(nd, m); }
    case Deliver(r, s) =>
      if r == i { HandleAwaits(P, nd.slot, s, w.logs[s][w.read[r][s]]); }
    case _ =>
  }

  lemma PopAwaits(nd: Node, m: Msg)
    requires nd.pc.Waiting? && nd.slot.hasRecvDec && |nd.slot.queue| > 0 && FirstDecision(nd.slot.queue) == Some(m)
    ensures var nd' := PopNode(nd.slot, nd);
      && nd'.slot.hasRecvDec && (Queueing(nd'.pc) ==> m.obj.None? || FirstDecision(nd'.slot.queue) == Some(m))
  {
  }

  lemma HandleAwaits(P: Params, v: SlotState, from: nat, m: Msg)
    requires v.hasRecvDec
    ensures Handle(P, v, from, m).hasRecvDec
    ensures FirstDecision(v.queue).Some? ==> FirstDecision(Handle(P, v, from, m).queue) == FirstDecision(v.queue)
  {
    if IsRoundMsg(m) { FirstDecisionAppend(v.queue, Notice(P, m)); }
  }

  /** The handler of server i takes m, the next message of server s. */
  ghost predicate Takes(P: Params, w: World, w': World, i: nat, s: nat, m: Msg) {
    && Shape(P, w) && Can(P, w, Deliver(i, s)) && w' == Do(P, w, Deliver(i, s))
    && m == w.logs[s][w.read[i][s]]
  }

  /** The first Decision wins: when an open server reads a Decision and had none before, then whenever
      it waits from then on, wait ends with the object of that Decision. */
  lemma FirstDecisionWins(P: Params, run: seq<World>, t: nat, t': nat, i: nat, s: nat, m: Msg)
    requires IsRun(P, run) && t + 1 <= t' < |run| && Takes(P, run[t], run[t + 1], i, s, m)
    requires m.typ == DECISION && !run[t].nodes[i].slot.hasRecvDec && !run[t].nodes[i].slot.isDone
    ensures m.obj.Some? && i < |run[t'].nodes| && run[t'].nodes[i].slot.hasRecvDec
    ensures run[t'].nodes[i].pc.Waiting? ==> WaitNode(run[t'].nodes[i]).pc == Deciding(m.obj.value)
  {
    hide IsRun, Inv, Do, WaitNode;
    RunInv(P, run, t);
    DecisionHasObject(P, run[t], s, run[t].read[i][s]);
    FirstIsQueued(P, run[t], i, s);
    AwaitsOn(P, run, t + 1, t', i, m);
    if run[t'].nodes[i].pc.Waiting? { NotedDecisionEndsWait(P, run, t', i); }
  }

  lemma DecisionHasObject(P: Params, w: World, s: nat, k: nat)
    requires Inv(P, w) && s < |w.logs| && k < |w.logs[s]| && w.logs[s][k].typ == DECISION
    ensures w.logs[s][k].obj.Some?
  {
    hide NodeInv, CountingOk, RepliesOk, Backed;
    assert DecOk(P, w, w.nodes[s], w.logs[s]);
  }

  lemma FirstIsQueued(P: Params, w: World, i: nat, s: nat)
    requires Inv(P, w) && Can(P, w, Deliver(i, s)) && w.logs[s][w.read[i][s]].typ == DECISION
    requires !w.nodes[i].slot.hasRecvDec && !w.nodes[i].slot.isDone
    ensures Awaits(Do(P, w, Deliver(i, s)), i, w.logs[s][w.read[i][s]])
  {
    hide LogOk, JustOk, CountingOk, DecOk, RepliesOk;
    var nd, m := w.nodes[i], w.logs[s][w.read[i][s]];
    assert NodeInv(P, i, nd, w.logs[i]);
    FirstDecisionAppend(nd.slot.queue, m);
    if Queueing(nd.pc) { NoDecisionYet(P, nd); }
  }

  lemma NoDecisionYet(P: Params, nd: Node)
    requires QueueOk(P, nd) && Queueing(nd.pc) && !nd.slot.hasRecvDec
    ensures FirstDecision(nd.slot.queue).None?
  {
    FirstDecisionThere(nd.slot.queue);
    forall j: nat | j < |nd.slot.queue|
      ensures nd.slot.queue[j].typ != DECISION
    {
      assert NoticeFor(nd.slot.queue[j], NextNotice(nd) + j);
    }
  }

  lemma {:induction false} AwaitsOn(P: Params, run: seq<World>, t: nat, t': nat, i: nat, m: Msg)
    requires IsRun(P, run) && t <= t' < |run| && Awaits(run[t], i, m) && m.obj.Some?
    ensures Awaits(run[t'], i, m)
  {
    hide IsRun, Inv, Do, Can, Awaits;
    if t < t' {
      AwaitsOn(P, run, t, t' - 1, i, m);
      RunInv(P, run, t' - 1);
      var st := StepAt(P, run, t' - 1);
      AwaitsKept(P, run[t' - 1], st, i, m);
    }
  }

  // ---------------------------------------------------------------- after the decision

  lemma DoneStep(P: Params, w: World, st: Step, i: nat)
    requires Inv(P, w) && Can(P, w, st) && i < |w.nodes| && w.nodes[i].slot.isDone
    ensures i < |Do(P, w, st).nodes| && Do(P, w, st).nodes[i] == w.nodes[i]
  {
    hide LogOk, JustOk, QueueOk, AskOk, CountingOk, DecOk, RepliesOk, AfterWait, RoundVerdict, ReplyFor, PopVerdict;
    assert NodeInv(P, i, w.nodes[i], w.logs[i]);
  }

  /** A server that is done with a slot never changes it again: no message is counted or queued. */
  lemma {:induction false} DoneIsFrozen(P: Params, run: seq<World>, t: nat, t': nat, i: nat)
    requires IsRun(P, run) && t <= t' < |run| && i < |run[t].nodes| && run[t].nodes[i].slot.isDone
    ensures i < |run[t'].nodes| && run[t'].nodes[i] == run[t].nodes[i]
  {
    hide IsRun, Inv, Do, Can;
    if t < t' {
      DoneIsFrozen(P, run, t, t' - 1, i);
      RunInv(P, run, t' - 1);
      var st := StepAt(P, run, t' - 1);
      DoneStep(P, run[t' - 1], st, i);
    }
  }
}
