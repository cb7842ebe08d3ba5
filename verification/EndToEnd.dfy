/** From the requests that the proxies receive to the replies that clients get: a request is answered
    for one slot only, with the answers of its own commands at its place in the replayed history.
    Sources: roles/server/layers/proxy/proxy.go, roles/client/client.go. */
module EndToEnd {
  import opened Messages
  import opened KvStore
  import opened Redis
  import opened Batching
  import opened Replication
  import opened StateMachine
  import P = ProxyLayer

  // ---------------------------------------------------------------- what is issued is what was packed

  /** Proxy k.proId sent object k.proSeq. */
  predicate IsPacked(batches: seq<seq<seq<Command>>>, k: Key) {
    k.proId < |batches| && k.proSeq < |batches[k.proId]|
  }

  /** The requests that it was made of. */
  function RequestsOf(batches: seq<seq<seq<Command>>>, k: Key): seq<Command> {
    if IsPacked(batches, k) then batches[k.proId][k.proSeq] else []
  }

  /** The issued objects are those that the receivers of the proxies made of these batches. */
  ghost predicate Packed(L: Layout, issued: map<Key, ConsensusObj>, batches: seq<seq<seq<Command>>>) {
    forall k :: k in issued ==>
      && IsPacked(batches, k) && Sendable(L, RequestsOf(batches, k))
      && issued[k] == Batch(L, k.proId, k.proSeq, RequestsOf(batches, k))
  }

  /** Issuing what a receiver sent keeps it so, up to its 2^32-th object. */
  lemma SentIsPacked(L: Layout, issued: map<Key, ConsensusObj>, batches: seq<seq<seq<Command>>>, v: uint32,
                     sent: seq<Msg>, b: nat)
    requires Packed(L, issued, batches) && v < |batches| && SentAs(L, v, sent, batches[v])
    requires b < |sent| <= 0x1_0000_0000
    ensures var obj := sent[b].obj.value; Packed(L, issued[KeyOf(obj) := obj], batches)
  {
    hide Payload;
    assert sent[b] == Msg(CLIENT_REQUEST, 0, 0, Some(Batch(L, v, b, batches[v][b])));
  }

  predicate SameRequest(x: Command, y: Command) {
    x.cliId == y.cliId && x.cliSeq == y.cliSeq
  }

  predicate InBatch(batches: seq<seq<seq<Command>>>, k: Key, q: nat) {
    IsPacked(batches, k) && q < |RequestsOf(batches, k)|
  }

  predicate SameAt(batches: seq<seq<seq<Command>>>, k: Key, q: nat, k': Key, q': nat)
    requires InBatch(batches, k, q) && InBatch(batches, k', q')
  {
    SameRequest(RequestsOf(batches, k)[q], RequestsOf(batches, k')[q'])
  }

  /** Every client numbers its requests, and sends each to one proxy. */
  ghost predicate Unique(batches: seq<seq<seq<Command>>>) {
    forall k, k', q: nat, q': nat | InBatch(batches, k, q) && InBatch(batches, k', q') ::
      SameAt(batches, k, q, k', q') ==> k == k' && q == q'
  }

  /** The place of cell q of row b among all cells. */
  function Place<T>(rows: seq<seq<T>>, b: nat, q: nat): nat
    requires b < |rows| && q < |rows[b]|
  {
    |Flat(rows[..b])| + q
  }

  lemma {:induction false} PlaceHolds<T>(rows: seq<seq<T>>, b: nat, q: nat)
    requires b < |rows| && q < |rows[b]|
    ensures Place(rows, b, q) < |Flat(rows[..b + 1])| <= |Flat(rows)| && Flat(rows)[Place(rows, b, q)] == rows[b][q]
  {
    var n := |rows| - 1;
    if b < n {
      PlaceHolds(rows[..n], b, q);
      assert rows[..n][..b] == rows[..b] && rows[..n][..b + 1] == rows[..b + 1];
    } else {
      assert rows[..b + 1] == rows;
    }
  }

  lemma {:induction false} FlatGrows<T>(rows: seq<seq<T>>, b: nat)
    requires b <= |rows|
    ensures |Flat(rows[..b])| <= |Flat(rows)|
  {
    if b == |rows| {
      assert rows[..b] == rows;
    } else {
      FlatGrows(rows[..|rows| - 1], b);
      assert rows[..|rows| - 1][..b] == rows[..b];
    }
  }

  lemma PlacesOrdered<T>(rows: seq<seq<T>>, b: nat, q: nat, b': nat, q': nat)
    requires b < b' < |rows| && q < |rows[b]| && q' < |rows[b']|
    ensures Place(rows, b, q) < Place(rows, b', q')
  {
    hide Flat;
    PlaceHolds(rows, b, q);
    FlatGrows(rows[..b'], b + 1);
    assert rows[..b'][..b + 1] == rows[..b + 1];
  }

  predicate IsReceived(batches: seq<seq<seq<Command>>>, v: nat, x: nat) {
    v < |batches| && x < |Flat(batches[v])|
  }

  predicate SameReceived(batches: seq<seq<seq<Command>>>, v: nat, x: nat, v': nat, x': nat)
    requires IsReceived(batches, v, x) && IsReceived(batches, v', x')
  {
    SameRequest(Flat(batches[v])[x], Flat(batches[v'])[x'])
  }

  /** No request was received twice. What a CmdReceiver received starts with Flat of its batches. */
  ghost predicate ReceivedOnce(batches: seq<seq<seq<Command>>>) {
    forall v, v', x, x' | IsReceived(batches, v, x) && IsReceived(batches, v', x') ::
      SameReceived(batches, v, x, v', x') ==> v == v' && x == x'
  }

  lemma ReceivedOnceIsUnique(batches: seq<seq<seq<Command>>>)
    requires ReceivedOnce(batches)
    ensures Unique(batches)
  {
    hide Flat, Place;
    forall k, k', q: nat, q': nat | InBatch(batches, k, q) && InBatch(batches, k', q')
      ensures SameAt(batches, k, q, k', q') ==> k == k' && q == q'
    {
      var v, v' := k.proId, k'.proId;
      var x, x' := Place(batches[v], k.proSeq, q), Place(batches[v'], k'.proSeq, q');
      PlaceHolds(batches[v], k.proSeq, q);
      PlaceHolds(batches[v'], k'.proSeq, q');
      assert IsReceived(batches, v, x) && IsReceived(batches, v', x');
      assert SameReceived(batches, v, x, v', x') == SameAt(batches, k, q, k', q');
      if v == v' && x == x' { SamePlace(batches[v], k.proSeq, q, k'.proSeq, q'); }
    }
  }

  lemma SamePlace<T>(rows: seq<seq<T>>, b: nat, q: nat, b': nat, q': nat)
    requires b < |rows| && q < |rows[b]| && b' < |rows| && q' < |rows[b']|
    ensures Place(rows, b, q) == Place(rows, b', q') <==> b == b' && q == q'
  {
    hide Flat;
    if b < b' {
      PlacesOrdered(rows, b, q, b', q');
    } else if b' < b {
      PlacesOrdered(rows, b', q', b, q);
    }
  }

  // ---------------------------------------------------------------- answered once

  /** A non-null decision is a packed object, stamped with its slot. */
  lemma DecidedIsPacked(g: Group, sys: System, batches: seq<seq<seq<Command>>>, i: nat, s: nat)
    requires Occurs(g, sys) && Packed(g.layout, sys.issued, batches) && i < |sys.peers|
    requires s < |sys.peers[i].decs| && !sys.peers[i].decs[s].isNull
    ensures var dec := sys.peers[i].decs[s];
      && IsPacked(batches, KeyOf(dec)) && Sendable(g.layout, RequestsOf(batches, KeyOf(dec)))
      && s < 0x1_0000_0000
      && dec == Batch(g.layout, dec.proId, dec.proSeq, RequestsOf(batches, KeyOf(dec))).(svrSeq := s)
  {
    hide Occurs, Sendable, Enabled, Executable, Batch;
    DecisionsAreIssued(g, sys, i, s);
  }

  /** Request q of a decision is number cliSeq of client cliId. */
  predicate Holds(dec: ConsensusObj, q: nat, cliId: uint32, cliSeq: uint32) {
    !dec.isNull && q < |dec.cliIds| && q < |dec.cliSeqs| && dec.cliIds[q] == cliId && dec.cliSeqs[q] == cliSeq
  }

  /** No client request is part of two decisions, or of one decision twice: at whichever servers one
      looks, it is answered for one slot at most, and once there. */
  lemma AnsweredOnce(g: Group, sys: System, batches: seq<seq<seq<Command>>>, i: nat, j: nat, s: nat, t: nat,
                     q: nat, r: nat, cliId: uint32, cliSeq: uint32)
    requires Occurs(g, sys) && Packed(g.layout, sys.issued, batches) && Unique(batches)
    requires i < |sys.peers| && j < |sys.peers| && s < |sys.peers[i].decs| && t < |sys.peers[j].decs|
    requires Holds(sys.peers[i].decs[s], q, cliId, cliSeq) && Holds(sys.peers[j].decs[t], r, cliId, cliSeq)
    ensures s == t && q == r
  {
    hide Occurs, Packed, Sendable;
    DecidedIsPacked(g, sys, batches, i, s);
    DecidedIsPacked(g, sys, batches, j, t);
    var k, k' := KeyOf(sys.peers[i].decs[s]), KeyOf(sys.peers[j].decs[t]);
    assert InBatch(batches, k, q) && InBatch(batches, k', r) && SameAt(batches, k, q, k', r);
    if s != t { ExactlyOnce(g, sys, i, j, s, t); }
  }

  /** All that a server sent for the first n slots: conns are the clients connected when a slot was
      executed, and tables the rows of its answers. */
  ghost function SentFor(conns: seq<set<uint32>>, decs: seq<ConsensusObj>, tables: seq<seq<seq<Bytes>>>, n: nat)
    : seq<Command>
    requires Executions(conns, decs, tables, n)
  {
    if n == 0 then []
    else
      SentFor(conns, decs, tables, n - 1) +
      if decs[n - 1].isNull then [] else P.Replies(conns[n - 1], decs[n - 1], tables[n - 1])
  }

  ghost predicate Executions(conns: seq<set<uint32>>, decs: seq<ConsensusObj>, tables: seq<seq<seq<Bytes>>>, n: nat) {
    && n <= |conns| && n <= |decs| && n <= |tables|
    && forall s :: 0 <= s < n && !decs[s].isNull ==>
         |tables[s]| == |decs[s].cliIds| && P.Answerable(conns[s], decs[s])
  }

  /** Every reply is to a request of a slot. */
  lemma {:induction false} SentToRequest(conns: seq<set<uint32>>, decs: seq<ConsensusObj>, tables: seq<seq<seq<Bytes>>>,
                                         n: nat, x: nat)
    returns (s: nat, q: nat)
    requires Executions(conns, decs, tables, n) && x < |SentFor(conns, decs, tables, n)|
    ensures var c := SentFor(conns, decs, tables, n)[x]; s < n && Holds(decs[s], q, c.cliId, c.cliSeq)
    decreases n
  {
    var front := SentFor(conns, decs, tables, n - 1);
    if x < |front| {
      s, q := SentToRequest(conns, decs, tables, n - 1, x);
    } else {
      s := n - 1;
      assert SentFor(conns, decs, tables, n)[x] == P.Replies(conns[s], decs[s], tables[s])[x - |front|];
      q := P.ReplyOf(conns[s], decs[s], tables[s], SentFor(conns, decs, tables, n)[x]);
    }
  }

  /** Two replies are to two requests. */
  lemma {:induction false} SentToDifferent(conns: seq<set<uint32>>, decs: seq<ConsensusObj>,
                                           tables: seq<seq<seq<Bytes>>>, n: nat, x: nat, y: nat)
    returns (s: nat, q: nat, t: nat, r: nat)
    requires Executions(conns, decs, tables, n) && x < y < |SentFor(conns, decs, tables, n)|
    ensures var sent := SentFor(conns, decs, tables, n);
      && s < n && Holds(decs[s], q, sent[x].cliId, sent[x].cliSeq)
      && t < n && Holds(decs[t], r, sent[y].cliId, sent[y].cliSeq)
    ensures s != t || q != r
    decreases n
  {
    var front := SentFor(conns, decs, tables, n - 1);
    if y < |front| {
      s, q, t, r := SentToDifferent(conns, decs, tables, n - 1, x, y);
    } else if x < |front| {
      s, q := SentToRequest(conns, decs, tables, n - 1, x);
      t := n - 1;
      r := P.ReplyOf(conns[t], decs[t], tables[t], SentFor(conns, decs, tables, n)[y]);
    } else {
      s, t := n - 1, n - 1;
      var at := P.RepliesInOrder(conns[s], decs[s], tables[s]);
      q, r := at[x - |front|], at[y - |front|];
    }
  }

  /** A server answers a request once: among all that it sent for the slots it executed, no two replies
      are to the same client with the same sequence number. */
  lemma RepliedOnce(g: Group, sys: System, batches: seq<seq<seq<Command>>>, i: nat,
                    conns: seq<set<uint32>>, tables: seq<seq<seq<Bytes>>>, n: nat, x: nat, y: nat)
    requires Occurs(g, sys) && Packed(g.layout, sys.issued, batches) && Unique(batches) && i < |sys.peers|
    requires Executions(conns, sys.peers[i].decs, tables, n)
    requires x < y < |SentFor(conns, sys.peers[i].decs, tables, n)|
    ensures var sent := SentFor(conns, sys.peers[i].decs, tables, n); !SameRequest(sent[x], sent[y])
  {
    hide Occurs, Packed, Unique, SentFor, Holds;
    var sent := SentFor(conns, sys.peers[i].decs, tables, n);
    if SameRequest(sent[x], sent[y]) {
      var s, q, t, r := SentToDifferent(conns, sys.peers[i].decs, tables, n, x, y);
      AnsweredOnce(g, sys, batches, i, i, s, t, q, r, sent[x].cliId, sent[x].cliSeq);
    }
  }

  // ---------------------------------------------------------------- with its own answers

  /** The answers to a request: what its commands are answered at its place in the history, after the
      commands of the slots before it and of the requests before it. With MSET and MGET it is placed
      after all commands of its slot. */
  ghost function OwnAnswers(L: Layout, before: seq<Bytes>, reqs: seq<Command>, q: nat): seq<Bytes>
    requires q < |reqs| && AllCmds(L, before) && AllCmds(L, CommandsOf(reqs))
    requires AllCmds(L, CommandsOf(reqs[..q])) && AllCmds(L, reqs[q].commands)
  {
    if L.batched then BatchAnswers(L, RunStore(L, map[], before + CommandsOf(reqs)), reqs[q].commands)
    else RunAnswers(L, RunStore(L, map[], before + CommandsOf(reqs[..q])), reqs[q].commands)
  }

  lemma PartAnswers(L: Layout, store: Store, a: seq<Bytes>, b: seq<Bytes>, c: seq<Bytes>)
    requires AllCmds(L, a) && AllCmds(L, b) && AllCmds(L, c)
    ensures RunAnswers(L, store, a + b + c)[|a|..|a| + |b|] == RunAnswers(L, RunStore(L, store, a), b)
    ensures BatchAnswers(L, store, a + b + c)[|a|..|a| + |b|] == BatchAnswers(L, store, b)
  {
    hide RunAnswers, RunStore, IsCmd, BatchAnswer;
    RunAppend(L, store, a + b, c);
    RunAppend(L, store, a, b);
  }

  lemma ReqParts(L: Layout, reqs: seq<Command>, q: nat)
    requires FullRequests(L, reqs) && q < |reqs| && AllCmds(L, CommandsOf(reqs))
    ensures |CommandsOf(reqs[..q])| == Offset(L, q) && |reqs[q].commands| == L.clientBatch
    ensures Offset(L, q) + L.clientBatch <= |CommandsOf(reqs)|
    ensures CommandsOf(reqs) ==
      CommandsOf(reqs[..q]) + reqs[q].commands + CommandsOf(reqs)[Offset(L, q) + L.clientBatch..]
    ensures AllCmds(L, CommandsOf(reqs[..q])) && AllCmds(L, reqs[q].commands)
  {
    hide CommandsOf, Offset, IsCmd;
    FullSize(L, reqs[..q]);
    CommandsPrefix(reqs, q + 1);
    CommandsNext(reqs, q);
    var all, a, b := CommandsOf(reqs), CommandsOf(reqs[..q]), reqs[q].commands;
    assert all[..|a + b|] == a + b;
    forall x | 0 <= x < |a|
      ensures IsCmd(L, a[x])
    {
      assert a[x] == all[x];
    }
    forall x | 0 <= x < |b|
      ensures IsCmd(L, b[x])
    {
      assert b[x] == all[|a| + x];
    }
  }

  /** The answers for a batch of whole requests hold each request's own answers at its place. */
  lemma AnswersOfRequest(L: Layout, before: seq<Bytes>, reqs: seq<Command>, q: nat)
    requires AllCmds(L, before) && FullRequests(L, reqs) && q < |reqs| && AllCmds(L, CommandsOf(reqs))
    ensures AllCmds(L, CommandsOf(reqs[..q])) && AllCmds(L, reqs[q].commands)
    ensures var all := Answers(L, RunStore(L, map[], before), CommandsOf(reqs));
      && Offset(L, q) + L.clientBatch <= |all|
      && all[Offset(L, q)..Offset(L, q) + L.clientBatch] == OwnAnswers(L, before, reqs, q)
  {
    hide RunStore, RunAnswers, BatchAnswers, CommandsOf, Offset, AllCmds, FullRequests;
    ReqParts(L, reqs, q);
    var a, b := CommandsOf(reqs[..q]), reqs[q].commands;
    var c := CommandsOf(reqs)[Offset(L, q) + L.clientBatch..];
    var store := RunStore(L, map[], before);
    RestAreCmds(L, CommandsOf(reqs), Offset(L, q) + L.clientBatch);
    RunAppend(L, map[], before, CommandsOf(reqs));
    RunAppend(L, map[], before, a);
    PartAnswers(L, store, a, b, c);
    PartAnswers(L, RunStore(L, store, CommandsOf(reqs)), a, b, c);
  }

  lemma RestAreCmds(L: Layout, cmds: seq<Bytes>, n: nat)
    requires n <= |cmds| && AllCmds(L, cmds)
    ensures AllCmds(L, cmds[n..])
  {
  }

  /** What a server replied for a slot: every reply goes to a connected client whose request is in the
      decision, with the client's sequence number, the slot, and the answers to the client's own
      commands at their place in the history of the decisions. */
  lemma RepliedOwnAnswers(g: Group, sys: System, batches: seq<seq<seq<Command>>>, i: nat, s: nat,
                          conns: set<uint32>, rows: seq<seq<Bytes>>, c: Command)
    requires Occurs(g, sys) && Packed(g.layout, sys.issued, batches) && i < |sys.peers|
    requires s < |sys.peers[i].answers| && s < |sys.peers[i].decs| && !sys.peers[i].decs[s].isNull
    requires FullRequests(g.layout, RequestsOf(batches, KeyOf(sys.peers[i].decs[s])))
    requires |rows| == |sys.peers[i].decs[s].cliIds| && Table(rows, g.layout.clientBatch)
    requires Flat(rows) == sys.peers[i].answers[s] && P.Answerable(conns, sys.peers[i].decs[s])
    requires c in P.Replies(conns, sys.peers[i].decs[s], rows)
    ensures Replied(g.layout, sys.peers[i], s, RequestsOf(batches, KeyOf(sys.peers[i].decs[s])), conns, c)
  {
    hide Occurs, Packed, Sendable, Replied, FullRequests, Table, Flat, Executable, Executed, Answers, CommandsOf;
    var dec := sys.peers[i].decs[s];
    var reqs := RequestsOf(batches, KeyOf(dec));
    DecidedIsPacked(g, sys, batches, i, s);
    StoreIsReplay(g, sys, i);
    assert AnsweredAt(g.layout, sys.peers[i], s);
    var q := P.ReplyOf(conns, dec, rows, c);
    BatchCommands(g.layout, dec, reqs);
    AnswersOfRequest(g.layout, Commands(g.layout, sys.peers[i].decs[..s]), reqs, q);
    RowAt(rows, g.layout.clientBatch, q);
    ItIsReplied(g.layout, sys.peers[i], s, reqs, conns, c, q);
  }

  /** c is the reply to one of the requests. */
  ghost predicate Replied(L: Layout, p: Peer, s: nat, reqs: seq<Command>, conns: set<uint32>, c: Command) {
    exists q: nat :: RepliedTo(L, p, s, reqs, conns, c, q)
  }

  ghost predicate RepliedTo(L: Layout, p: Peer, s: nat, reqs: seq<Command>, conns: set<uint32>, c: Command, q: nat) {
    && s <= |p.decs| && AllBatches(L, p.decs[..s]) && AllCmds(L, CommandsOf(reqs))
    && q < |reqs| && AllCmds(L, CommandsOf(reqs[..q])) && AllCmds(L, reqs[q].commands)
    && SameRequest(c, reqs[q]) && c.cliId in conns && c.svrSeq == s
    && c.commands == OwnAnswers(L, Commands(L, p.decs[..s]), reqs, q)
  }

  lemma ItIsReplied(L: Layout, p: Peer, s: nat, reqs: seq<Command>, conns: set<uint32>, c: Command, q: nat)
    requires RepliedTo(L, p, s, reqs, conns, c, q)
    ensures Replied(L, p, s, reqs, conns, c)
  {
  }

  /** An executable batch of whole requests has their commands, and no others. */
  lemma BatchCommands(L: Layout, dec: ConsensusObj, reqs: seq<Command>)
    requires Sendable(L, reqs) && FullRequests(L, reqs) && Executable(L, dec) && !dec.isNull
    requires dec == Batch(L, dec.proId, dec.proSeq, reqs).(svrSeq := dec.svrSeq)
    ensures AllCmds(L, CommandsOf(reqs)) && Executed(L, dec) == CommandsOf(reqs)
  {
    hide CommandsOf, FitsBuffers, AllCmds, FullRequests;
    FullSize(L, reqs);
    hide Offset;
    assert dec.commands == CommandsOf(reqs) || |reqs| == L.proxyBatch;
    assert dec.commands[..|CommandsOf(reqs)|] == CommandsOf(reqs);
  }

  lemma {:induction false} RowAt<T>(rows: seq<seq<T>>, width: nat, q: nat)
    requires Table(rows, width) && q < |rows|
    ensures Cells(q, width) + width <= |Flat(rows)|
    ensures Flat(rows)[Cells(q, width)..Cells(q, width) + width] == rows[q]
  {
    hide Cells;
    var n := |rows| - 1;
    FlatSize(rows[..n], width);
    CellsBefore(q, n, width);
    if q < n { RowAt(rows[..n], width, q); }
  }

  // ---------------------------------------------------------------- a request cut short

  /** One request with too few commands, and none with too many: when the object that it was packed
      into is decided, no server ever gets past that slot. */
  lemma ShortRequestStops(g: Group, run: seq<System>, batches: seq<seq<seq<Command>>>, t: nat, t': nat, i: nat, j: nat,
                          s: nat, q: nat)
    requires IsHistory(g, run) && t < |run| && t' < |run| && i < |run[t].peers| && j < |run[t'].peers|
    requires Packed(g.layout, run[t].issued, batches)
    requires s < |run[t].peers[i].decs| && !run[t].peers[i].decs[s].isNull
    requires var reqs := RequestsOf(batches, KeyOf(run[t].peers[i].decs[s]));
      && q < |reqs| && |reqs[q].commands| < g.layout.clientBatch
      && forall r :: 0 <= r < |reqs| ==> |reqs[r].commands| <= g.layout.clientBatch
    ensures |run[t'].peers[j].answers| <= s
  {
    hide IsHistory, Executable, Batch, Packed, CommandsOf;
    var dec := run[t].peers[i].decs[s];
    var reqs := RequestsOf(batches, KeyOf(dec));
    Occurred(g, run, t);
    DecidedIsPacked(g, run[t], batches, i, s);
    ShortBatch(g.layout, dec.proId, dec.proSeq, reqs, q);
    SlotDoesNotMatter(g.layout, Batch(g.layout, dec.proId, dec.proSeq, reqs), s);
    UnexecutableStops(g, run, t, t', i, j, s);
  }

  lemma SlotDoesNotMatter(L: Layout, obj: ConsensusObj, s: uint32)
    ensures Executable(L, obj.(svrSeq := s)) == Executable(L, obj)
  {
  }

  lemma Occurred(g: Group, run: seq<System>, t: nat)
    requires IsHistory(g, run) && t < |run|
    ensures Occurs(g, run[t])
  {
    hide Enabled, After;
    var before := run[..t + 1];
    forall a: nat, b: nat | b == a + 1 && b < |before|
      ensures Follows(g, before[a], before[b])
    {
      assert Follows(g, run[a], run[b]);
    }
    assert IsHistory(g, before) && before[|before| - 1] == run[t];
  }
}
