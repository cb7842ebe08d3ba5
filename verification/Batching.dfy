/** The proxy's receiver: it packs the requests of clients into consensus objects.
    Source: roles/server/layers/proxy/proxy.go. */
module Batching {
  import opened Messages
  import opened Ledger
  import opened KvStore

  function CliIds(reqs: seq<Command>): (r: seq<uint32>)
    ensures |r| == |reqs| && forall i :: 0 <= i < |reqs| ==> r[i] == reqs[i].cliId
  {
    seq(|reqs|, i requires 0 <= i < |reqs| => reqs[i].cliId)
  }

  function CliSeqs(reqs: seq<Command>): (r: seq<uint32>)
    ensures |r| == |reqs| && forall i :: 0 <= i < |reqs| ==> r[i] == reqs[i].cliSeq
  {
    seq(|reqs|, i requires 0 <= i < |reqs| => reqs[i].cliSeq)
  }

  function CommandsOf(reqs: seq<Command>): seq<Bytes> {
    if |reqs| == 0 then [] else CommandsOf(reqs[..|reqs| - 1]) + reqs[|reqs| - 1].commands
  }

  /** The number of commands that the buffer has room for. */
  function Room(L: Layout): nat {
    Offset(L, L.proxyBatch)
  }

  /** The commands of a consensus object: a full batch takes the whole buffer, empty strings at its
      end included. */
  function Payload(L: Layout, reqs: seq<Command>): seq<Bytes>
    requires |CommandsOf(reqs)| <= Room(L)
  {
    if |reqs| == L.proxyBatch then CommandsOf(reqs) + Copies(Room(L) - |CommandsOf(reqs)|, [])
    else CommandsOf(reqs)
  }

  /** A full batch has ProxyBatchSize times ClientBatchSize commands, empty ones at the end; any other
      has the commands of its requests, in order. */
  lemma PayloadExact(L: Layout, reqs: seq<Command>)
    requires |CommandsOf(reqs)| <= Room(L)
    ensures Room(L) == L.proxyBatch * L.clientBatch
    ensures |reqs| != L.proxyBatch ==> Payload(L, reqs) == CommandsOf(reqs)
    ensures |reqs| == L.proxyBatch ==>
      && |Payload(L, reqs)| == L.proxyBatch * L.clientBatch && CommandsOf(reqs) <= Payload(L, reqs)
      && forall i :: |CommandsOf(reqs)| <= i < |Payload(L, reqs)| ==> Payload(L, reqs)[i] == []
  {
  }

  /** The consensus object for some requests. */
  function Batch(L: Layout, proId: uint32, proSeq: uint32, reqs: seq<Command>): ConsensusObj
    requires |CommandsOf(reqs)| <= Room(L)
  {
    ConsensusObj(proId, proSeq, 0, false, CliIds(reqs), CliSeqs(reqs), Payload(L, reqs))
  }

  // ---------------------------------------------------------------- taking a batch apart

  /** The executor's slices of the commands end within them. */
  predicate Sliceable(L: Layout, obj: ConsensusObj) {
    |obj.cliIds| <= |obj.cliSeqs| && Offset(L, |obj.cliIds|) <= |obj.commands|
  }

  /** The first n requests that the executor takes a consensus object apart into. */
  function Unbatch(L: Layout, obj: ConsensusObj, n: nat): (reqs: seq<Command>)
    requires Sliceable(L, obj) && n <= |obj.cliIds|
    ensures |reqs| == n
  {
    if n == 0 then []
    else
      Slices(L, obj, n - 1);
      Unbatch(L, obj, n - 1) + [Command(obj.cliIds[n - 1], obj.cliSeqs[n - 1], 0,
                                        obj.commands[Offset(L, n - 1)..Offset(L, n)])]
  }

  lemma Slices(L: Layout, obj: ConsensusObj, idx: nat)
    requires Sliceable(L, obj) && idx < |obj.cliIds|
    ensures Offset(L, idx) + L.clientBatch == Offset(L, idx + 1) <= |obj.commands|
  {
    Product(|obj.cliIds|, idx + 1, L.clientBatch);
  }

  /** Every client request has ClientBatchSize commands. */
  predicate FullRequests(L: Layout, reqs: seq<Command>) {
    forall i :: 0 <= i < |reqs| ==> |reqs[i].commands| == L.clientBatch
  }

  lemma {:induction false} UnbatchIsFull(L: Layout, obj: ConsensusObj, n: nat)
    requires Sliceable(L, obj) && n <= |obj.cliIds|
    ensures FullRequests(L, Unbatch(L, obj, n))
  {
    hide Offset;
    if n > 0 {
      Slices(L, obj, n - 1);
      UnbatchIsFull(L, obj, n - 1);
    }
  }

  lemma {:induction false} FullSize(L: Layout, reqs: seq<Command>)
    requires FullRequests(L, reqs)
    ensures |CommandsOf(reqs)| == Offset(L, |reqs|)
  {
    if |reqs| > 0 { FullSize(L, reqs[..|reqs| - 1]); }
  }

  lemma {:induction false} CommandsPrefix(reqs: seq<Command>, n: nat)
    requires n <= |reqs|
    ensures CommandsOf(reqs[..n]) <= CommandsOf(reqs)
  {
    if n == |reqs| {
      assert reqs[..n] == reqs;
    } else {
      var front := reqs[..|reqs| - 1];
      CommandsPrefix(front, n);
      assert front[..n] == reqs[..n];
    }
  }

  lemma CommandsNext(reqs: seq<Command>, n: nat)
    requires n < |reqs|
    ensures CommandsOf(reqs[..n + 1]) == CommandsOf(reqs[..n]) + reqs[n].commands
  {
    assert reqs[..n + 1][..n] == reqs[..n];
  }

  /** In a batch of whole requests, the slice for request n is its commands. */
  lemma FullSlice(L: Layout, reqs: seq<Command>, commands: seq<Bytes>, n: nat)
    requires FullRequests(L, reqs) && n < |reqs| && CommandsOf(reqs) <= commands
    requires Offset(L, n) + L.clientBatch == Offset(L, n + 1) <= |commands|
    ensures commands[Offset(L, n)..Offset(L, n + 1)] == reqs[n].commands
  {
    hide Offset, CommandsOf;
    FullSize(L, reqs[..n]);
    CommandsPrefix(reqs, n + 1);
    CommandsNext(reqs, n);
    MiddlePart(CommandsOf(reqs[..n]), reqs[n].commands, commands);
  }

  lemma MiddlePart(a: seq<Bytes>, b: seq<Bytes>, c: seq<Bytes>)
    requires a + b <= c
    ensures c[|a|..|a| + |b|] == b
  {
    assert c[..|a + b|] == a + b;
    assert c[|a|..|a| + |b|] == (a + b)[|a|..];
  }

  lemma {:induction false} FullUnbatch(L: Layout, obj: ConsensusObj, reqs: seq<Command>, n: nat)
    requires FullRequests(L, reqs) && forall i :: 0 <= i < |reqs| ==> reqs[i].svrSeq == 0
    requires obj.cliIds == CliIds(reqs) && obj.cliSeqs == CliSeqs(reqs) && Sliceable(L, obj) && n <= |reqs|
    requires CommandsOf(reqs) <= obj.commands
    ensures Unbatch(L, obj, n) == reqs[..n]
  {
    hide Offset, CommandsOf;
    if n > 0 {
      FullUnbatch(L, obj, reqs, n - 1);
      Slices(L, obj, n - 1);
      FullSlice(L, reqs, obj.commands, n - 1);
      assert reqs[..n] == reqs[..n - 1] + [reqs[n - 1]];
    }
  }

  /** Taking a batch apart gives its requests back (each client's id and sequence number with the
      client's own commands, so that every request gets its own results) if and only if every
      request has ClientBatchSize commands, as the clients' requests have. */
  lemma BatchRoundTrip(L: Layout, proId: uint32, proSeq: uint32, reqs: seq<Command>)
    requires |CommandsOf(reqs)| <= Room(L) && forall i :: 0 <= i < |reqs| ==> reqs[i].svrSeq == 0
    ensures var obj := Batch(L, proId, proSeq, reqs);
      (Sliceable(L, obj) && Unbatch(L, obj, |obj.cliIds|) == reqs) <==> FullRequests(L, reqs)
  {
    hide Offset, Unbatch;
    var obj := Batch(L, proId, proSeq, reqs);
    if Sliceable(L, obj) { UnbatchIsFull(L, obj, |reqs|); }
    if FullRequests(L, reqs) {
      FullSize(L, reqs);
      FullUnbatch(L, obj, reqs, |reqs|);
    }
  }

  lemma TwoRequests(x: Command, y: Command)
    ensures CommandsOf([x, y]) == x.commands + y.commands
  {
    CommandsNext([x, y], 0);
    CommandsNext([x, y], 1);
    assert [x, y][..0] == [] && [x, y][..2] == [x, y];
    assert CommandsOf([x, y][..1]) == x.commands;
  }

  // ---------------------------------------------------------------- executing a batch

  lemma {:induction false} CommandsBound(L: Layout, reqs: seq<Command>)
    requires forall r :: 0 <= r < |reqs| ==> |reqs[r].commands| <= L.clientBatch
    ensures |CommandsOf(reqs)| <= Offset(L, |reqs|)
    ensures (exists r :: 0 <= r < |reqs| && |reqs[r].commands| < L.clientBatch) ==>
      |CommandsOf(reqs)| < Offset(L, |reqs|)
  {
    if |reqs| > 0 {
      var front := reqs[..|reqs| - 1];
      CommandsBound(L, front);
      NextOffset(L, |front|);
      forall r | 0 <= r < |reqs| && |reqs[r].commands| < L.clientBatch
        ensures |CommandsOf(reqs)| < Offset(L, |reqs|)
      {
        if r < |front| { assert |front[r].commands| < L.clientBatch; }
      }
    }
  }

  lemma NextOffset(L: Layout, n: nat)
    ensures Offset(L, n + 1) == Offset(L, n) + L.clientBatch
  {
  }

  /** An object that was packed can be executed if and only if its requests have, together, a well
      formed command for each of the ClientBatchSize commands that each of them is taken to have. */
  lemma BatchExecutable(L: Layout, proId: uint32, proSeq: uint32, reqs: seq<Command>)
    requires |reqs| <= L.proxyBatch && |CommandsOf(reqs)| <= Room(L)
    ensures Executable(L, Batch(L, proId, proSeq, reqs)) <==>
      && Offset(L, |reqs|) <= |CommandsOf(reqs)|
      && AllCmds(L, CommandsOf(reqs)[..Offset(L, |reqs|)])
  {
    hide CommandsOf, WriteCount;
    Product(L.proxyBatch, |reqs|, L.clientBatch);
    hide Offset;
    var obj, cmds := Batch(L, proId, proSeq, reqs), CommandsOf(reqs);
    if |reqs| == L.proxyBatch && |cmds| < Room(L) {
      assert obj.commands[..Offset(L, |reqs|)][|cmds|] == [];
    } else {
      assert obj.commands == cmds;
    }
  }

  /** So it cannot when a request has fewer commands, and none has more. */
  lemma ShortBatch(L: Layout, proId: uint32, proSeq: uint32, reqs: seq<Command>, i: nat)
    requires |reqs| <= L.proxyBatch && |CommandsOf(reqs)| <= Room(L)
    requires i < |reqs| && |reqs[i].commands| < L.clientBatch
    requires forall r :: 0 <= r < |reqs| ==> |reqs[r].commands| <= L.clientBatch
    ensures !Executable(L, Batch(L, proId, proSeq, reqs))
  {
    hide CommandsOf, Executable, Batch, Offset;
    CommandsBound(L, reqs);
    BatchExecutable(L, proId, proSeq, reqs);
  }

  /** For example, a request with one command of two takes a command of the next request, and the
      next one is left with an empty command, which cannot be executed. */
  lemma ShortRequest(L: Layout, a: Bytes, b: Bytes, c: Bytes)
    requires L.clientBatch == 2 && L.proxyBatch == 2
    ensures var reqs := [Command(1, 1, 0, [a]), Command(2, 1, 0, [b, c])];
      && |CommandsOf(reqs)| <= Room(L) && Sliceable(L, Batch(L, 0, 0, reqs))
      && Unbatch(L, Batch(L, 0, 0, reqs), 2) == [Command(1, 1, 0, [a, b]), Command(2, 1, 0, [c, []])]
      && !Executable(L, Batch(L, 0, 0, reqs))
  {
    var x, y := Command(1, 1, 0, [a]), Command(2, 1, 0, [b, c]);
    TwoRequests(x, y);
    assert Offset(L, 0) == 0 && Offset(L, 1) == 2 && Offset(L, 2) == 4 == Room(L);
    var obj := Batch(L, 0, 0, [x, y]);
    assert obj.commands == [a, b, c, []];
    assert obj.commands[0..2] == [a, b] && obj.commands[2..4] == [c, []];
    assert Unbatch(L, obj, 1) == [Command(1, 1, 0, [a, b])];
    ShortBatch(L, 0, 0, [x, y], 0);
  }

  /** The executor can take a batch of whole requests: it has the commands that they need. */
  lemma {:induction false} BatchIsOk(L: Layout, proId: uint32, proSeq: uint32, reqs: seq<Command>)
    requires FullRequests(L, reqs) && |reqs| <= L.proxyBatch
    requires forall i :: 0 <= i < |reqs| ==> AllCmds(L, reqs[i].commands)
    ensures |CommandsOf(reqs)| <= Room(L) && Executable(L, Batch(L, proId, proSeq, reqs))
    ensures Executed(L, Batch(L, proId, proSeq, reqs)) == CommandsOf(reqs)
  {
    hide CommandsOf, FitsBuffers, AllCmds;
    FullSize(L, reqs);
    Product(L.proxyBatch, |reqs|, L.clientBatch);
    CommandsAreCmds(L, reqs);
    hide Offset;
    assert CommandsOf(reqs)[..|CommandsOf(reqs)|] == CommandsOf(reqs);
    BatchExecutable(L, proId, proSeq, reqs);
    if |reqs| == L.proxyBatch {
      assert Batch(L, proId, proSeq, reqs).commands == CommandsOf(reqs);
    }
  }

  lemma {:induction false} CommandsAreCmds(L: Layout, reqs: seq<Command>)
    requires forall i :: 0 <= i < |reqs| ==> AllCmds(L, reqs[i].commands)
    ensures AllCmds(L, CommandsOf(reqs))
  {
    if |reqs| > 0 { CommandsAreCmds(L, reqs[..|reqs| - 1]); }
  }

  // ---------------------------------------------------------------- the receiver

  /** Between 1 and ProxyBatchSize requests that fit the buffers. */
  predicate Sendable(L: Layout, reqs: seq<Command>) {
    1 <= |reqs| <= L.proxyBatch && |CommandsOf(reqs)| <= Room(L)
  }

  /** The objects sent so far: one for each batch, numbered from 0 in 32 bits. */
  ghost predicate SentAs(L: Layout, svrId: uint32, sent: seq<Msg>, batches: seq<seq<Command>>) {
    && |sent| == |batches|
    && (forall i :: 0 <= i < |batches| ==> Sendable(L, batches[i]))
    && forall i :: 0 <= i < |sent| ==>
         sent[i] == Msg(CLIENT_REQUEST, 0, 0, Some(Batch(L, svrId, i % 0x1_0000_0000, batches[i])))
  }

  class CmdReceiver {
    const SvrId: uint32
    const L: Layout
    var CliIdBuf: array<uint32>
    var CliSqBuf: array<uint32>
    var Values: array<Bytes>
    var IdsSqsCtr: nat
    var ValuesCtr: nat
    var ProSeq: nat
    var ToNet: seq<Msg>
    ghost var Received: seq<Command>
    ghost var Batches: seq<seq<Command>>
    ghost var Partial: seq<Command>

    /** The buffers hold the requests, followed by empty strings. */
    ghost predicate Hold(reqs: seq<Command>)
      reads this, CliIdBuf, CliSqBuf, Values
    {
      && CliIdBuf != CliSqBuf
      && CliIdBuf.Length == CliSqBuf.Length == L.proxyBatch && Values.Length == Room(L)
      && IdsSqsCtr == |reqs| <= L.proxyBatch && ValuesCtr == |CommandsOf(reqs)| <= Values.Length
      && CliIdBuf[..IdsSqsCtr] == CliIds(reqs) && CliSqBuf[..IdsSqsCtr] == CliSeqs(reqs)
      && Values[..] == CommandsOf(reqs) + Copies(Room(L) - |CommandsOf(reqs)|, [])
    }

    /** What was received is what was sent, batch by batch, and what is still in the buffers. */
    ghost predicate Valid()
      reads this, CliIdBuf, CliSqBuf, Values
    {
      Hold(Partial) && |Partial| < L.proxyBatch && Sending()
    }

    ghost predicate Sending()
      reads this
    {
      Received == Flat(Batches) + Partial && ProSeq == |Batches| && SentAs(L, SvrId, ToNet, Batches)
    }

    constructor (svrId: uint32, layout: Layout)
      requires layout.proxyBatch > 0
      ensures Valid() && SvrId == svrId && L == layout && Received == [] && ToNet == []
      ensures fresh(CliIdBuf) && fresh(CliSqBuf) && fresh(Values)
    {
      SvrId, L := svrId, layout;
      CliIdBuf := new uint32[layout.proxyBatch];
      CliSqBuf := new uint32[layout.proxyBatch];
      Values := new Bytes[Room(layout)](_ => []);
      IdsSqsCtr, ValuesCtr, ProSeq := 0, 0, 0;
      ToNet, Received, Batches, Partial := [], [], [], [];
    }

    /** A request of a client: it goes into the buffers, and a full batch is sent. Not ok: its
        commands do not fit, and the server panics. */
    method OnCommand(msg: Command) returns (ok: bool)
      requires Valid()
      modifies this, CliIdBuf, CliSqBuf, Values
      ensures ok <==> |CommandsOf(old(Partial))| + |msg.commands| <= Room(L)
      ensures ok ==> Valid() && Received == old(Received) + [msg]
      ensures ok ==> if |old(Partial)| + 1 == L.proxyBatch
        then Partial == [] && Batches == old(Batches) + [old(Partial) + [msg]]
        else Partial == old(Partial) + [msg] && Batches == old(Batches)
    {
      hide Flat, SentAs, Sendable, Room;
      if ValuesCtr + |msg.commands| > Values.Length {
        return false;
      }
      Append(msg);
      if IdsSqsCtr == L.proxyBatch {
        assert CliIdBuf[..] == CliIdBuf[..IdsSqsCtr] && CliSqBuf[..] == CliSqBuf[..IdsSqsCtr];
        IsSendable();
        Emit(CliIdBuf[..], CliSqBuf[..], Values[..]);
      }
      return true;
    }

    lemma IsSendable()
      requires Hold(Partial) && |Partial| > 0
      ensures Sendable(L, Partial)
    {
    }

    method Append(msg: Command)
      requires Valid() && ValuesCtr + |msg.commands| <= Values.Length
      modifies this`IdsSqsCtr, this`ValuesCtr, this`Partial, this`Received, CliIdBuf, CliSqBuf, Values
      ensures Partial == old(Partial) + [msg] && Hold(Partial) && Sending() && Received == old(Received) + [msg]
    {
      hide SentAs, Room, Flat, CommandsOf, CliIds, CliSeqs, Copies;
      AppendRequest(Partial, msg);
      FlatPartial(Received, Batches, Partial, msg);
      ValuesNext(Values[..], Partial, msg);
      PutIds(msg);
      CopyCommands(msg.commands);
      IdsSqsCtr := IdsSqsCtr + 1;
      ValuesCtr := ValuesCtr + |msg.commands|;
      Partial, Received := Partial + [msg], Received + [msg];
    }

    method PutIds(msg: Command)
      requires CliIdBuf != CliSqBuf && IdsSqsCtr < CliIdBuf.Length == CliSqBuf.Length
      modifies CliIdBuf, CliSqBuf
      ensures CliIdBuf[..IdsSqsCtr + 1] == old(CliIdBuf[..IdsSqsCtr]) + [msg.cliId]
      ensures CliSqBuf[..IdsSqsCtr + 1] == old(CliSqBuf[..IdsSqsCtr]) + [msg.cliSeq]
    {
      CliIdBuf[IdsSqsCtr] := msg.cliId;
      CliSqBuf[IdsSqsCtr] := msg.cliSeq;
    }

    lemma FlatPartial(received: seq<Command>, batches: seq<seq<Command>>, reqs: seq<Command>, req: Command)
      requires received == Flat(batches) + reqs
      ensures received + [req] == Flat(batches) + (reqs + [req])
    {
    }

    /** What the commands of a request make of the buffer. */
    lemma ValuesNext(values: seq<Bytes>, reqs: seq<Command>, req: Command)
      requires |CommandsOf(reqs)| + |req.commands| <= Room(L)
      requires values == CommandsOf(reqs) + Copies(Room(L) - |CommandsOf(reqs)|, [])
      ensures |CommandsOf(reqs + [req])| == |CommandsOf(reqs)| + |req.commands|
      ensures var ctr := |CommandsOf(reqs)|;
        values[..ctr] + req.commands + values[ctr + |req.commands|..]
        == CommandsOf(reqs + [req]) + Copies(Room(L) - |CommandsOf(reqs + [req])|, [])
    {
      hide Room, CommandsOf;
      AppendRequest(reqs, req);
    }

    lemma AppendRequest(reqs: seq<Command>, req: Command)
      ensures CliIds(reqs + [req]) == CliIds(reqs) + [req.cliId]
      ensures CliSeqs(reqs + [req]) == CliSeqs(reqs) + [req.cliSeq]
      ensures CommandsOf(reqs + [req]) == CommandsOf(reqs) + req.commands
    {
      assert (reqs + [req])[..|reqs|] == reqs;
    }

    method CopyCommands(cmds: seq<Bytes>)
      requires ValuesCtr + |cmds| <= Values.Length
      modifies Values
      ensures Values[..] == old(Values[..])[..ValuesCtr] + cmds + old(Values[..])[ValuesCtr + |cmds|..]
    {
      for j := 0 to |cmds|
        invariant Values[..] == old(Values[..ValuesCtr]) + cmds[..j] + old(Values[ValuesCtr + j..])
      {
        Values[ValuesCtr + j] := cmds[j];
        assert cmds[..j + 1] == cmds[..j] + [cmds[j]];
      }
      assert cmds[..|cmds|] == cmds;
    }

    /** The batch clock: what is in the buffers is sent, if there is anything. */
    method OnTick()
      requires Valid()
      modifies this
      ensures Valid() && Received == old(Received) && Partial == []
      ensures Batches == old(Batches) + if old(Partial) == [] then [] else [old(Partial)]
    {
      hide Flat, SentAs, Sendable, Room;
      if IdsSqsCtr != 0 {
        IsSendable();
        assert Values[..ValuesCtr] == Values[..][..ValuesCtr];
        Emit(CliIdBuf[..IdsSqsCtr], CliSqBuf[..IdsSqsCtr], Values[..ValuesCtr]);
      }
    }

    /** Sends a consensus object made of what is in the buffers, and gets new buffers. */
    method Emit(cliIds: seq<uint32>, cliSeqs: seq<uint32>, commands: seq<Bytes>)
      requires Sendable(L, Partial) && Sending()
      requires cliIds == CliIds(Partial) && cliSeqs == CliSeqs(Partial) && commands == Payload(L, Partial)
      modifies this
      ensures Valid() && Received == old(Received) && Partial == [] && Batches == old(Batches) + [old(Partial)]
    {
      hide Flat, SentAs, Room;
      Send(ConsensusObj(SvrId, ProSeq % 0x1_0000_0000, 0, false, cliIds, cliSeqs, commands));
      NewBuffers();
    }

    method Send(obj: ConsensusObj)
      requires Sendable(L, Partial) && Sending() && obj == Batch(L, SvrId, ProSeq % 0x1_0000_0000, Partial)
      modifies this`ToNet, this`ProSeq, this`Batches, this`Partial
      ensures Sending() && Partial == [] && Batches == old(Batches) + [old(Partial)]
    {
      hide Flat, Room, Payload;
      FlatAppend(Batches, Partial);
      ToNet := ToNet + [Msg(CLIENT_REQUEST, 0, 0, Some(obj))];
      Batches, Partial := Batches + [Partial], [];
      ProSeq := ProSeq + 1;
    }

    method NewBuffers()
      requires Partial == []
      modifies this`CliIdBuf, this`CliSqBuf, this`Values, this`IdsSqsCtr, this`ValuesCtr
      ensures Hold(Partial)
    {
      CliIdBuf := new uint32[L.proxyBatch];
      CliSqBuf := new uint32[L.proxyBatch];
      Values := new Bytes[Room(L)](_ => []);
      IdsSqsCtr := 0;
      ValuesCtr := 0;
    }
  }

  /** Two objects of a proxy share a key exactly when their numbers differ by a multiple of 2^32. */
  lemma BatchesHaveKeys(L: Layout, svrId: uint32, sent: seq<Msg>, batches: seq<seq<Command>>, i: nat, j: nat)
    requires SentAs(L, svrId, sent, batches) && i < j < |sent|
    ensures KeyOf(sent[i].obj.value) == KeyOf(sent[j].obj.value) <==> (j - i) % 0x1_0000_0000 == 0
  {
  }
}
