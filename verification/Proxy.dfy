/** The proxy's executor: it takes the decisions of the ring ledger in slot order, executes their
    commands and answers the clients that are connected.
    Sources: roles/server/layers/proxy/proxy.go, redis.go. */
module ProxyLayer {
  import opened Messages
  import opened Quorums
  import opened Ledger
  import opened Ring
  import opened KvStore
  import opened Redis

  /** There is a sequence number for every request of a connected client. */
  predicate Answerable(connected: set<uint32>, dec: ConsensusObj) {
    forall idx :: 0 <= idx < |dec.cliIds| && dec.cliIds[idx] in connected ==> idx < |dec.cliSeqs|
  }

  /** What the clients of a decision are sent, when rows are the answers to their requests. */
  function Replies(connected: set<uint32>, dec: ConsensusObj, rows: seq<seq<Bytes>>): seq<Command>
    requires |rows| <= |dec.cliIds|
    requires forall idx :: 0 <= idx < |rows| && dec.cliIds[idx] in connected ==> idx < |dec.cliSeqs|
    decreases |rows|
  {
    if |rows| == 0 then []
    else
      var n := |rows| - 1;
      Replies(connected, dec, rows[..n]) +
      if dec.cliIds[n] in connected then [Command(dec.cliIds[n], dec.cliSeqs[n], dec.svrSeq, rows[n])] else []
  }

  /** Every reply is the row of the answers to one request of a connected client. */
  lemma {:induction false} ReplyOf(connected: set<uint32>, dec: ConsensusObj, rows: seq<seq<Bytes>>, c: Command)
    returns (q: nat)
    requires |rows| <= |dec.cliIds|
    requires forall idx :: 0 <= idx < |rows| && dec.cliIds[idx] in connected ==> idx < |dec.cliSeqs|
    requires c in Replies(connected, dec, rows)
    ensures q < |rows| && dec.cliIds[q] in connected && c == Command(dec.cliIds[q], dec.cliSeqs[q], dec.svrSeq, rows[q])
    decreases |rows|
  {
    var n := |rows| - 1;
    if c in Replies(connected, dec, rows[..n]) {
      q := ReplyOf(connected, dec, rows[..n], c);
    } else {
      q := n;
    }
  }

  /** And every connected client gets its row. */
  lemma {:induction false} ReplyIn(connected: set<uint32>, dec: ConsensusObj, rows: seq<seq<Bytes>>, q: nat)
    requires |rows| <= |dec.cliIds| && q < |rows| && dec.cliIds[q] in connected
    requires forall idx :: 0 <= idx < |rows| && dec.cliIds[idx] in connected ==> idx < |dec.cliSeqs|
    ensures Command(dec.cliIds[q], dec.cliSeqs[q], dec.svrSeq, rows[q]) in Replies(connected, dec, rows)
    decreases |rows|
  {
    if q < |rows| - 1 { ReplyIn(connected, dec, rows[..|rows| - 1], q); }
  }

  predicate IsReplyTo(connected: set<uint32>, dec: ConsensusObj, rows: seq<seq<Bytes>>, c: Command, q: nat) {
    && q < |rows| && q < |dec.cliIds| && q < |dec.cliSeqs| && dec.cliIds[q] in connected
    && c == Command(dec.cliIds[q], dec.cliSeqs[q], dec.svrSeq, rows[q])
  }

  /** The replies are one for each request of a connected client, in the order of the requests: reply x
      is for request at[x]. */
  ghost predicate InOrder(connected: set<uint32>, dec: ConsensusObj, rows: seq<seq<Bytes>>, replies: seq<Command>,
                          at: seq<nat>) {
    && |rows| <= |dec.cliIds| && |at| == |replies|
    && (forall x, y :: 0 <= x < y < |at| ==> at[x] < at[y])
    && (forall x :: 0 <= x < |at| ==> IsReplyTo(connected, dec, rows, replies[x], at[x]))
    && (forall q: nat :: q < |rows| && dec.cliIds[q] in connected ==> q in at)
  }

  lemma {:induction false} RepliesInOrder(connected: set<uint32>, dec: ConsensusObj, rows: seq<seq<Bytes>>)
    returns (at: seq<nat>)
    requires |rows| <= |dec.cliIds|
    requires forall idx :: 0 <= idx < |rows| && dec.cliIds[idx] in connected ==> idx < |dec.cliSeqs|
    ensures InOrder(connected, dec, rows, Replies(connected, dec, rows), at)
    decreases |rows|
  {
    if |rows| == 0 {
      at := [];
    } else {
      var n := |rows| - 1;
      at := RepliesInOrder(connected, dec, rows[..n]);
      var front := at;
      if dec.cliIds[n] in connected { at := front + [n]; }
      forall q: nat | q < |rows| && dec.cliIds[q] in connected
        ensures q in at
      {
        if q < n { assert q in front; } else { assert at[|front|] == n; }
      }
    }
  }

  /** The requests of connected clients among the first n. */
  function Connected(connected: set<uint32>, dec: ConsensusObj, n: nat): set<nat>
    requires n <= |dec.cliIds|
  {
    set q: nat | q < n && dec.cliIds[q] in connected
  }

  /** So there are as many replies as requests of connected clients. */
  lemma {:induction false} RepliesCount(connected: set<uint32>, dec: ConsensusObj, rows: seq<seq<Bytes>>)
    requires |rows| <= |dec.cliIds|
    requires forall idx :: 0 <= idx < |rows| && dec.cliIds[idx] in connected ==> idx < |dec.cliSeqs|
    ensures |Replies(connected, dec, rows)| == |Connected(connected, dec, |rows|)|
    decreases |rows|
  {
    if |rows| > 0 {
      var n := |rows| - 1;
      RepliesCount(connected, dec, rows[..n]);
      var front := Connected(connected, dec, n);
      assert Connected(connected, dec, |rows|) == front + if dec.cliIds[n] in connected then {n} else {};
    }
  }

  /** Request idx of a decision has the ClientBatchSize commands from there on. */
  lemma RequestRange(L: Layout, dec: ConsensusObj, idx: nat)
    requires idx < |dec.cliIds|
    ensures idx * L.clientBatch == Offset(L, idx)
    ensures Offset(L, idx) + L.clientBatch == Offset(L, idx + 1) <= Offset(L, |dec.cliIds|)
    ensures Offset(L, idx + 1) <= |dec.commands| ==>
      dec.commands[..Offset(L, idx)] + dec.commands[Offset(L, idx)..Offset(L, idx + 1)]
      == dec.commands[..Offset(L, idx + 1)]
  {
    Product(|dec.cliIds|, idx + 1, L.clientBatch);
  }

  lemma SliceOfPrefix(s: seq<Bytes>, n: nat, a: nat, b: nat)
    requires a <= b <= n <= |s|
    ensures s[..n][a..b] == s[a..b]
  {
  }

  lemma RequestCmds(L: Layout, dec: ConsensusObj, idx: nat)
    requires idx < |dec.cliIds| && Offset(L, idx) + L.clientBatch <= |dec.commands|
    ensures WellFormed(L, dec) ==> AllCmds(L, dec.commands[Offset(L, idx)..Offset(L, idx) + L.clientBatch])
  {
    hide Offset, IsCmd;
    RequestRange(L, dec, idx);
    if WellFormed(L, dec) {
      SliceOfPrefix(dec.commands, Offset(L, |dec.cliIds|), Offset(L, idx), Offset(L, idx + 1));
    }
  }

  lemma NextCommands(L: Layout, cmds: seq<Bytes>, a: nat, b: nat)
    requires a <= b <= |cmds| && AllCmds(L, cmds[..a]) && AllCmds(L, cmds[a..b])
    ensures cmds[..a] + cmds[a..b] == cmds[..b] && AllCmds(L, cmds[..b])
  {
    hide IsCmd;
    assert cmds[..a] + cmds[a..b] == cmds[..b];
  }

  class Proxy {
    const L: Layout
    const Ring: RingLedger
    const RedisClient: RedisClient
    var KVStore: Store
    var CurrDec: ConsensusObj
    var CurrSeq: nat
    var Conns: set<uint32>
    var Sent: seq<Command>

    constructor (layout: Layout, ring: RingLedger, redis: RedisClient)
      ensures L == layout && Ring == ring && RedisClient == redis
      ensures KVStore == map[] && CurrSeq == 0 && Sent == []
    {
      L, Ring, RedisClient := layout, ring, redis;
      KVStore, CurrDec, CurrSeq, Conns, Sent := map[], EMPTY_OBJ, 0, {}, [];
    }

    /** Not ok: a slice of the command is out of range, and the server panics. */
    method NaiveExecuteCmd(cmd: Bytes) returns (r: Bytes, ok: bool)
      modifies this`KVStore
      ensures ok <==> IsCmd(L, cmd)
      ensures ok ==> r == Answer(L, old(KVStore), cmd) && KVStore == StoreAfter(L, old(KVStore), cmd)
    {
      if |cmd| < 1 + L.keyLen {
        return [], false;
      }
      var typ := cmd[0..1];
      var key := cmd[1..1 + L.keyLen];
      var val := cmd[1 + L.keyLen..];
      if typ == [WRITE] {
        KVStore := KVStore[key := val];
        return [WRITE] + key + OK, true;
      } else {
        var v := if key in KVStore then KVStore[key] else [];
        return [READ] + key + v, true;
      }
    }

    /** Executes the commands of the current decision one at a time, in order, and answers the
        requests it is made of. Not ok: a command is missing or malformed, or a sequence number is
        missing, and the server panics. */
    method SingleExecuteAndReply() returns (ok: bool, ghost rows: seq<seq<Bytes>>)
      modifies this`KVStore, this`Sent
      ensures ok <==> WellFormed(L, CurrDec) && Answerable(Conns, CurrDec)
      ensures ok ==>
        && KVStore == RunStore(L, old(KVStore), Taken(L, CurrDec))
        && Flat(rows) == RunAnswers(L, old(KVStore), Taken(L, CurrDec))
        && |rows| == |CurrDec.cliIds| && Table(rows, L.clientBatch)
        && Sent == old(Sent) + Replies(Conns, CurrDec, rows)
    {
      hide RunStore, RunAnswers, Flat, Offset, AllCmds;
      var cb := L.clientBatch;
      rows := [];
      RunNone(L, KVStore);
      NoOffset(L);
      for idx := 0 to |CurrDec.cliIds|
        invariant |rows| == idx && Table(rows, cb)
        invariant Offset(L, idx) <= |CurrDec.commands| && AllCmds(L, CurrDec.commands[..Offset(L, idx)])
        invariant KVStore == RunStore(L, old(KVStore), CurrDec.commands[..Offset(L, idx)])
        invariant Flat(rows) == RunAnswers(L, old(KVStore), CurrDec.commands[..Offset(L, idx)])
        invariant forall k :: 0 <= k < idx && CurrDec.cliIds[k] in Conns ==> k < |CurrDec.cliSeqs|
        invariant Sent == old(Sent) + Replies(Conns, CurrDec, rows)
      {
        RequestRange(L, CurrDec, idx);
        var lo := idx * cb;
        if lo + cb > |CurrDec.commands| {
          return false, rows;
        }
        var cmds := CurrDec.commands[lo..lo + cb];
        var res, valid := ExecuteRequest(cmds);
        if !valid {
          RequestCmds(L, CurrDec, idx);
          return false, rows;
        }
        NextCommands(L, CurrDec.commands, lo, lo + cb);
        RunAppend(L, old(KVStore), CurrDec.commands[..Offset(L, idx)], cmds);
        FlatAppend(rows, res);
        assert (rows + [res])[..idx] == rows;
        rows := rows + [res];
        if CurrDec.cliIds[idx] in Conns {
          if idx >= |CurrDec.cliSeqs| {
            return false, rows;
          }
          Sent := Sent + [Command(CurrDec.cliIds[idx], CurrDec.cliSeqs[idx], CurrDec.svrSeq, res)];
        }
      }
      return true, rows;
    }

    lemma NoOffset(L: Layout)
      ensures Offset(L, 0) == 0 && AllCmds(L, [])
    {
    }

    lemma RunNone(L: Layout, store: Store)
      ensures RunStore(L, store, []) == store && RunAnswers(L, store, []) == []
      ensures Flat<Bytes>([]) == []
    {
    }

    method ExecuteRequest(cmds: seq<Bytes>) returns (res: seq<Bytes>, ok: bool)
      modifies this`KVStore
      ensures ok <==> AllCmds(L, cmds)
      ensures ok ==> KVStore == RunStore(L, old(KVStore), cmds) && res == RunAnswers(L, old(KVStore), cmds)
    {
      hide IsCmd, Answer, StoreAfter;
      res := [];
      for j := 0 to |cmds|
        invariant AllCmds(L, cmds[..j])
        invariant KVStore == RunStore(L, old(KVStore), cmds[..j])
        invariant res == RunAnswers(L, old(KVStore), cmds[..j])
      {
        var r, valid := NaiveExecuteCmd(cmds[j]);
        if !valid {
          return res, false;
        }
        assert cmds[..j + 1] == cmds[..j] + [cmds[j]];
        RunLast(L, old(KVStore), cmds[..j], cmds[j]);
        res := res + [r];
      }
      assert cmds[..|cmds|] == cmds;
      return res, true;
    }

    // -------------------------------------------------------------- MSET and MGET

    /** Executes the current decision with one MSET and one MGET. Not ok: a command is missing or
        malformed, or a buffer is full, and the server panics. */
    method RedisBatchExecuteCmd() returns (replies: seq<seq<Bytes>>, ok: bool)
      modifies RedisClient
      ensures ok <==> WellFormed(L, CurrDec) && FitsBuffers(L, Taken(L, CurrDec))
      ensures ok ==>
        && RedisClient.Data == RunStore(L, old(RedisClient.Data), Taken(L, CurrDec))
        && |replies| == |CurrDec.cliIds| && Table(replies, L.clientBatch)
        && Flat(replies) == BatchAnswers(L, RedisClient.Data, Taken(L, CurrDec))
    {
      hide RunStore, BatchAnswers, Pairs, Reads, ReadKeys, Flat, Acks, WellFormed, FitsBuffers;
      var mset := new Bytes[L.clientBatch * L.proxyBatch * 2](_ => []);
      var mget := new Bytes[L.clientBatch * L.proxyBatch](_ => []);
      var msetCtr, mgetCtr: nat;
      replies, msetCtr, mgetCtr, ok := Collect(mset, mget);
      if ok {
        WriteAll(mset[..msetCtr], Taken(L, CurrDec));
        replies := ReadAll(mget[..mgetCtr], replies);
      }
    }

    /** MSET, if there is a write. */
    method WriteAll(pairs: seq<Bytes>, ghost cmds: seq<Bytes>)
      requires AllCmds(L, cmds) && pairs == Pairs(L, cmds)
      modifies RedisClient
      ensures RedisClient.Data == RunStore(L, old(RedisClient.Data), cmds)
    {
      hide RunStore, MSetStore, Pairs;
      SameStore(L, RedisClient.Data, cmds);
      NoPairs(L, RedisClient.Data);
      if |pairs| != 0 {
        RedisClient.MSet(pairs);
      }
    }

    /** MGET, if there is a read, and its answers. */
    method ReadAll(keys: seq<Bytes>, acks: seq<seq<Bytes>>) returns (replies: seq<seq<Bytes>>)
      requires WellFormed(L, CurrDec) && keys == ReadKeys(L, Taken(L, CurrDec))
      requires |acks| == |CurrDec.cliIds| && Table(acks, L.clientBatch) && Flat(acks) == Acks(L, Taken(L, CurrDec))
      ensures |replies| == |acks| && Table(replies, L.clientBatch)
      ensures Flat(replies) == BatchAnswers(L, RedisClient.Data, Taken(L, CurrDec))
    {
      hide BatchAnswers, Reads, ReadKeys, Flat, Acks, Filled, WellFormed, Taken;
      ghost var cmds := Taken(L, CurrDec);
      ReadKeysAt(L, cmds);
      replies := acks;
      if |keys| == 0 {
        AcksFilled(L, RedisClient.Data, cmds);
      } else {
        var vs := RedisClient.MGet(keys);
        replies := Scatter(acks, vs, cmds, RedisClient.Data);
      }
    }

    /** Sorts the commands into pending writes and pending reads. The reply to a read is left
        empty. */
    method Collect(mset: array<Bytes>, mget: array<Bytes>)
      returns (replies: seq<seq<Bytes>>, msetCtr: nat, mgetCtr: nat, ok: bool)
      requires mset != mget
      requires mset.Length == L.clientBatch * L.proxyBatch * 2 && mget.Length == L.clientBatch * L.proxyBatch
      modifies mset, mget
      ensures ok <==> WellFormed(L, CurrDec) && FitsBuffers(L, Taken(L, CurrDec))
      ensures ok ==>
        && msetCtr <= mset.Length && mset[..msetCtr] == Pairs(L, Taken(L, CurrDec))
        && mgetCtr <= mget.Length && mget[..mgetCtr] == ReadKeys(L, Taken(L, CurrDec))
        && |replies| == |CurrDec.cliIds| && Table(replies, L.clientBatch)
        && Flat(replies) == Acks(L, Taken(L, CurrDec))
    {
      hide Pairs, ReadKeys, Acks, Flat, Offset, AllCmds, WriteCount;
      var cb := L.clientBatch;
      replies, msetCtr, mgetCtr := [], 0, 0;
      CollectNone(L);
      NoOffset(L);
      BufferSizes();
      for idx := 0 to |CurrDec.cliIds|
        invariant |replies| == idx && Table(replies, cb)
        invariant Offset(L, idx) <= |CurrDec.commands| && AllCmds(L, CurrDec.commands[..Offset(L, idx)])
        invariant Collected(CurrDec.commands[..Offset(L, idx)], mset, msetCtr, mget, mgetCtr)
        invariant Flat(replies) == Acks(L, CurrDec.commands[..Offset(L, idx)])
      {
        RequestRange(L, CurrDec, idx);
        var lo := idx * cb;
        if lo + cb > |CurrDec.commands| {
          return replies, 0, 0, false;
        }
        var cmds := CurrDec.commands[lo..lo + cb];
        var row: seq<Bytes>, valid: bool;
        row, msetCtr, mgetCtr, valid := CollectRequest(cmds, mset, msetCtr, mget, mgetCtr, CurrDec.commands[..lo]);
        if !valid {
          if !AllCmds(L, cmds) {
            RequestCmds(L, CurrDec, idx);
          } else {
            NextCommands(L, CurrDec.commands, lo, lo + cb);
            Overfull(idx + 1);
          }
          return replies, 0, 0, false;
        }
        NextCommands(L, CurrDec.commands, lo, lo + cb);
        AcksAppend(L, CurrDec.commands[..lo], cmds);
        FlatAppend(replies, row);
        replies := replies + [row];
      }
      return replies, msetCtr, mgetCtr, true;
    }

    lemma BufferSizes()
      ensures L.clientBatch * L.proxyBatch == Offset(L, L.proxyBatch)
    {
    }

    /** If the commands before a request do not fit in the buffers, then all of them do not. */
    lemma Overfull(idx: nat)
      requires idx <= |CurrDec.cliIds| && Offset(L, idx) <= |CurrDec.commands|
      requires AllCmds(L, CurrDec.commands[..Offset(L, idx)]) && !FitsBuffers(L, CurrDec.commands[..Offset(L, idx)])
      ensures WellFormed(L, CurrDec) ==> !FitsBuffers(L, Taken(L, CurrDec))
    {
      hide WriteCount, IsCmd;
      Product(|CurrDec.cliIds|, idx, L.clientBatch);
      hide Offset;
      if WellFormed(L, CurrDec) {
        var a, rest := CurrDec.commands[..Offset(L, idx)], Taken(L, CurrDec)[Offset(L, idx)..];
        assert Taken(L, CurrDec) == a + rest;
        WriteCountAppend(L, a, rest);
      }
    }

    lemma CollectNone(L: Layout)
      ensures Pairs(L, []) == [] && ReadKeys(L, []) == [] && Acks(L, []) == [] && Flat<Bytes>([]) == []
      ensures WriteCount(L, []) == 0
    {
    }

    /** The pending requests of some commands are in the buffers. */
    ghost predicate Collected(cmds: seq<Bytes>, mset: array<Bytes>, msetCtr: nat, mget: array<Bytes>, mgetCtr: nat)
      requires AllCmds(L, cmds)
      reads mset, mget
    {
      && FitsBuffers(L, cmds)
      && msetCtr == 2 * WriteCount(L, cmds) <= mset.Length && mset[..msetCtr] == Pairs(L, cmds)
      && mgetCtr == |cmds| - WriteCount(L, cmds) <= mget.Length && mget[..mgetCtr] == ReadKeys(L, cmds)
    }

    /** The commands of one client request, after others were collected. */
    method CollectRequest(cmds: seq<Bytes>, mset: array<Bytes>, msetCtr: nat, mget: array<Bytes>, mgetCtr: nat,
                          ghost done: seq<Bytes>)
      returns (row: seq<Bytes>, msetCtr': nat, mgetCtr': nat, ok: bool)
      requires mset != mget && AllCmds(L, done) && Collected(done, mset, msetCtr, mget, mgetCtr)
      requires mset.Length == 2 * Offset(L, L.proxyBatch) && mget.Length == Offset(L, L.proxyBatch)
      modifies mset, mget
      ensures ok <==> AllCmds(L, cmds) && FitsBuffers(L, done + cmds)
      ensures ok ==> Collected(done + cmds, mset, msetCtr', mget, mgetCtr') && row == Acks(L, cmds)
    {
      hide Acks, Offset, IsCmd, FitsBuffers, Pairs, ReadKeys, WriteCount;
      row := Copies(|cmds|, []);
      CollectNone(L);
      msetCtr', mgetCtr' := msetCtr, mgetCtr;
      assert done + cmds[..0] == done;
      for j := 0 to |cmds|
        invariant AllCmds(L, cmds[..j])
        invariant Collected(done + cmds[..j], mset, msetCtr', mget, mgetCtr')
        invariant |row| == |cmds| && row[..j] == Acks(L, cmds[..j])
        invariant forall k :: j <= k < |cmds| ==> row[k] == []
      {
        var valid: bool, ack: Bytes;
        ack, msetCtr', mgetCtr', valid := CollectCmd(cmds[j], mset, msetCtr', mget, mgetCtr', done + cmds[..j]);
        if !valid {
          if IsCmd(L, cmds[j]) { StillOverfull(done, cmds, j); }
          return row, 0, 0, false;
        }
        assert cmds[..j + 1] == cmds[..j] + [cmds[j]];
        assert done + cmds[..j + 1] == done + cmds[..j] + [cmds[j]];
        AcksNext(cmds[..j], cmds[j]);
        row := row[j := ack];
        assert row[..j + 1] == row[..j] + [row[j]];
      }
      assert cmds[..|cmds|] == cmds && row[..|cmds|] == row;
      return row, msetCtr', mgetCtr', true;
    }

    lemma AcksNext(cmds: seq<Bytes>, c: Bytes)
      requires AllCmds(L, cmds) && IsCmd(L, c)
      ensures Acks(L, cmds + [c]) == Acks(L, cmds) + [AckOf(c)]
    {
      hide IsCmd;
      assert (cmds + [c])[..|cmds|] == cmds;
    }

    function AckOf(c: Bytes): Bytes
      requires IsCmd(L, c)
    {
      if IsWrite(L, c) then [WRITE] + CmdKey(L, c) + OK else []
    }

    lemma StillOverfull(done: seq<Bytes>, cmds: seq<Bytes>, j: nat)
      requires AllCmds(L, done) && j < |cmds| && AllCmds(L, cmds[..j]) && IsCmd(L, cmds[j])
      requires !FitsBuffers(L, done + cmds[..j] + [cmds[j]])
      ensures AllCmds(L, cmds) ==> !FitsBuffers(L, done + cmds)
    {
      hide IsCmd, WriteCount, Offset;
      if AllCmds(L, cmds) {
        var front, rest := done + cmds[..j] + [cmds[j]], cmds[j + 1..];
        assert done + cmds == front + rest;
        WriteCountAppend(L, front, rest);
      }
    }

    /** One command. */
    method CollectCmd(cmd: Bytes, mset: array<Bytes>, msetCtr: nat, mget: array<Bytes>, mgetCtr: nat,
                      ghost done: seq<Bytes>)
      returns (ack: Bytes, msetCtr': nat, mgetCtr': nat, ok: bool)
      requires mset != mget && AllCmds(L, done) && Collected(done, mset, msetCtr, mget, mgetCtr)
      requires mset.Length == 2 * Offset(L, L.proxyBatch) && mget.Length == Offset(L, L.proxyBatch)
      modifies mset, mget
      ensures ok <==> IsCmd(L, cmd) && FitsBuffers(L, done + [cmd])
      ensures ok ==> Collected(done + [cmd], mset, msetCtr', mget, mgetCtr') && ack == AckOf(cmd)
    {
      hide Offset;
      if |cmd| < 1 + L.keyLen {
        return [], 0, 0, false;
      }
      CollectLast(done, cmd);
      hide Pairs, ReadKeys, WriteCount;
      var typ := cmd[0..1];
      var key := cmd[1..1 + L.keyLen];
      var val := cmd[1 + L.keyLen..];
      ack, msetCtr', mgetCtr' := [], msetCtr, mgetCtr;
      ghost var wrote, asked := mset[..msetCtr], mget[..mgetCtr];
      if typ == [WRITE] {
        if msetCtr' + 1 >= mset.Length {
          return [], 0, 0, false;
        }
        mset[msetCtr'] := key;
        msetCtr' := msetCtr' + 1;
        mset[msetCtr'] := val;
        msetCtr' := msetCtr' + 1;
        ack := [WRITE] + key + OK;
        assert mset[..msetCtr'] == wrote + [key, val];
      } else {
        if mgetCtr' >= mget.Length {
          return [], 0, 0, false;
        }
        mget[mgetCtr'] := key;
        mgetCtr' := mgetCtr' + 1;
        assert mget[..mgetCtr'] == asked + [key];
      }
      return ack, msetCtr', mgetCtr', true;
    }

    lemma CollectLast(cmds: seq<Bytes>, c: Bytes)
      requires AllCmds(L, cmds) && IsCmd(L, c)
      ensures Pairs(L, cmds + [c]) == Pairs(L, cmds) + (if IsWrite(L, c) then [CmdKey(L, c), CmdVal(L, c)] else [])
      ensures ReadKeys(L, cmds + [c]) == ReadKeys(L, cmds) + (if IsWrite(L, c) then [] else [CmdKey(L, c)])
      ensures WriteCount(L, cmds + [c]) == WriteCount(L, cmds) + (if IsWrite(L, c) then 1 else 0)
    {
      assert (cmds + [c])[..|cmds|] == cmds;
    }

    /** The cursor is in a row, and not beyond position q. */
    predicate Cursor(i: nat, j: nat, q: nat) {
      j < L.clientBatch && Cells(i, L.clientBatch) + j <= q
    }

    lemma CursorInTable(i: nat, j: nat, q: nat, rows: nat)
      requires Cursor(i, j, q) && q < Cells(rows, L.clientBatch)
      ensures i < rows
    {
      Product(i, rows, L.clientBatch);
    }

    lemma CursorAtStart(q: nat, rows: nat)
      requires q < Cells(rows, L.clientBatch)
      ensures Cursor(0, 0, q)
    {
      CellsBefore(0, rows, L.clientBatch);
      Product(0, rows, L.clientBatch);
    }

    /** Moves the cursor to the next empty reply, which is at position q. */
    method NextRead(replies: seq<seq<Bytes>>, i: nat, j: nat, ghost q: nat) returns (i': nat, j': nat)
      requires Table(replies, L.clientBatch) && Cursor(i, j, q) && q < |Flat(replies)|
      requires Flat(replies)[q] == [] && forall f :: 0 <= f < q ==> Flat(replies)[f] != []
      ensures i' < |replies| && j' < L.clientBatch && Cells(i', L.clientBatch) + j' == q
    {
      hide Flat, Cells;
      FlatSize(replies, L.clientBatch);
      i', j' := i, j;
      CursorInTable(i', j', q, |replies|);
      FlatTable(replies, L.clientBatch, i', j', []);
      while |replies[i'][j']| != 0
        invariant Cursor(i', j', q) && i' < |replies|
        invariant Flat(replies)[Cells(i', L.clientBatch) + j'] == replies[i'][j']
        decreases q - (Cells(i', L.clientBatch) + j')
      {
        assert Cells(i', L.clientBatch) + j' < q;
        CellsBefore(0, i', L.clientBatch);
        j' := j' + 1;
        if j' == L.clientBatch {
          j' := 0;
          i' := i' + 1;
        }
        CursorInTable(i', j', q, |replies|);
        FlatTable(replies, L.clientBatch, i', j', []);
      }
    }

    lemma ScatterStep(replies: seq<seq<Bytes>>, cmds: seq<Bytes>, data: Store, m: nat, i: nat, j: nat, rep: Bytes)
      requires AllCmds(L, cmds) && m < |Reads(L, cmds)|
      requires Table(replies, L.clientBatch) && i < |replies| && j < L.clientBatch
      requires Flat(replies) == Filled(L, data, cmds, Frontier(L, cmds, m))
      requires var q := Reads(L, cmds)[m];
        var key := CmdKey(L, cmds[q]);
        && Cells(i, L.clientBatch) + j == q
        && rep == cmds[q][..1 + L.keyLen] + if key in data then data[key] else []
      ensures var replies' := replies[i := replies[i][j := rep]];
        Table(replies', L.clientBatch) && Flat(replies') == Filled(L, data, cmds, Frontier(L, cmds, m + 1))
      ensures m + 1 < |Reads(L, cmds)| ==> Cursor(i, j, Reads(L, cmds)[m + 1])
    {
      hide Flat, Reads, Filled;
      FlatTable(replies, L.clientBatch, i, j, rep);
      FillNext(L, data, cmds, m);
      NextFrontier(L, cmds, m);
    }

    /** The value MGET has for the m-th read. */
    ghost predicate ValueOf(cmds: seq<Bytes>, data: Store, m: nat, v: Option<Bytes>)
      requires AllCmds(L, cmds) && m < |Reads(L, cmds)|
    {
      var key := CmdKey(L, cmds[Reads(L, cmds)[m]]);
      v == if key in data then Some(data[key]) else None
    }

    /** The first m reads are answered, and the cursor is not beyond the next one. */
    ghost predicate Scattered(n: nat, replies: seq<seq<Bytes>>, i: nat, j: nat, cmds: seq<Bytes>, data: Store, m: nat)
      requires AllCmds(L, cmds)
    {
      && |replies| == n && Table(replies, L.clientBatch)
      && m <= |Reads(L, cmds)| && Flat(replies) == Filled(L, data, cmds, Frontier(L, cmds, m))
      && (m < |Reads(L, cmds)| ==> Cursor(i, j, Reads(L, cmds)[m]))
    }

    lemma ScatterStart(acks: seq<seq<Bytes>>, cmds: seq<Bytes>, data: Store)
      requires AllCmds(L, cmds) && Table(acks, L.clientBatch) && Flat(acks) == Acks(L, cmds)
      ensures Scattered(|acks|, acks, 0, 0, cmds, data, 0)
    {
      hide Flat, Acks, Reads, Filled, Cursor, Cells;
      AcksFilled(L, data, cmds);
      FlatSize(acks, L.clientBatch);
      if |Reads(L, cmds)| > 0 { CursorAtStart(Reads(L, cmds)[0], |acks|); }
    }

    lemma ScatterEnd(n: nat, replies: seq<seq<Bytes>>, i: nat, j: nat, cmds: seq<Bytes>, data: Store)
      requires AllCmds(L, cmds) && Scattered(n, replies, i, j, cmds, data, |Reads(L, cmds)|)
      ensures |replies| == n && Table(replies, L.clientBatch) && Flat(replies) == BatchAnswers(L, data, cmds)
    {
      hide Flat, Acks, Reads, Filled, Cursor;
      AcksFilled(L, data, cmds);
    }

    /** Moves the cursor to the m-th read and answers it with the m-th value. */
    method AnswerNext(replies: seq<seq<Bytes>>, i: nat, j: nat, v: Option<Bytes>,
                      ghost cmds: seq<Bytes>, ghost data: Store, ghost m: nat)
      returns (replies': seq<seq<Bytes>>, i': nat, j': nat)
      requires WellFormed(L, CurrDec) && cmds == Taken(L, CurrDec) && m < |Reads(L, cmds)|
      requires Scattered(|replies|, replies, i, j, cmds, data, m) && ValueOf(cmds, data, m, v)
      ensures Scattered(|replies|, replies', i', j', cmds, data, m + 1)
    {
      hide Flat, Reads, Filled, Frontier, Cursor, Cells, ValueOf, Table;
      AnsweredIsNotEmpty(L, data, cmds, m);
      i', j' := NextRead(replies, i, j, Reads(L, cmds)[m]);
      replies' := FillRead(replies, i', j', v, cmds, data, m);
    }

    /** Answers the m-th read, which is at (i, j), with the m-th value. */
    method FillRead(replies: seq<seq<Bytes>>, i: nat, j: nat, v: Option<Bytes>,
                    ghost cmds: seq<Bytes>, ghost data: Store, ghost m: nat)
      returns (replies': seq<seq<Bytes>>)
      requires WellFormed(L, CurrDec) && cmds == Taken(L, CurrDec) && m < |Reads(L, cmds)|
      requires Table(replies, L.clientBatch) && i < |replies| && j < L.clientBatch
      requires Cells(i, L.clientBatch) + j == Reads(L, cmds)[m] && ValueOf(cmds, data, m, v)
      requires Flat(replies) == Filled(L, data, cmds, Frontier(L, cmds, m))
      ensures |replies'| == |replies| && Table(replies', L.clientBatch)
      ensures Flat(replies') == Filled(L, data, cmds, Frontier(L, cmds, m + 1))
      ensures m + 1 < |Reads(L, cmds)| ==> Cursor(i, j, Reads(L, cmds)[m + 1])
    {
      hide Flat, Reads, Filled, Frontier, Cursor;
      var req := CurrDec.commands[i * L.clientBatch + j][..1 + L.keyLen];
      var rep := if v.None? then req else req + v.value;
      ScatterStep(replies, cmds, data, m, i, j, rep);
      replies' := replies[i := replies[i][j := rep]];
    }

    /** Puts the answers of MGET where the replies are empty, in order. The cursor (repliesI,
        repliesJ) stays within the table. */
    method Scatter(acks: seq<seq<Bytes>>, vs: seq<Option<Bytes>>, ghost cmds: seq<Bytes>, ghost data: Store)
      returns (replies: seq<seq<Bytes>>)
      requires WellFormed(L, CurrDec) && cmds == Taken(L, CurrDec)
      requires |acks| == |CurrDec.cliIds| && Table(acks, L.clientBatch) && Flat(acks) == Acks(L, cmds)
      requires |vs| == |Reads(L, cmds)| && forall m :: 0 <= m < |vs| ==> ValueOf(cmds, data, m, vs[m])
      ensures |replies| == |acks| && Table(replies, L.clientBatch)
      ensures Flat(replies) == BatchAnswers(L, data, cmds)
    {
      hide Scattered, ValueOf, WellFormed, Taken, Table, Flat, Acks, Reads, BatchAnswers;
      replies := acks;
      var repliesI, repliesJ: nat := 0, 0;
      ScatterStart(acks, cmds, data);
      for m := 0 to |vs|
        invariant |replies| == |acks| && Scattered(|acks|, replies, repliesI, repliesJ, cmds, data, m)
      {
        replies, repliesI, repliesJ := AnswerNext(replies, repliesI, repliesJ, vs[m], cmds, data, m);
        ScatterSize(|acks|, replies, repliesI, repliesJ, cmds, data, m + 1);
      }
      ScatterEnd(|acks|, replies, repliesI, repliesJ, cmds, data);
    }

    lemma ScatterSize(n: nat, replies: seq<seq<Bytes>>, i: nat, j: nat, cmds: seq<Bytes>, data: Store, m: nat)
      requires AllCmds(L, cmds) && Scattered(n, replies, i, j, cmds, data, m)
      ensures |replies| == n
    {
    }

    /** Not ok: it cannot be executed, or a sequence number is missing, and the server panics. */
    method BatchExecuteAndReply() returns (ok: bool, ghost rows: seq<seq<Bytes>>)
      modifies RedisClient, this`Sent
      ensures ok <==> WellFormed(L, CurrDec) && FitsBuffers(L, Taken(L, CurrDec)) && Answerable(Conns, CurrDec)
      ensures ok ==>
        && RedisClient.Data == RunStore(L, old(RedisClient.Data), Taken(L, CurrDec))
        && Flat(rows) == BatchAnswers(L, RedisClient.Data, Taken(L, CurrDec))
        && |rows| == |CurrDec.cliIds| && Table(rows, L.clientBatch)
        && Sent == old(Sent) + Replies(Conns, CurrDec, rows)
    {
      hide RunStore, BatchAnswers, Flat, WellFormed, FitsBuffers;
      var replies, valid := RedisBatchExecuteCmd();
      if !valid {
        return false, [];
      }
      rows := replies;
      for idx := 0 to |CurrDec.cliIds|
        invariant RedisClient.Data == RunStore(L, old(RedisClient.Data), Taken(L, CurrDec))
        invariant forall k :: 0 <= k < idx && CurrDec.cliIds[k] in Conns ==> k < |CurrDec.cliSeqs|
        invariant Sent == old(Sent) + Replies(Conns, CurrDec, rows[..idx])
      {
        assert rows[..idx + 1][..idx] == rows[..idx];
        if CurrDec.cliIds[idx] in Conns {
          if idx >= |CurrDec.cliSeqs| {
            return false, rows;
          }
          Sent := Sent + [Command(CurrDec.cliIds[idx], CurrDec.cliSeqs[idx], CurrDec.svrSeq, replies[idx])];
        }
      }
      assert rows[..|rows|] == rows;
      return true, rows;
    }

    // -------------------------------------------------------------- taking decisions from the ring

    /** The data that the clients' commands work on. */
    ghost function Data(): Store
      reads this, RedisClient
    {
      if L.batched then RedisClient.Data else KVStore
    }

    /** executeAndReplyFunc, which the storage mode selects. Not ok: the server panics. */
    method ExecuteAndReply() returns (ok: bool, ghost rows: seq<seq<Bytes>>)
      modifies this`KVStore, this`Sent, RedisClient
      ensures ok <==> Executable(L, CurrDec) && Answerable(Conns, CurrDec)
      ensures ok ==>
        && Data() == RunStore(L, old(Data()), Taken(L, CurrDec))
        && |rows| == |CurrDec.cliIds| && Table(rows, L.clientBatch)
        && Flat(rows) == Answers(L, old(Data()), Taken(L, CurrDec))
        && Sent == old(Sent) + Replies(Conns, CurrDec, rows)
    {
      hide RunStore, RunAnswers, BatchAnswers, Flat, WellFormed, FitsBuffers;
      if L.batched {
        ok, rows := BatchExecuteAndReply();
      } else {
        ok, rows := SingleExecuteAndReply();
      }
    }

    /** One turn of the loop of KVSExecutor: nothing happens until the next slot is decided; then its
        decision is executed, and the slot is given back. Not ok: the decision cannot be executed or
        answered, and the server panics. */
    method KVSExecutor() returns (executed: bool, ok: bool)
      requires Ring.Valid() && Ring.Consumed == CurrSeq < 0xFFFF_FFFF
      modifies this, RedisClient, Ring`Consumed
      ensures Ring.Valid() && Ring.Consumed == CurrSeq && Ring.Log == old(Ring.Log) && Conns == old(Conns)
      ensures var v := LogAt(Ring.Log, old(CurrSeq));
        && (ok <==> v.isDone && !v.decision.isNull ==> Executable(L, v.decision) && Answerable(Conns, v.decision))
        && (executed <==> ok && v.isDone)
      ensures CurrSeq == old(CurrSeq) + if executed then 1 else 0
      ensures ok && !executed ==> Data() == old(Data()) && Sent == old(Sent)
      ensures executed ==>
        Data() == RunStore(L, old(Data()), Executed(L, LogAt(Ring.Log, old(CurrSeq)).decision))
      ensures executed && LogAt(Ring.Log, old(CurrSeq)).decision.isNull ==> Sent == old(Sent)
      ensures executed && !LogAt(Ring.Log, old(CurrSeq)).decision.isNull ==>
        Answered(Conns, LogAt(Ring.Log, old(CurrSeq)).decision, old(Data()), old(Sent), Sent)
    {
      hide Represents, Tallies, Slot.Counters, RunStore, Answers, Answered, Executable, Answerable;
      var slot := CurrSeq % LEN_LEDGER;
      Ring.ConsumedIsDone(CurrSeq);
      if CurrSeq / LEN_LEDGER != Ring.Slots[slot].Term {
        Ring.NotHeldIsFresh(CurrSeq);
        return false, true;
      }
      Ring.HeldAtTerm(CurrSeq);
      if !Ring.Slots[slot].IsDone {
        return false, true;
      }
      CurrDec := Ring.Slots[slot].Decision;
      ghost var was, sent := Data(), Sent;
      if CurrDec.isNull {
        RunNone(L, Data());
        CurrSeq := CurrSeq + 1;
      } else {
        var valid; ghost var rows;
        valid, rows := ExecuteAndReply();
        if !valid {
          return false, false;
        }
        AnsweredBy(Conns, CurrDec, was, sent, Sent, rows);
        CurrSeq := CurrSeq + 1;
      }
      Ring.ConsumeNext();
      return true, true;
    }

    /** The connected clients got the answers to their requests on the store. */
    ghost predicate Answered(conns: set<uint32>, dec: ConsensusObj, store: Store, sent: seq<Command>, sent': seq<Command>)
    {
      Executable(L, dec) && Answerable(conns, dec) && exists rows: seq<seq<Bytes>> ::
        && |rows| == |dec.cliIds| && Table(rows, L.clientBatch)
        && Flat(rows) == Answers(L, store, Taken(L, dec))
        && sent' == sent + Replies(conns, dec, rows)
    }

    lemma AnsweredBy(conns: set<uint32>, dec: ConsensusObj, store: Store, sent: seq<Command>, sent': seq<Command>,
                     rows: seq<seq<Bytes>>)
      requires Executable(L, dec) && Answerable(conns, dec)
      requires |rows| == |dec.cliIds| && Table(rows, L.clientBatch)
      requires Flat(rows) == Answers(L, store, Taken(L, dec))
      requires sent' == sent + Replies(conns, dec, rows)
      ensures Answered(conns, dec, store, sent, sent')
    {
    }
  }
}
