/** Executing a whole decision with one MSET and one MGET: what it answers, and when that is what
    one-at-a-time execution answers.
    Source: roles/server/layers/proxy/redis.go. */
module Redis {
  import opened Messages
  import opened KvStore

  /** The data of a Redis server. */
  class RedisClient {
    var Data: Store

    constructor ()
      ensures Data == map[]
    {
      Data := map[];
    }

    /** Sets pairs of a key and a value; the last pair of a key wins. */
    method MSet(pairs: seq<Bytes>)
      requires |pairs| % 2 == 0
      modifies this
      ensures Data == MSetStore(old(Data), pairs)
    {
      var i := 0;
      while i < |pairs|
        invariant 0 <= i <= |pairs| && i % 2 == 0
        invariant Data == MSetStore(old(Data), pairs[..i])
      {
        Data := Data[pairs[i] := pairs[i + 1]];
        assert pairs[..i + 2][..i] == pairs[..i];
        i := i + 2;
      }
      assert pairs[..|pairs|] == pairs;
    }

    /** The values of keys; None is nil, the answer for a missing key. */
    method MGet(keys: seq<Bytes>) returns (vs: seq<Option<Bytes>>)
      ensures |vs| == |keys|
      ensures forall i :: 0 <= i < |keys| ==> vs[i] == if keys[i] in Data then Some(Data[keys[i]]) else None
    {
      vs := [];
      for i := 0 to |keys|
        invariant |vs| == i
        invariant forall k :: 0 <= k < i ==> vs[k] == if keys[k] in Data then Some(Data[keys[k]]) else None
      {
        vs := vs + [if keys[i] in Data then Some(Data[keys[i]]) else None];
      }
    }
  }

  function MSetStore(store: Store, pairs: seq<Bytes>): Store
    requires |pairs| % 2 == 0
  {
    if |pairs| == 0 then store
    else MSetStore(store, pairs[..|pairs| - 2])[pairs[|pairs| - 2] := pairs[|pairs| - 1]]
  }

  /** The keys and values of the writes, in order. */
  function Pairs(L: Layout, cmds: seq<Bytes>): (r: seq<Bytes>)
    requires AllCmds(L, cmds)
    ensures |r| % 2 == 0
  {
    if |cmds| == 0 then []
    else
      var c := cmds[|cmds| - 1];
      Pairs(L, cmds[..|cmds| - 1]) + if IsWrite(L, c) then [CmdKey(L, c), CmdVal(L, c)] else []
  }

  /** The positions of the reads, in order. */
  function Reads(L: Layout, cmds: seq<Bytes>): (r: seq<nat>)
    requires AllCmds(L, cmds)
    ensures forall i :: 0 <= i < |r| ==> r[i] < |cmds| && !IsWrite(L, cmds[r[i]])
  {
    if |cmds| == 0 then []
    else
      Reads(L, cmds[..|cmds| - 1]) + if IsWrite(L, cmds[|cmds| - 1]) then [] else [|cmds| - 1]
  }

  /** The keys of the reads, in order. */
  function ReadKeys(L: Layout, cmds: seq<Bytes>): seq<Bytes>
    requires AllCmds(L, cmds)
  {
    if |cmds| == 0 then []
    else
      var c := cmds[|cmds| - 1];
      ReadKeys(L, cmds[..|cmds| - 1]) + if IsWrite(L, c) then [] else [CmdKey(L, c)]
  }

  /** The replies before MGET: writes are acknowledged, reads are left empty. */
  function Acks(L: Layout, cmds: seq<Bytes>): (r: seq<Bytes>)
    requires AllCmds(L, cmds)
    ensures |r| == |cmds|
  {
    if |cmds| == 0 then []
    else
      var c := cmds[|cmds| - 1];
      Acks(L, cmds[..|cmds| - 1]) + if IsWrite(L, c) then [[WRITE] + CmdKey(L, c) + OK] else [[]]
  }

  lemma {:induction false} PairsAppend(L: Layout, a: seq<Bytes>, b: seq<Bytes>)
    requires AllCmds(L, a) && AllCmds(L, b)
    ensures Pairs(L, a + b) == Pairs(L, a) + Pairs(L, b)
  {
    if |b| == 0 {
      assert a + b == a;
    } else {
      var front := b[..|b| - 1];
      PairsAppend(L, a, front);
      assert (a + b)[..|a + b| - 1] == a + front;
    }
  }

  lemma {:induction false} ReadKeysAppend(L: Layout, a: seq<Bytes>, b: seq<Bytes>)
    requires AllCmds(L, a) && AllCmds(L, b)
    ensures ReadKeys(L, a + b) == ReadKeys(L, a) + ReadKeys(L, b)
  {
    if |b| == 0 {
      assert a + b == a;
    } else {
      var front := b[..|b| - 1];
      ReadKeysAppend(L, a, front);
      assert (a + b)[..|a + b| - 1] == a + front;
    }
  }

  lemma {:induction false} AcksAppend(L: Layout, a: seq<Bytes>, b: seq<Bytes>)
    requires AllCmds(L, a) && AllCmds(L, b)
    ensures Acks(L, a + b) == Acks(L, a) + Acks(L, b)
  {
    if |b| == 0 {
      assert a + b == a;
    } else {
      var front := b[..|b| - 1];
      AcksAppend(L, a, front);
      assert (a + b)[..|a + b| - 1] == a + front;
    }
  }

  lemma {:induction false} WriteCountAppend(L: Layout, a: seq<Bytes>, b: seq<Bytes>)
    requires AllCmds(L, a) && AllCmds(L, b)
    ensures WriteCount(L, a + b) == WriteCount(L, a) + WriteCount(L, b)
  {
    if |b| == 0 {
      assert a + b == a;
    } else {
      var front := b[..|b| - 1];
      WriteCountAppend(L, a, front);
      assert (a + b)[..|a + b| - 1] == a + front;
    }
  }

  lemma CollectStep(L: Layout, cmds: seq<Bytes>, j: nat)
    requires AllCmds(L, cmds) && j < |cmds|
    ensures var c := cmds[j];
      && Pairs(L, cmds[..j + 1]) == Pairs(L, cmds[..j]) + (if IsWrite(L, c) then [CmdKey(L, c), CmdVal(L, c)] else [])
      && ReadKeys(L, cmds[..j + 1]) == ReadKeys(L, cmds[..j]) + (if IsWrite(L, c) then [] else [CmdKey(L, c)])
      && Acks(L, cmds[..j + 1]) ==
           Acks(L, cmds[..j]) + (if IsWrite(L, c) then [[WRITE] + CmdKey(L, c) + OK] else [[]])
      && WriteCount(L, cmds[..j + 1]) == WriteCount(L, cmds[..j]) + (if IsWrite(L, c) then 1 else 0)
  {
    assert cmds[..j + 1][..j] == cmds[..j];
  }

  lemma {:induction false} ReadKeysAt(L: Layout, cmds: seq<Bytes>)
    requires AllCmds(L, cmds)
    ensures |ReadKeys(L, cmds)| == |Reads(L, cmds)|
    ensures forall i :: 0 <= i < |Reads(L, cmds)| ==> ReadKeys(L, cmds)[i] == CmdKey(L, cmds[Reads(L, cmds)[i]])
  {
    if |cmds| > 0 { ReadKeysAt(L, cmds[..|cmds| - 1]); }
  }

  lemma {:induction false} CollectSizes(L: Layout, cmds: seq<Bytes>)
    requires AllCmds(L, cmds)
    ensures |Pairs(L, cmds)| == 2 * WriteCount(L, cmds) && |ReadKeys(L, cmds)| == |cmds| - WriteCount(L, cmds)
  {
    if |cmds| > 0 { CollectSizes(L, cmds[..|cmds| - 1]); }
  }

  /** What a command is answered when all writes come first. The operation byte of a read is
      echoed. */
  function BatchAnswer(L: Layout, final: Store, cmd: Bytes): Bytes
    requires IsCmd(L, cmd)
  {
    if IsWrite(L, cmd) then [WRITE] + CmdKey(L, cmd) + OK
    else cmd[..1 + L.keyLen] + Lookup(final, CmdKey(L, cmd))
  }

  function BatchAnswers(L: Layout, final: Store, cmds: seq<Bytes>): (r: seq<Bytes>)
    requires AllCmds(L, cmds)
    ensures |r| == |cmds| && forall f :: 0 <= f < |cmds| ==> r[f] == BatchAnswer(L, final, cmds[f])
  {
    seq(|cmds|, f requires 0 <= f < |cmds| => BatchAnswer(L, final, cmds[f]))
  }

  /** The answers to the commands of one decision in the storage mode of the deployment. The store is
      the same in both. */
  function Answers(L: Layout, store: Store, cmds: seq<Bytes>): (r: seq<Bytes>)
    requires AllCmds(L, cmds)
    ensures |r| == |cmds|
  {
    if L.batched then BatchAnswers(L, RunStore(L, store, cmds), cmds) else RunAnswers(L, store, cmds)
  }

  /** The replies when the reads before position b are answered and the others are not. */
  function Filled(L: Layout, final: Store, cmds: seq<Bytes>, b: nat): (r: seq<Bytes>)
    requires AllCmds(L, cmds)
    ensures |r| == |cmds|
    ensures forall f :: 0 <= f < |cmds| ==>
      r[f] == if IsWrite(L, cmds[f]) || f < b then BatchAnswer(L, final, cmds[f]) else []
  {
    seq(|cmds|, f requires 0 <= f < |cmds| =>
      if IsWrite(L, cmds[f]) || f < b then BatchAnswer(L, final, cmds[f]) else [])
  }

  /** Where the answers of the first m reads end: at the next read, or at the end. */
  function Frontier(L: Layout, cmds: seq<Bytes>, m: nat): nat
    requires AllCmds(L, cmds)
  {
    if m < |Reads(L, cmds)| then Reads(L, cmds)[m] else |cmds|
  }

  lemma {:induction false} ReadsOrdered(L: Layout, cmds: seq<Bytes>)
    requires AllCmds(L, cmds)
    ensures forall i, j :: 0 <= i < j < |Reads(L, cmds)| ==> Reads(L, cmds)[i] < Reads(L, cmds)[j]
    ensures forall f: nat :: f < |cmds| && !IsWrite(L, cmds[f]) ==> f in Reads(L, cmds)
  {
    if |cmds| > 0 {
      var front := cmds[..|cmds| - 1];
      ReadsOrdered(L, front);
      forall f: nat | f < |cmds| && !IsWrite(L, cmds[f])
        ensures f in Reads(L, cmds)
      {
        if f < |front| { assert front[f] == cmds[f]; }
      }
    }
  }

  /** Between two frontiers there is one read. */
  lemma NextFrontier(L: Layout, cmds: seq<Bytes>, m: nat)
    requires AllCmds(L, cmds) && m < |Reads(L, cmds)|
    ensures var q := Reads(L, cmds)[m];
      && Frontier(L, cmds, m) == q < Frontier(L, cmds, m + 1) <= |cmds|
      && forall f :: q < f < Frontier(L, cmds, m + 1) ==> IsWrite(L, cmds[f])
  {
    ReadsOrdered(L, cmds);
    var rs := Reads(L, cmds);
    forall i | 0 <= i < |rs|
      ensures rs[i] <= rs[m] || rs[i] >= Frontier(L, cmds, m + 1)
    {
      assert i > m + 1 ==> rs[m + 1] < rs[i];
    }
  }

  /** Before MGET every write is answered, and no read; after it everything is. */
  lemma {:induction false} AcksFilled(L: Layout, final: Store, cmds: seq<Bytes>)
    requires AllCmds(L, cmds)
    ensures Acks(L, cmds) == Filled(L, final, cmds, Frontier(L, cmds, 0))
    ensures Filled(L, final, cmds, Frontier(L, cmds, |Reads(L, cmds)|)) == BatchAnswers(L, final, cmds)
  {
    ReadsOrdered(L, cmds);
    forall f | 0 <= f < |cmds|
      ensures Acks(L, cmds)[f] == if IsWrite(L, cmds[f]) then BatchAnswer(L, final, cmds[f]) else []
    {
      AcksAt(L, cmds, f);
    }
  }

  lemma {:induction false} AcksAt(L: Layout, cmds: seq<Bytes>, f: nat)
    requires AllCmds(L, cmds) && f < |cmds|
    ensures Acks(L, cmds)[f] == if IsWrite(L, cmds[f]) then [WRITE] + CmdKey(L, cmds[f]) + OK else []
  {
    if f < |cmds| - 1 { AcksAt(L, cmds[..|cmds| - 1], f); }
  }

  /** Answering the read at a frontier moves it to the next one. */
  lemma FillNext(L: Layout, final: Store, cmds: seq<Bytes>, m: nat)
    requires AllCmds(L, cmds) && m < |Reads(L, cmds)|
    ensures var q := Reads(L, cmds)[m];
      Filled(L, final, cmds, q)[q := BatchAnswer(L, final, cmds[q])] == Filled(L, final, cmds, Frontier(L, cmds, m + 1))
  {
    hide BatchAnswer, Reads;
    NextFrontier(L, cmds, m);
  }

  lemma AnsweredIsNotEmpty(L: Layout, final: Store, cmds: seq<Bytes>, m: nat)
    requires AllCmds(L, cmds) && m < |Reads(L, cmds)|
    ensures var q := Reads(L, cmds)[m];
      var replies := Filled(L, final, cmds, Frontier(L, cmds, m));
      replies[q] == [] && forall f :: 0 <= f < q ==> replies[f] != []
  {
  }

  lemma NoPairs(L: Layout, store: Store)
    ensures MSetStore(store, []) == store
  {
  }

  // ---------------------------------------------------------------- what the batch means

  /** MSET leaves the store that one-at-a-time execution leaves. */
  lemma {:induction false} SameStore(L: Layout, store: Store, cmds: seq<Bytes>)
    requires AllCmds(L, cmds)
    ensures MSetStore(store, Pairs(L, cmds)) == RunStore(L, store, cmds)
  {
    if |cmds| > 0 {
      var front := cmds[..|cmds| - 1];
      SameStore(L, store, front);
      var c := cmds[|cmds| - 1];
      if IsWrite(L, c) {
        assert Pairs(L, cmds)[..|Pairs(L, cmds)| - 2] == Pairs(L, front);
      } else {
        assert Pairs(L, cmds) == Pairs(L, front);
      }
    }
  }

  function Writes(L: Layout, cmds: seq<Bytes>): (r: seq<Bytes>)
    requires AllCmds(L, cmds)
    ensures AllCmds(L, r) && forall i :: 0 <= i < |r| ==> IsWrite(L, r[i])
  {
    if |cmds| == 0 then []
    else Writes(L, cmds[..|cmds| - 1]) + if IsWrite(L, cmds[|cmds| - 1]) then [cmds[|cmds| - 1]] else []
  }

  lemma {:induction false} WritesStore(L: Layout, store: Store, cmds: seq<Bytes>)
    requires AllCmds(L, cmds)
    ensures RunStore(L, store, Writes(L, cmds)) == RunStore(L, store, cmds)
  {
    if |cmds| > 0 {
      var front, c := cmds[..|cmds| - 1], cmds[|cmds| - 1];
      WritesStore(L, store, front);
      if IsWrite(L, c) {
        assert Writes(L, cmds)[..|Writes(L, cmds)| - 1] == Writes(L, front);
      } else {
        assert Writes(L, cmds) == Writes(L, front);
      }
    }
  }

  /** The read commands, in order. */
  function ReadCmds(L: Layout, cmds: seq<Bytes>): (r: seq<Bytes>)
    requires AllCmds(L, cmds)
    ensures |r| == |Reads(L, cmds)| && AllCmds(L, r)
    ensures forall i :: 0 <= i < |r| ==> r[i] == cmds[Reads(L, cmds)[i]]
  {
    seq(|Reads(L, cmds)|, i requires 0 <= i < |Reads(L, cmds)| => cmds[Reads(L, cmds)[i]])
  }

  lemma {:induction false} ReadsDoNotWrite(L: Layout, store: Store, gets: seq<Bytes>, i: nat)
    requires AllCmds(L, gets) && (forall j :: 0 <= j < |gets| ==> !IsWrite(L, gets[j])) && i < |gets|
    ensures RunStore(L, store, gets) == store
    ensures RunAnswers(L, store, gets)[i] == Answer(L, store, gets[i])
  {
    var front := gets[..|gets| - 1];
    if i < |front| {
      ReadsDoNotWrite(L, store, front, i);
    } else if |front| > 0 {
      ReadsDoNotWrite(L, store, front, 0);
    }
  }

  /** The batch answers its commands as if all its writes had been executed first, in order, and
      then its reads, in order: the m-th MGET answer is what the m-th read then gets, but for the
      operation byte, which is echoed instead of being replaced by '1'. */
  lemma WritesThenReads(L: Layout, store: Store, cmds: seq<Bytes>, m: nat)
    requires AllCmds(L, cmds) && m < |Reads(L, cmds)|
    ensures var f := Reads(L, cmds)[m];
      var final := RunStore(L, store, cmds);
      var reordered := RunAnswers(L, store, Writes(L, cmds) + ReadCmds(L, cmds));
      && RunStore(L, store, Writes(L, cmds) + ReadCmds(L, cmds)) == final
      && |reordered| == |Writes(L, cmds)| + |Reads(L, cmds)| && |reordered[|Writes(L, cmds)| + m]| > 0
      && BatchAnswer(L, final, cmds[f])[1..] == reordered[|Writes(L, cmds)| + m][1..]
      && (BatchAnswer(L, final, cmds[f]) == reordered[|Writes(L, cmds)| + m] <==> cmds[f][0] == READ)
  {
    hide RunStore, Writes, Reads;
    var ws, rs := Writes(L, cmds), ReadCmds(L, cmds);
    WritesStore(L, store, cmds);
    RunAppend(L, store, ws, rs);
    ReadsDoNotWrite(L, RunStore(L, store, ws), rs, m);
    EchoedAnswer(L, RunStore(L, store, cmds), cmds[Reads(L, cmds)[m]]);
  }

  lemma EchoedAnswer(L: Layout, store: Store, cmd: Bytes)
    requires IsCmd(L, cmd) && !IsWrite(L, cmd)
    ensures BatchAnswer(L, store, cmd) == [cmd[0]] + Answer(L, store, cmd)[1..]
    ensures BatchAnswer(L, store, cmd)[1..] == Answer(L, store, cmd)[1..]
    ensures BatchAnswer(L, store, cmd) == Answer(L, store, cmd) <==> cmd[0] == READ
  {
    assert cmd[..1 + L.keyLen] == [cmd[0]] + CmdKey(L, cmd);
  }

  /** The value a key gets from the last write to it in a list of commands, if there is one. */
  function LastWrite(L: Layout, cmds: seq<Bytes>, key: Bytes): Option<Bytes>
    requires AllCmds(L, cmds)
  {
    if |cmds| == 0 then None
    else
      var c := cmds[|cmds| - 1];
      if IsWrite(L, c) && CmdKey(L, c) == key then Some(CmdVal(L, c)) else LastWrite(L, cmds[..|cmds| - 1], key)
  }

  lemma {:induction false} LookupAfter(L: Layout, store: Store, cmds: seq<Bytes>, key: Bytes)
    requires AllCmds(L, cmds)
    ensures Lookup(RunStore(L, store, cmds), key) ==
      match LastWrite(L, cmds, key) case Some(v) => v case None => Lookup(store, key)
  {
    if |cmds| > 0 {
      LookupAfter(L, store, cmds[..|cmds| - 1], key);
    }
  }

  lemma {:induction false} AnswerAt(L: Layout, store: Store, cmds: seq<Bytes>, f: nat)
    requires AllCmds(L, cmds) && f < |cmds|
    ensures RunAnswers(L, store, cmds)[f] == Answer(L, RunStore(L, store, cmds[..f]), cmds[f])
  {
    if f < |cmds| - 1 {
      AnswerAt(L, store, cmds[..|cmds| - 1], f);
      assert cmds[..|cmds| - 1][..f] == cmds[..f];
    }
  }

  /** The batch answers a command as one-at-a-time execution does if and only if it is a write, or
      it is a read with operation byte '1' of a key that either is not written by a later command
      of the batch, or is left by the later writes with the value it already has. */
  predicate Unaffected(L: Layout, store: Store, cmds: seq<Bytes>, f: nat)
    requires AllCmds(L, cmds) && f < |cmds|
  {
    || IsWrite(L, cmds[f])
    || (cmds[f][0] == READ
        && match LastWrite(L, cmds[f + 1..], CmdKey(L, cmds[f]))
           case None => true
           case Some(v) => v == Lookup(RunStore(L, store, cmds[..f]), CmdKey(L, cmds[f])))
  }

  lemma SameAnswer(L: Layout, store: Store, cmds: seq<Bytes>, f: nat)
    requires AllCmds(L, cmds) && f < |cmds|
    ensures BatchAnswer(L, RunStore(L, store, cmds), cmds[f]) == RunAnswers(L, store, cmds)[f]
            <==> Unaffected(L, store, cmds, f)
  {
    hide RunStore, RunAnswers, LastWrite;
    var before, after := cmds[..f], cmds[f + 1..];
    AnswerAt(L, store, cmds, f);
    if !IsWrite(L, cmds[f]) {
      var now := RunStore(L, store, before);
      var key := CmdKey(L, cmds[f]);
      assert cmds == before + ([cmds[f]] + after);
      RunAppend(L, store, before, [cmds[f]] + after);
      RunAppend(L, now, [cmds[f]], after);
      ReadsDoNotWrite(L, now, [cmds[f]], 0);
      LookupAfter(L, now, after, key);
      EchoedAnswer(L, RunStore(L, store, cmds), cmds[f]);
      ReadAnswers(L, RunStore(L, store, cmds), now, cmds[f]);
    }
  }

  /** So the replies of a batch are those of one-at-a-time execution exactly when every command is
      unaffected. */
  lemma SameAnswers(L: Layout, store: Store, cmds: seq<Bytes>)
    requires AllCmds(L, cmds)
    ensures BatchAnswers(L, RunStore(L, store, cmds), cmds) == RunAnswers(L, store, cmds)
            <==> forall f: nat :: f < |cmds| ==> Unaffected(L, store, cmds, f)
  {
    hide RunStore, RunAnswers, LastWrite, Unaffected;
    forall f: nat | f < |cmds|
      ensures BatchAnswers(L, RunStore(L, store, cmds), cmds)[f] == RunAnswers(L, store, cmds)[f]
              <==> Unaffected(L, store, cmds, f)
    {
      SameAnswer(L, store, cmds, f);
    }
  }

  /** Two stores give a read the same answer exactly when they hold the same value for its key. */
  lemma ReadAnswers(L: Layout, a: Store, b: Store, cmd: Bytes)
    requires IsCmd(L, cmd) && !IsWrite(L, cmd)
    ensures BatchAnswer(L, a, cmd) == Answer(L, b, cmd)
            <==> cmd[0] == READ && Lookup(a, CmdKey(L, cmd)) == Lookup(b, CmdKey(L, cmd))
  {
    var key := CmdKey(L, cmd);
    assert cmd[..1 + L.keyLen] == [cmd[0]] + key;
    assert BatchAnswer(L, a, cmd)[0] == cmd[0] && Answer(L, b, cmd)[0] == READ;
    assert BatchAnswer(L, a, cmd)[1 + L.keyLen..] == Lookup(a, key);
    assert Answer(L, b, cmd)[1 + L.keyLen..] == Lookup(b, key);
  }

  /** So a batch in which no key is read before a later write to it, and whose reads have operation
      byte '1', is answered as one at a time. */
  lemma NoReadBeforeWrite(L: Layout, store: Store, cmds: seq<Bytes>)
    requires AllCmds(L, cmds)
    requires forall f :: 0 <= f < |cmds| && !IsWrite(L, cmds[f]) ==> cmds[f][0] == READ
    requires forall f, h :: 0 <= f < h < |cmds| && !IsWrite(L, cmds[f]) && IsWrite(L, cmds[h]) ==>
      CmdKey(L, cmds[h]) != CmdKey(L, cmds[f])
    ensures BatchAnswers(L, RunStore(L, store, cmds), cmds) == RunAnswers(L, store, cmds)
  {
    hide RunStore, RunAnswers, LastWrite;
    forall f | 0 <= f < |cmds|
      ensures BatchAnswers(L, RunStore(L, store, cmds), cmds)[f] == RunAnswers(L, store, cmds)[f]
    {
      if !IsWrite(L, cmds[f]) { NotWritten(L, cmds[f + 1..], CmdKey(L, cmds[f])); }
      SameAnswer(L, store, cmds, f);
    }
  }

  lemma {:induction false} NotWritten(L: Layout, cmds: seq<Bytes>, key: Bytes)
    requires AllCmds(L, cmds)
    requires forall h :: 0 <= h < |cmds| && IsWrite(L, cmds[h]) ==> CmdKey(L, cmds[h]) != key
    ensures LastWrite(L, cmds, key).None?
  {
    if |cmds| > 0 {
      NotWritten(L, cmds[..|cmds| - 1], key);
    }
  }

  /** The two modes of execution differ: reading a key that is written later in the batch. */
  lemma BatchIsNotSequential(L: Layout, key: Bytes)
    requires L.keyLen == |key|
    ensures var cmds := [[READ] + key, [WRITE] + key + OK];
      && AllCmds(L, cmds)
      && BatchAnswer(L, RunStore(L, map[], cmds), cmds[0]) != RunAnswers(L, map[], cmds)[0]
  {
    var cmds := [[READ] + key, [WRITE] + key + OK];
    SameAnswer(L, map[], cmds, 0);
    assert cmds[1..] == [cmds[1]] && cmds[..0] == [];
    assert CmdKey(L, cmds[0]) == key == CmdKey(L, cmds[1]);
    assert CmdVal(L, cmds[1]) == OK;
  }

  // ---------------------------------------------------------------- what is written is read

  /** No command after a write writes its key again. */
  predicate NotOverwritten(key: Bytes, after: seq<Bytes>) {
    forall i :: 0 <= i < |after| && |after[i]| > |key| && after[i][0] == 48 ==> after[i][1..1 + |key|] != key
  }

  /** After a client wrote a value under a key, by the bytes '0', key, value, it reads that value, by '1'
      and the key, in either mode, as long as no later command writes the key; it is answered '1', key,
      value. The write itself is answered '0', key, "ok". */
  lemma ReadBack(L: Layout, store: Store, before: seq<Bytes>, key: Bytes, val: Bytes, after: seq<Bytes>)
    requires L.keyLen == |key| && AllCmds(L, before) && AllCmds(L, after) && NotOverwritten(key, after)
    ensures var write, read := [48] + key + val, [49] + key;
      var cmds := before + [write] + after;
      && AllCmds(L, cmds) && AllCmds(L, [read])
      && Answers(L, RunStore(L, store, cmds), [read]) == [[49] + key + val]
      && Answers(L, store, cmds + [read])[|cmds|] == [49] + key + val
      && Answers(L, store, cmds)[|before|] == [48] + key + [111, 107]
  {
    hide RunStore, RunAnswers, BatchAnswers, LastWrite, Answers;
    var write, read: Bytes := [48] + key + val, [49] + key;
    var cmds := before + [write] + after;
    WriteParts(L, key, val);
    ReadParts(L, key);
    StoredValue(L, store, before, key, val, after);
    ReadAnswered(L, RunStore(L, store, cmds), key);
    AnswersLast(L, store, cmds, read);
    AnswersAt(L, store, before, write, after);
  }

  /** A key that is in no store and is not written reads as the empty string. */
  lemma ReadMissing(L: Layout, store: Store, key: Bytes, cmds: seq<Bytes>)
    requires L.keyLen == |key| && AllCmds(L, cmds) && NotOverwritten(key, cmds) && key !in store
    ensures AllCmds(L, [[49] + key]) && Answers(L, RunStore(L, store, cmds), [[49] + key]) == [[49] + key]
  {
    hide RunStore, RunAnswers, BatchAnswers, LastWrite, Answers;
    ReadParts(L, key);
    KeepsNotWritten(L, key, cmds);
    LookupAfter(L, store, cmds, key);
    ReadAnswered(L, RunStore(L, store, cmds), key);
    assert [49] + key + [] == [49] + key;
  }

  lemma WriteParts(L: Layout, key: Bytes, val: Bytes)
    requires L.keyLen == |key|
    ensures var c := [48] + key + val;
      IsCmd(L, c) && IsWrite(L, c) && CmdKey(L, c) == key && CmdVal(L, c) == val
  {
  }

  lemma ReadParts(L: Layout, key: Bytes)
    requires L.keyLen == |key|
    ensures var c := [49] + key; IsCmd(L, c) && !IsWrite(L, c) && CmdKey(L, c) == key && c[..1 + L.keyLen] == c
  {
  }

  lemma KeepsNotWritten(L: Layout, key: Bytes, after: seq<Bytes>)
    requires L.keyLen == |key| && AllCmds(L, after) && NotOverwritten(key, after)
    ensures LastWrite(L, after, key).None?
  {
    NotWritten(L, after, key);
  }

  lemma StoredValue(L: Layout, store: Store, before: seq<Bytes>, key: Bytes, val: Bytes, after: seq<Bytes>)
    requires L.keyLen == |key| && AllCmds(L, before) && AllCmds(L, after) && NotOverwritten(key, after)
    ensures var cmds := before + [[48] + key + val] + after;
      AllCmds(L, cmds) && Lookup(RunStore(L, store, cmds), key) == val
  {
    hide RunAnswers, LastWrite, RunStore;
    var write := [48] + key + val;
    WriteParts(L, key, val);
    RunAppend(L, store, before + [write], after);
    RunLast(L, store, before, write);
    KeepsNotWritten(L, key, after);
    LookupAfter(L, RunStore(L, store, before + [write]), after, key);
  }

  /** A read on a store, in either mode. */
  lemma ReadAnswered(L: Layout, store: Store, key: Bytes)
    requires L.keyLen == |key|
    ensures AllCmds(L, [[49] + key]) && Answers(L, store, [[49] + key]) == [[49] + key + Lookup(store, key)]
  {
    var read: Bytes := [49] + key;
    ReadParts(L, key);
    assert [read][..0] == [];
    ReadsDoNotWrite(L, store, [read], 0);
  }

  lemma AnswersLast(L: Layout, store: Store, cmds: seq<Bytes>, read: Bytes)
    requires AllCmds(L, cmds) && IsCmd(L, read) && !IsWrite(L, read)
    ensures Answers(L, store, cmds + [read])[|cmds|] == Answers(L, RunStore(L, store, cmds), [read])[0]
  {
    hide RunStore, RunAnswers;
    RunAppend(L, store, cmds, [read]);
    ReadsDoNotWrite(L, RunStore(L, store, cmds), [read], 0);
  }

  lemma AnswersAt(L: Layout, store: Store, before: seq<Bytes>, write: Bytes, after: seq<Bytes>)
    requires AllCmds(L, before) && AllCmds(L, after) && IsCmd(L, write) && IsWrite(L, write)
    ensures var cmds := before + [write] + after;
      AllCmds(L, cmds) && Answers(L, store, cmds)[|before|] == [48] + CmdKey(L, write) + [111, 107]
  {
    hide RunStore, RunAnswers;
    var cmds := before + [write] + after;
    AnswerAt(L, store, cmds, |before|);
  }
}
