/** The key-value store that decided batches are applied to, and what clients are answered.
    Source: roles/server/layers/proxy/proxy.go. */
module KvStore {
  import opened Messages

  /** Conf.KeyLen, Conf.ClientBatchSize and Conf.ProxyBatchSize; batched: Conf.StorageMode is 2, so
      decisions are executed with MSET and MGET, and not 0, for the dictionary. */
  datatype Layout = Layout(keyLen: nat, clientBatch: nat, proxyBatch: nat, batched: bool)

  type Store = map<Bytes, Bytes>

  const WRITE: byte := 48
  const READ: byte := 49
  const OK: Bytes := [111, 107]

  /** A command is an operation byte, a key of fixed length, and the value to write. */
  predicate IsCmd(L: Layout, cmd: Bytes) {
    |cmd| >= 1 + L.keyLen
  }

  predicate AllCmds(L: Layout, cmds: seq<Bytes>) {
    forall i :: 0 <= i < |cmds| ==> IsCmd(L, cmds[i])
  }

  predicate IsWrite(L: Layout, cmd: Bytes)
    requires IsCmd(L, cmd)
  {
    cmd[0] == WRITE
  }

  function CmdKey(L: Layout, cmd: Bytes): Bytes
    requires IsCmd(L, cmd)
  {
    cmd[1..1 + L.keyLen]
  }

  function CmdVal(L: Layout, cmd: Bytes): Bytes
    requires IsCmd(L, cmd)
  {
    cmd[1 + L.keyLen..]
  }

  /** A missing key reads as the empty string. */
  function Lookup(store: Store, key: Bytes): Bytes {
    if key in store then store[key] else []
  }

  function StoreAfter(L: Layout, store: Store, cmd: Bytes): Store
    requires IsCmd(L, cmd)
  {
    if IsWrite(L, cmd) then store[CmdKey(L, cmd) := CmdVal(L, cmd)] else store
  }

  function Answer(L: Layout, store: Store, cmd: Bytes): Bytes
    requires IsCmd(L, cmd)
  {
    if IsWrite(L, cmd) then [WRITE] + CmdKey(L, cmd) + OK
    else [READ] + CmdKey(L, cmd) + Lookup(store, CmdKey(L, cmd))
  }

  /** The store after commands were executed one at a time. */
  function RunStore(L: Layout, store: Store, cmds: seq<Bytes>): Store
    requires AllCmds(L, cmds)
  {
    if |cmds| == 0 then store
    else StoreAfter(L, RunStore(L, store, cmds[..|cmds| - 1]), cmds[|cmds| - 1])
  }

  /** And their answers. */
  function RunAnswers(L: Layout, store: Store, cmds: seq<Bytes>): (rs: seq<Bytes>)
    requires AllCmds(L, cmds)
    ensures |rs| == |cmds|
  {
    if |cmds| == 0 then []
    else
      var front := cmds[..|cmds| - 1];
      RunAnswers(L, store, front) + [Answer(L, RunStore(L, store, front), cmds[|cmds| - 1])]
  }

  // ---------------------------------------------------------------- decisions

  /** Where the commands of request idx start. */
  function Offset(L: Layout, idx: nat): nat {
    idx * L.clientBatch
  }

  lemma Product(a: nat, b: nat, c: nat)
    ensures a >= b ==> a * c >= b * c
  {
  }

  /** The commands that are taken, ClientBatchSize for each request, are there and well formed. */
  predicate WellFormed(L: Layout, dec: ConsensusObj) {
    Offset(L, |dec.cliIds|) <= |dec.commands| && AllCmds(L, dec.commands[..Offset(L, |dec.cliIds|)])
  }

  function Taken(L: Layout, dec: ConsensusObj): (cmds: seq<Bytes>)
    requires WellFormed(L, dec)
    ensures AllCmds(L, cmds)
  {
    dec.commands[..Offset(L, |dec.cliIds|)]
  }

  function WriteCount(L: Layout, cmds: seq<Bytes>): (n: nat)
    requires AllCmds(L, cmds)
    ensures n <= |cmds|
  {
    if |cmds| == 0 then 0
    else WriteCount(L, cmds[..|cmds| - 1]) + if IsWrite(L, cmds[|cmds| - 1]) then 1 else 0
  }

  /** The buffers of the MSET/MGET mode have room for the writes and for the reads. */
  predicate FitsBuffers(L: Layout, cmds: seq<Bytes>)
    requires AllCmds(L, cmds)
  {
    WriteCount(L, cmds) <= Offset(L, L.proxyBatch) && |cmds| - WriteCount(L, cmds) <= Offset(L, L.proxyBatch)
  }

  /** A batch of writes only, or of reads only, fits exactly when it has at most ProxyBatchSize times
      ClientBatchSize commands. */
  lemma {:induction false} BufferLimits(L: Layout, cmds: seq<Bytes>, write: bool)
    requires AllCmds(L, cmds) && forall i :: 0 <= i < |cmds| ==> IsWrite(L, cmds[i]) == write
    ensures WriteCount(L, cmds) == if write then |cmds| else 0
    ensures FitsBuffers(L, cmds) <==> |cmds| <= L.proxyBatch * L.clientBatch
  {
    if |cmds| > 0 { BufferLimits(L, cmds[..|cmds| - 1], write); }
  }

  /** Executing the decision does not panic. */
  predicate Executable(L: Layout, dec: ConsensusObj) {
    WellFormed(L, dec) && (L.batched ==> FitsBuffers(L, Taken(L, dec)))
  }

  /** The commands of a decision that are executed: none of a null one. */
  function Executed(L: Layout, dec: ConsensusObj): (cmds: seq<Bytes>)
    requires dec.isNull || Executable(L, dec)
    ensures AllCmds(L, cmds)
  {
    if dec.isNull then [] else Taken(L, dec)
  }

  predicate AllBatches(L: Layout, decs: seq<ConsensusObj>) {
    forall s :: 0 <= s < |decs| ==> decs[s].isNull || Executable(L, decs[s])
  }

  /** The commands of a sequence of decisions, in slot order. */
  function Commands(L: Layout, decs: seq<ConsensusObj>): (cmds: seq<Bytes>)
    requires AllBatches(L, decs)
    ensures AllCmds(L, cmds)
  {
    if |decs| == 0 then [] else Commands(L, decs[..|decs| - 1]) + Executed(L, decs[|decs| - 1])
  }

  lemma {:induction false} RunAppend(L: Layout, store: Store, a: seq<Bytes>, b: seq<Bytes>)
    requires AllCmds(L, a) && AllCmds(L, b)
    ensures RunStore(L, store, a + b) == RunStore(L, RunStore(L, store, a), b)
    ensures RunAnswers(L, store, a + b) == RunAnswers(L, store, a) + RunAnswers(L, RunStore(L, store, a), b)
  {
    hide IsCmd, StoreAfter, Answer;
    if |b| == 0 {
      assert a + b == a;
    } else {
      var front, c := b[..|b| - 1], b[|b| - 1];
      RunAppend(L, store, a, front);
      RunLast(L, store, a + front, c);
      assert a + b == a + front + [c];
    }
  }

  lemma RunLast(L: Layout, store: Store, cmds: seq<Bytes>, c: Bytes)
    requires AllCmds(L, cmds) && IsCmd(L, c)
    ensures RunStore(L, store, cmds + [c]) == StoreAfter(L, RunStore(L, store, cmds), c)
    ensures RunAnswers(L, store, cmds + [c]) ==
      RunAnswers(L, store, cmds) + [Answer(L, RunStore(L, store, cmds), c)]
  {
    hide IsCmd, StoreAfter, Answer;
    assert (cmds + [c])[..|cmds|] == cmds;
  }

  // ---------------------------------------------------------------- rows

  /** The rows of a table, one after the other. */
  function Flat<T>(rows: seq<seq<T>>): seq<T> {
    if |rows| == 0 then [] else Flat(rows[..|rows| - 1]) + rows[|rows| - 1]
  }

  predicate Table<T>(rows: seq<seq<T>>, width: nat) {
    forall i :: 0 <= i < |rows| ==> |rows[i]| == width
  }

  /** The number of cells of n rows. */
  function Cells(n: nat, width: nat): nat {
    n * width
  }

  lemma CellsBefore(i: nat, n: nat, width: nat)
    ensures Cells(0, width) == 0 && Cells(n + 1, width) == Cells(n, width) + width
    ensures i < n ==> Cells(i, width) + width <= Cells(n, width)
  {
    Product(n, i + 1, width);
  }

  lemma {:induction false} FlatTable<T>(rows: seq<seq<T>>, width: nat, i: nat, j: nat, x: T)
    requires Table(rows, width) && i < |rows| && j < width
    ensures |Flat(rows)| == Cells(|rows|, width) && Cells(i, width) + j < Cells(|rows|, width)
    ensures Flat(rows)[Cells(i, width) + j] == rows[i][j]
    ensures Flat(rows[i := rows[i][j := x]]) == Flat(rows)[Cells(i, width) + j := x]
  {
    hide Cells;
    var n := |rows| - 1;
    var front := rows[..n];
    FlatSize(front, width);
    CellsBefore(i, n, width);
    if i < n {
      FlatTable(front, width, i, j, x);
      assert rows[i := rows[i][j := x]][..n] == front[i := front[i][j := x]];
    } else {
      assert rows[i := rows[i][j := x]][..n] == front;
    }
  }

  lemma {:induction false} FlatSize<T>(rows: seq<seq<T>>, width: nat)
    requires Table(rows, width)
    ensures |Flat(rows)| == Cells(|rows|, width)
  {
    hide Cells;
    if |rows| > 0 { FlatSize(rows[..|rows| - 1], width); }
    CellsBefore(0, if |rows| > 0 then |rows| - 1 else 0, width);
  }

  lemma FlatAppend<T>(rows: seq<seq<T>>, row: seq<T>)
    ensures Flat(rows + [row]) == Flat(rows) + row
  {
    assert (rows + [row])[..|rows|] == rows;
  }
}
