/** The message objects that servers exchange, and the identity of a consensus object.
    Sources: internal/message/message.proto, internal/message/message.go. */
module Messages {

  type uint32 = x: int | 0 <= x < 0x1_0000_0000
  type int32 = x: int | -0x8000_0000 <= x < 0x8000_0000
  newtype byte = x: int | 0 <= x < 0x100

  /** A Go string is an immutable sequence of bytes. */
  type Bytes = seq<byte>

  datatype Option<+T> = None | Some(value: T)

  datatype ConsensusObj = ConsensusObj(
    proId: uint32, proSeq: uint32, svrSeq: uint32, isNull: bool,
    cliIds: seq<uint32>, cliSeqs: seq<uint32>, commands: seq<Bytes>)

  /** The zero value of the Go struct. */
  const EMPTY_OBJ := ConsensusObj(0, 0, 0, false, [], [], [])

  /** A message between a client and its proxy. */
  datatype Command = Command(cliId: uint32, cliSeq: uint32, svrSeq: uint32, commands: seq<Bytes>)

  type MsgType = int32
  const CLIENT_REQUEST: MsgType := 0
  const PROPOSAL: MsgType := 1
  const STATE: MsgType := 2
  const VOTE: MsgType := 3
  const PROPOSAL_REQUEST: MsgType := 4
  const PROPOSAL_REPLY: MsgType := 5
  const DECISION: MsgType := 6

  datatype Msg = Msg(typ: MsgType, phase: uint32, value: uint32, obj: Option<ConsensusObj>)

  /** The primary key of a consensus object: its proxy and that proxy's sequence number. */
  datatype Key = Key(proSeq: uint32, proId: uint32)

  function KeyOf(obj: ConsensusObj): Key {
    Key(obj.proSeq, obj.proId)
  }

  predicate KeyLess(a: Key, b: Key) {
    a.proSeq < b.proSeq || (a.proSeq == b.proSeq && a.proId < b.proId)
  }

  predicate ProxySeqIdEqual(c1: ConsensusObj, c2: ConsensusObj) {
    KeyOf(c1) == KeyOf(c2)
  }

  predicate ProxySeqIdLessThan(c1: ConsensusObj, c2: ConsensusObj) {
    KeyLess(KeyOf(c1), KeyOf(c2))
  }

  /** strconv.Itoa on a non-negative number. */
  function Itoa(n: nat): (s: string)
    ensures |s| > 0
    ensures forall i :: 0 <= i < |s| ==> '0' <= s[i] <= '9'
  {
    if n < 10 then [Digit(n)] else Itoa(n / 10) + [Digit(n % 10)]
  }

  function Digit(d: nat): (c: char)
    requires d < 10
    ensures '0' <= c <= '9'
    ensures c as int == '0' as int + d
  {
    (('0' as int) + d) as char
  }

  function IdSeqOf(k: Key): string {
    Itoa(k.proId) + "-" + Itoa(k.proSeq)
  }

  function GetIdSeq(c: ConsensusObj): string {
    IdSeqOf(KeyOf(c))
  }

  lemma {:induction false} ItoaInjective(a: nat, b: nat)
    requires Itoa(a) == Itoa(b)
    ensures a == b
  {
    var s, t := Itoa(a), Itoa(b);
    assert s[|s| - 1] == Digit(a % 10);
    assert t[|t| - 1] == Digit(b % 10);
    if a >= 10 && b >= 10 {
      assert s[..|s| - 1] == Itoa(a / 10) && t[..|t| - 1] == Itoa(b / 10);
      ItoaInjective(a / 10, b / 10);
    }
  }

  /** The printed identifier used as the key of the Discard table is as good as the pair of
      numbers it prints. */
  lemma IdSeqInjective(a: Key, b: Key)
    ensures IdSeqOf(a) == IdSeqOf(b) <==> a == b
  {
    if IdSeqOf(a) == IdSeqOf(b) {
      var s := IdSeqOf(a);
      var m1, m2 := |Itoa(a.proId)|, |Itoa(b.proId)|;
      assert s[m1] == '-' && s[m2] == '-';
      assert m1 == m2;
      assert s[..m1] == Itoa(a.proId) && s[..m2] == Itoa(b.proId);
      assert s[m1 + 1..] == Itoa(a.proSeq) && s[m2 + 1..] == Itoa(b.proSeq);
      ItoaInjective(a.proId, b.proId);
      ItoaInjective(a.proSeq, b.proSeq);
    }
  }

  /** So two objects share it exactly when ProxySeqIdEqual holds. */
  lemma GetIdSeqIdentifies(c1: ConsensusObj, c2: ConsensusObj)
    ensures GetIdSeq(c1) == GetIdSeq(c2) <==> ProxySeqIdEqual(c1, c2)
  {
    IdSeqInjective(KeyOf(c1), KeyOf(c2));
  }
}
