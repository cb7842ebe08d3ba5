/** What the beginning of a printed Msg or Command is parsed to.
    Source: internal/message/message.pb.go. */
module Truncation {
  import opened Messages
  import opened Varints
  import opened Wire
  import opened Codec
  import opened CodecLaws

  // ---------------------------------------------------------------- the beginning of one field

  /** Bytes that all say that another byte follows are no varint. */
  lemma {:induction false} NoVarint(d: Bytes, i: nat, n: nat)
    requires n <= 10 && forall k :: i <= k < |d| ==> d[k] >= 128
    ensures Varint(d, i, n).Err?
    decreases 10 - n
  {
    if n < 10 && i < |d| { NoVarint(d, i + 1, n + 1); }
  }

  lemma {:induction false} PutContinues(v: nat, k: nat)
    requires k < |Put(v)| - 1
    ensures Put(v)[k] >= 128
  {
    if k > 0 { PutContinues(v / 128, k - 1); }
  }

  /** The beginning of a printed number is not a number. */
  lemma PutCut(pre: Bytes, v: nat, k: nat)
    requires k < |Put(v)|
    ensures Varint(pre + Put(v)[..k], |pre|, 0).Err?
  {
    hide Put, Varint;
    var d := pre + Put(v)[..k];
    forall j | |pre| <= j < |d|
      ensures d[j] >= 128
    {
      PutContinues(v, j - |pre|);
    }
    NoVarint(d, |pre|, 0);
  }

  lemma NumberCut(num: nat, v: uint64, j: nat, m: Message)
    requires 1 <= num <= 3 && !m.OfObj? && 0 < j < |PutNumber((8 * num) as byte, v)|
    ensures Parse(PutNumber((8 * num) as byte, v)[..j], 0, m).Err?
  {
    hide TagAt, Varint, Put;
    var tag := [(8 * num) as byte];
    var d := PutNumber((8 * num) as byte, v)[..j];
    assert d == tag + Put(v)[..j - 1];
    TagRead(num, 0, Put(v)[..j - 1]);
    PutCut(tag, v, j - 1);
    assert VarintField(d, 1, 0).Err?;
    assert FieldAt(d, 0, m).Err?;
  }

  /** Nor is the beginning of a length-delimited field a field. */
  lemma BytesCut(s: Bytes, j: nat, m: Message)
    requires 0 < j < |PutBytes(0x22, s)| < TWO_63 && !m.OfObj?
    ensures Parse(PutBytes(0x22, s)[..j], 0, m).Err?
  {
    hide TagAt, Put, SpanAt;
    var d := PutBytes(0x22, s)[..j];
    TagRead(4, 2, d[1..]);
    assert d == [0x22] + d[1..];
    SpanCut(s, j);
    assert BytesField(d, 1, 2).Err?;
    assert FieldAt(d, 0, m).Err?;
  }

  lemma SpanCut(s: Bytes, j: nat)
    requires 0 < j < |PutBytes(0x22, s)| < TWO_63
    ensures SpanAt(PutBytes(0x22, s)[..j], 1).Err?
  {
    hide Varint, Put, Pow128;
    var tag: Bytes, length := [0x22], Put(|s|);
    var d := PutBytes(0x22, s)[..j];
    if j - 1 < |length| {
      assert d == tag + length[..j - 1];
      PutCut(tag, |s|, j - 1);
    } else {
      Pow128Values();
      VarintRoundTrip(tag, |s|, s[..j - 1 - |length|], 0);
      assert d == tag + length + s[..j - 1 - |length|];
    }
  }

  /** Nothing of a field, or a part of it. */
  lemma CutField(f: Bytes, num: nat, v: uint64, j: nat, m: Message)
    requires 1 <= num <= 3 && !m.OfObj? && f == PutNumber((8 * num) as byte, v) && j < |f|
    ensures if j == 0 then Parse(f[..j], 0, m) == Ok(m) else Parse(f[..j], 0, m).Err?
  {
    hide Parse, PutNumber;
    if j == 0 {
      assert f[..j] == [];
      ParseNothing(m);
    } else {
      NumberCut(num, v, j, m);
    }
  }

  lemma CutBytes(s: Bytes, j: nat, m: Message)
    requires j < |PutBytes(0x22, s)| < TWO_63 && !m.OfObj?
    ensures var r := Parse(PutBytes(0x22, s)[..j], 0, m); if j == 0 then r == Ok(m) else r.Err?
  {
    hide Parse, PutBytes;
    if j == 0 {
      assert PutBytes(0x22, s)[..j] == [];
      ParseNothing(m);
    } else {
      BytesCut(s, j, m);
    }
  }

  // ---------------------------------------------------------------- the beginning of a message

  /** Where the printed type, phase and value of a message end. */
  function TypeEnd(m: Msg): nat {
    |PutNumber(0x08, Unsigned(m.typ))|
  }

  function PhaseEnd(m: Msg): nat {
    TypeEnd(m) + |PutNumber(0x10, m.phase)|
  }

  function ValueEnd(m: Msg): nat {
    PhaseEnd(m) + |PutNumber(0x18, m.value)|
  }

  predicate AtBoundary(m: Msg, j: nat) {
    j == 0 || j == TypeEnd(m) || j == PhaseEnd(m) || j == ValueEnd(m)
  }

  /** The fields of a message that end within its first j bytes, but for the object. */
  function Upto(m: Msg, j: nat): Msg {
    Msg(if j >= TypeEnd(m) then m.typ else 0, if j >= PhaseEnd(m) then m.phase else 0,
        if j >= ValueEnd(m) then m.value else 0, None)
  }

  /** What is parsed from the first j bytes of a then b, when a is parsed from m to m'. */
  lemma CutStep(a: Bytes, b: Bytes, j: nat, m: Message, m': Message)
    requires j <= |a + b| < TWO_63 && Parse(a, 0, m) == Ok(m')
    ensures j < |a| ==> (a + b)[..j] == a[..j]
    ensures j >= |a| ==> SameOutcome(Parse(b[..j - |a|], 0, m'), Parse((a + b)[..j], 0, m))
  {
    hide Parse;
    if j < |a| {
      assert (a + b)[..j] == a[..j];
    } else {
      assert (a + b)[..j] == a + b[..j - |a|];
      Concatenation(a, b[..j - |a|], m);
    }
  }

  /** The first j bytes of a printed message, fewer than all, are parsed exactly when they end where
      a field does (before the object), and then they are parsed to the fields that they hold. */
  lemma MsgCut(m: Msg, j: nat)
    requires j < |EncodeMsg(m)| < TWO_63
    ensures Parse(EncodeMsg(m)[..j], 0, OfMsg(EMPTY_MSG)).Ok? <==> AtBoundary(m, j)
    ensures AtBoundary(m, j) ==> Parse(EncodeMsg(m)[..j], 0, OfMsg(EMPTY_MSG)) == Ok(OfMsg(Upto(m, j)))
  {
    hide Parse, PutNumber, PutBytes, Unsigned, EncodeObj;
    var f1, f2, f3 := PutNumber(0x08, Unsigned(m.typ)), PutNumber(0x10, m.phase), PutNumber(0x18, m.value);
    var f4 := if m.obj.None? then [] else PutBytes(0x22, EncodeObj(m.obj.value));
    var m0 := OfMsg(EMPTY_MSG);
    var m1 := OfMsg(EMPTY_MSG.(typ := m.typ));
    var m2 := OfMsg(m1.m.(phase := m.phase));
    var m3 := OfMsg(m2.m.(value := m.value));
    CodecLaws.MsgType(m.typ, EMPTY_MSG);
    MsgNumber(2, m.phase, m1.m);
    MsgNumber(3, m.value, m2.m);
    CutStep(f1, f2 + (f3 + f4), j, m0, m1);
    if j < |f1| {
      CutField(f1, 1, Unsigned(m.typ), j, m0);
    } else {
      var j2 := j - |f1|;
      CutStep(f2, f3 + f4, j2, m1, m2);
      if j2 < |f2| {
        CutField(f2, 2, m.phase, j2, m1);
      } else {
        var j3 := j2 - |f2|;
        CutStep(f3, f4, j3, m2, m3);
        if j3 < |f3| {
          CutField(f3, 3, m.value, j3, m2);
        } else {
          CutBytes(EncodeObj(m.obj.value), j3 - |f3|, m3);
        }
      }
    }
  }

  // ---------------------------------------------------------------- the beginning of a request

  /** Where the first n commands of a request end. */
  function CommandsEnd(c: Command, n: nat): nat
    requires n <= |c.commands|
  {
    |PutNumber(0x08, c.cliId)| + |PutNumber(0x10, c.cliSeq)| + |PutNumber(0x18, c.svrSeq)|
    + |PutStrings(0x22, c.commands[..n])|
  }

  lemma PutStringsNext(ss: seq<Bytes>, n: nat)
    requires n < |ss|
    ensures PutStrings(0x22, ss[..n + 1]) == PutBytes(0x22, ss[0]) + PutStrings(0x22, ss[1..][..n])
  {
    assert ss[..n + 1][1..] == ss[1..][..n];
  }

  /** The first j bytes of printed strings, fewer than all, are parsed exactly when they are those of
      the first strings. */
  lemma {:induction false} StringsCut(ss: seq<Bytes>, j: nat, c: Command) returns (n: nat)
    requires j < |PutStrings(0x22, ss)| < TWO_63
    ensures n < |ss| && |PutStrings(0x22, ss[..n])| <= j < |PutStrings(0x22, ss[..n + 1])|
    ensures Parse(PutStrings(0x22, ss)[..j], 0, OfCommand(c)).Ok? <==> j == |PutStrings(0x22, ss[..n])|
    ensures Parse(PutStrings(0x22, ss)[..j], 0, OfCommand(c)).Ok? ==>
      Parse(PutStrings(0x22, ss)[..j], 0, OfCommand(c)) == Ok(OfCommand(c.(commands := c.commands + ss[..n])))
    decreases |ss|
  {
    hide Parse, PutBytes;
    var f, rest := PutBytes(0x22, ss[0]), PutStrings(0x22, ss[1..]);
    var c' := c.(commands := c.commands + [ss[0]]);
    OneString(ss[0], c);
    CutStep(f, rest, j, OfCommand(c), OfCommand(c'));
    if j < |f| {
      n := 0;
      CutBytes(ss[0], j, OfCommand(c));
      assert ss[..0] == [] && c.commands + [] == c.commands;
      PutStringsNext(ss, 0);
      assert ss[1..][..0] == [];
    } else {
      var n' := StringsCut(ss[1..], j - |f|, c');
      n := n' + 1;
      PutStringsNext(ss, n');
      PutStringsNext(ss, n);
      assert c.commands + ss[..n] == c'.commands + ss[1..][..n'];
    }
  }

  lemma OneString(s: Bytes, c: Command)
    requires |PutBytes(0x22, s)| < TWO_63
    ensures Parse(PutBytes(0x22, s), 0, OfCommand(c)) == Ok(OfCommand(c.(commands := c.commands + [s])))
  {
    hide Parse;
    assert PutStrings(0x22, [s]) == PutBytes(0x22, s) + PutStrings(0x22, []) == PutBytes(0x22, s);
    CommandStrings([s], c);
  }

  /** Where the printed client id and sequence number of a request end. */
  function CliIdEnd(c: Command): nat {
    |PutNumber(0x08, c.cliId)|
  }

  function CliSeqEnd(c: Command): nat {
    CliIdEnd(c) + |PutNumber(0x10, c.cliSeq)|
  }

  /** What the first j bytes of a request hold, of which n commands are whole. */
  function RequestUpto(c: Command, j: nat, n: nat): Command
    requires n <= |c.commands|
  {
    Command(if j >= CliIdEnd(c) then c.cliId else 0, if j >= CliSeqEnd(c) then c.cliSeq else 0,
            if j >= CommandsEnd(c, 0) then c.svrSeq else 0, c.commands[..n])
  }

  /** The first j bytes of a printed request, fewer than all, are parsed exactly when they end where
      a field does; they never hold all commands. */
  lemma RequestCut(c: Command, j: nat) returns (n: nat)
    requires j < |EncodeCommand(c)| < TWO_63
    ensures n <= |c.commands| && (|c.commands| > 0 ==> n < |c.commands|)
    ensures n > 0 ==> CommandsEnd(c, n) <= j
    ensures n < |c.commands| ==> j < CommandsEnd(c, n + 1)
    ensures var r := Parse(EncodeCommand(c)[..j], 0, OfCommand(EMPTY_COMMAND));
      && (r.Ok? <==> j == 0 || j == CliIdEnd(c) || j == CliSeqEnd(c) || j == CommandsEnd(c, n))
      && (r.Ok? ==> r == Ok(OfCommand(RequestUpto(c, j, n))))
  {
    hide Parse, PutNumber, PutBytes, PutStrings;
    var f1, f2, f3 := PutNumber(0x08, c.cliId), PutNumber(0x10, c.cliSeq), PutNumber(0x18, c.svrSeq);
    var f4 := PutStrings(0x22, c.commands);
    var c0 := OfCommand(EMPTY_COMMAND);
    var c1 := OfCommand(EMPTY_COMMAND.(cliId := c.cliId));
    var c2 := OfCommand(c1.c.(cliSeq := c.cliSeq));
    var c3 := OfCommand(c2.c.(svrSeq := c.svrSeq));
    CommandNumber(1, c.cliId, EMPTY_COMMAND);
    CommandNumber(2, c.cliSeq, c1.c);
    CommandNumber(3, c.svrSeq, c2.c);
    CutStep(f1, f2 + (f3 + f4), j, c0, c1);
    NoStrings(c.commands);
    n := 0;
    if j < |f1| {
      CutField(f1, 1, c.cliId, j, c0);
    } else {
      var j2 := j - |f1|;
      CutStep(f2, f3 + f4, j2, c1, c2);
      if j2 < |f2| {
        CutField(f2, 2, c.cliSeq, j2, c1);
      } else {
        var j3 := j2 - |f2|;
        CutStep(f3, f4, j3, c2, c3);
        if j3 < |f3| {
          CutField(f3, 3, c.svrSeq, j3, c2);
        } else {
          n := StringsCut(c.commands, j3 - |f3|, c3.c);
          assert c3.c.commands + c.commands[..n] == c.commands[..n];
        }
      }
    }
  }

  lemma NoStrings(ss: seq<Bytes>)
    ensures PutStrings(0x22, ss[..0]) == []
    ensures |ss| == 0 ==> PutStrings(0x22, ss) == []
  {
  }
}
