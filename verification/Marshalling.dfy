/** The generated printers: they compute the exact size of a message and then fill a buffer of that
    size from its end to its start.
    Source: internal/message/message.pb.go. */
module Marshalling {
  import opened Messages
  import opened Varints
  import opened Codec

  // ---------------------------------------------------------------- sizes

  method NumberSize(v: nat, ghost tag: byte) returns (n: nat)
    ensures n == |PutNumber(tag, v)|
  {
    SovIsSize(v);
    if v != 0 {
      return 1 + Sov(v);
    }
    return 0;
  }

  method StringsSize(ss: seq<Bytes>, ghost tag: byte) returns (n: nat)
    ensures n == |PutStrings(tag, ss)|
  {
    n := 0;
    for k := 0 to |ss|
      invariant n + |PutStrings(tag, ss[k..])| == |PutStrings(tag, ss)|
    {
      assert ss[k..][0] == ss[k] && ss[k..][1..] == ss[k + 1..];
      SovIsSize(|ss[k]|);
      n := n + 1 + |ss[k]| + Sov(|ss[k]|);
    }
  }

  method PackedSize(xs: seq<uint32>, ghost tag: byte) returns (n: nat)
    ensures n == |PutPacked(tag, xs)|
  {
    if |xs| == 0 {
      return 0;
    }
    var l: nat := 0;
    for k := 0 to |xs|
      invariant l + |PutAll(xs[k..])| == |PutAll(xs)|
    {
      assert xs[k..][0] == xs[k] && xs[k..][1..] == xs[k + 1..];
      SovIsSize(xs[k]);
      l := l + Sov(xs[k]);
    }
    SovIsSize(l);
    return 1 + Sov(l) + l;
  }

  method CommandSize(m: Command) returns (n: nat)
    ensures n == |EncodeCommand(m)|
  {
    hide PutNumber, PutStrings;
    var a := NumberSize(m.cliId, 0x08);
    var b := NumberSize(m.cliSeq, 0x10);
    var c := NumberSize(m.svrSeq, 0x18);
    var d := StringsSize(m.commands, 0x22);
    return a + b + c + d;
  }

  method ObjSize(m: ConsensusObj) returns (n: nat)
    ensures n == |EncodeObj(m)|
  {
    var a := NumberSize(m.proId, 0x08);
    var b := NumberSize(m.proSeq, 0x10);
    var c := NumberSize(m.svrSeq, 0x18);
    var d := if m.isNull then 2 else 0;
    assert Put(1) == [1];
    hide PutNumber, PutStrings, PutPacked;
    var e := PackedSize(m.cliIds, 0x2a);
    var f := PackedSize(m.cliSeqs, 0x32);
    var g := StringsSize(m.commands, 0x3a);
    return a + b + c + d + e + f + g;
  }

  method MsgSize(m: Msg) returns (n: nat)
    ensures n == |EncodeMsg(m)|
  {
    hide PutNumber, EncodeObj;
    var a := NumberSize(Unsigned(m.typ), 0x08);
    var b := NumberSize(m.phase, 0x10);
    var c := NumberSize(m.value, 0x18);
    n := a + b + c;
    if m.obj.Some? {
      var l := ObjSize(m.obj.value);
      SovIsSize(l);
      n := n + 1 + l + Sov(l);
    }
  }

  // ---------------------------------------------------------------- writing backwards

  /** Writing x in front of what was written gives both. */
  lemma OverwriteTwice(was: Bytes, i: nat, x: Bytes, written: Bytes)
    requires i + |x + written| <= |was|
    ensures Overwritten(Overwritten(was, i + |x|, written), i, x) == Overwritten(was, i, x + written)
  {
  }

  /** copy(dAtA[i:], bytes), after i was moved back by the length of bytes. */
  method WriteRaw(dAtA: array<byte>, end: nat, bytes: Bytes) returns (i: nat)
    requires |bytes| <= end <= dAtA.Length
    modifies dAtA
    ensures i == end - |bytes| && dAtA[..] == Overwritten(old(dAtA[..]), i, bytes)
  {
    i := end - |bytes|;
    ghost var was := dAtA[..];
    for k := 0 to |bytes|
      invariant dAtA[..] == Overwritten(was, i, bytes[..k])
    {
      OverwriteNext(was, i, bytes[..k], bytes[k]);
      assert bytes[..k + 1] == bytes[..k] + [bytes[k]];
      dAtA[i + k] := bytes[k];
    }
    assert bytes[..|bytes|] == bytes;
  }

  /** encodeVarintMessage and the tag before it. */
  method WriteTagged(dAtA: array<byte>, end: nat, tag: byte, v: uint64) returns (i: nat)
    requires 1 + |Put(v)| <= end <= dAtA.Length
    modifies dAtA
    ensures i == end - 1 - |Put(v)| && dAtA[..] == Overwritten(old(dAtA[..]), i, [tag] + Put(v))
  {
    hide Put, Overwritten;
    ghost var was := dAtA[..];
    i := EncodeVarint(dAtA, end, v);
    i := i - 1;
    ghost var mid := dAtA[..];
    OverwriteNothing(mid, i);
    OverwriteNext(mid, i, [], tag);
    OverwriteTwice(was, i, [tag], Put(v));
    assert [] + [tag] == [tag];
    dAtA[i] := tag;
  }

  method WriteNumber(dAtA: array<byte>, end: nat, tag: byte, v: uint64) returns (i: nat)
    requires |PutNumber(tag, v)| <= end <= dAtA.Length
    modifies dAtA
    ensures i == end - |PutNumber(tag, v)| && dAtA[..] == Overwritten(old(dAtA[..]), i, PutNumber(tag, v))
  {
    hide Put, Overwritten;
    i := end;
    if v != 0 {
      i := WriteTagged(dAtA, i, tag, v);
    } else {
      OverwriteNothing(dAtA[..], i);
    }
  }

  /** A length-delimited field. */
  method WriteBytes(dAtA: array<byte>, end: nat, tag: byte, s: Bytes) returns (i: nat)
    requires |PutBytes(tag, s)| <= end <= dAtA.Length < TWO_63
    modifies dAtA
    ensures i == end - |PutBytes(tag, s)| && dAtA[..] == Overwritten(old(dAtA[..]), i, PutBytes(tag, s))
  {
    hide Put, Overwritten;
    ghost var was := dAtA[..];
    i := WriteRaw(dAtA, end, s);
    i := WriteTagged(dAtA, i, tag, |s|);
    OverwriteTwice(was, i, [tag] + Put(|s|), s);
  }

  /** A repeated string field, from the last string to the first. */
  method WriteStrings(dAtA: array<byte>, end: nat, tag: byte, ss: seq<Bytes>) returns (i: nat)
    requires |PutStrings(tag, ss)| <= end <= dAtA.Length < TWO_63
    modifies dAtA
    ensures i == end - |PutStrings(tag, ss)| && dAtA[..] == Overwritten(old(dAtA[..]), i, PutStrings(tag, ss))
  {
    hide PutBytes, Overwritten;
    ghost var was := dAtA[..];
    i := end;
    OverwriteNothing(was, i);
    var iNdEx := |ss|;
    StringsFit(tag, ss, iNdEx);
    while iNdEx > 0
      invariant 0 <= iNdEx <= |ss| && i + |PutStrings(tag, ss[iNdEx..])| == end
      invariant |PutStrings(tag, ss[iNdEx..])| <= |PutStrings(tag, ss)|
      invariant dAtA[..] == Overwritten(was, i, PutStrings(tag, ss[iNdEx..]))
    {
      ghost var written := PutStrings(tag, ss[iNdEx..]);
      iNdEx := iNdEx - 1;
      StringsFit(tag, ss, iNdEx);
      assert ss[iNdEx..][0] == ss[iNdEx] && ss[iNdEx..][1..] == ss[iNdEx + 1..];
      i := WriteBytes(dAtA, i, tag, ss[iNdEx]);
      OverwriteTwice(was, i, PutBytes(tag, ss[iNdEx]), written);
    }
    assert ss[0..] == ss;
  }

  lemma {:induction false} StringsFit(tag: byte, ss: seq<Bytes>, k: nat)
    requires k <= |ss|
    ensures |PutStrings(tag, ss[k..])| <= |PutStrings(tag, ss)|
  {
    hide PutBytes;
    if k > 0 {
      StringsFit(tag, ss[1..], k - 1);
      assert ss[1..][k - 1..] == ss[k..];
    } else {
      assert ss[0..] == ss;
    }
  }

  /** The packed numbers are first printed forwards into a buffer of ten bytes for each. */
  method PackNumbers(xs: seq<uint32>) returns (bytes: Bytes)
    ensures bytes == PutAll(xs)
  {
    hide Put;
    var dAtA2 := new byte[|xs| * 10](_ => 0);
    var j1: nat := 0;
    for k := 0 to |xs|
      invariant j1 <= 10 * k && dAtA2[..j1] + PutAll(xs[k..]) == PutAll(xs)
    {
      assert xs[k..][0] == xs[k] && xs[k..][1..] == xs[k + 1..];
      SmallPut(xs[k]);
      ghost var before := dAtA2[..j1];
      j1 := WriteForwards(dAtA2, j1, xs[k]);
      assert dAtA2[..j1] == before + Put(xs[k]);
    }
    return dAtA2[..j1];
  }

  lemma SmallPut(x: uint32)
    ensures |Put(x)| <= 5
  {
    Pow128Values();
    PutSize(x, 5);
  }

  method WriteForwards(buf: array<byte>, at: nat, x: uint32) returns (j: nat)
    requires at + |Put(x)| <= buf.Length
    modifies buf
    ensures j == at + |Put(x)| && buf[..j] == old(buf[..at]) + Put(x)
  {
    hide Put;
    j := at;
    var num: nat := x;
    ghost var done: Bytes := [];
    assert done + Put(num) == Put(x);
    while num >= 128
      invariant Put(x) == done + Put(num) && j == at + |done|
      invariant buf[..j] == old(buf[..at]) + done
    {
      PutOnce(num);
      var b := (128 + num % 128) as byte;
      buf[j] := b;
      done := done + [b];
      num := num / 128;
      j := j + 1;
      assert buf[..j] == old(buf[..at]) + done;
    }
    PutOnce(num);
    buf[j] := num as byte;
    j := j + 1;
    assert buf[..j] == old(buf[..at]) + (done + [num as byte]);
  }

  method WritePacked(dAtA: array<byte>, end: nat, tag: byte, xs: seq<uint32>) returns (i: nat)
    requires |PutPacked(tag, xs)| <= end <= dAtA.Length < TWO_63
    modifies dAtA
    ensures i == end - |PutPacked(tag, xs)| && dAtA[..] == Overwritten(old(dAtA[..]), i, PutPacked(tag, xs))
  {
    hide PutBytes, Overwritten;
    i := end;
    if |xs| > 0 {
      var bytes := PackNumbers(xs);
      i := WriteBytes(dAtA, i, tag, bytes);
    } else {
      OverwriteNothing(dAtA[..], i);
    }
  }

  // ---------------------------------------------------------------- messages

  /** MarshalToSizedBuffer on dAtA[..end]: the last n bytes are the message, and nothing else is
      touched. On a buffer of exactly the size of the message the whole buffer is filled. */
  method MarshalCommandToSizedBuffer(m: Command, dAtA: array<byte>, end: nat) returns (n: nat)
    requires |EncodeCommand(m)| <= end <= dAtA.Length < TWO_63
    modifies dAtA
    ensures n == |EncodeCommand(m)| && dAtA[..] == Overwritten(old(dAtA[..]), end - n, EncodeCommand(m))
  {
    hide PutNumber, PutStrings, Overwritten;
    ghost var was := dAtA[..];
    var i := WriteStrings(dAtA, end, 0x22, m.commands);
    i := WriteNumber(dAtA, i, 0x18, m.svrSeq);
    OverwriteTwice(was, i, PutNumber(0x18, m.svrSeq), PutStrings(0x22, m.commands));
    ghost var f3 := PutNumber(0x18, m.svrSeq) + PutStrings(0x22, m.commands);
    i := WriteNumber(dAtA, i, 0x10, m.cliSeq);
    OverwriteTwice(was, i, PutNumber(0x10, m.cliSeq), f3);
    ghost var f2 := PutNumber(0x10, m.cliSeq) + f3;
    i := WriteNumber(dAtA, i, 0x08, m.cliId);
    OverwriteTwice(was, i, PutNumber(0x08, m.cliId), f2);
    return end - i;
  }

  method MarshalObjToSizedBuffer(m: ConsensusObj, dAtA: array<byte>, end: nat) returns (n: nat)
    requires |EncodeObj(m)| <= end <= dAtA.Length < TWO_63
    modifies dAtA
    ensures n == |EncodeObj(m)| && dAtA[..] == Overwritten(old(dAtA[..]), end - n, EncodeObj(m))
  {
    hide PutNumber, PutStrings, PutPacked, Overwritten;
    ghost var was := dAtA[..];
    var isNull: uint64 := if m.isNull then 1 else 0;
    var i := WriteStrings(dAtA, end, 0x3a, m.commands);
    ghost var f := PutStrings(0x3a, m.commands);
    i := WritePacked(dAtA, i, 0x32, m.cliSeqs);
    OverwriteTwice(was, i, PutPacked(0x32, m.cliSeqs), f);
    f := PutPacked(0x32, m.cliSeqs) + f;
    i := WritePacked(dAtA, i, 0x2a, m.cliIds);
    OverwriteTwice(was, i, PutPacked(0x2a, m.cliIds), f);
    f := PutPacked(0x2a, m.cliIds) + f;
    i := WriteNumber(dAtA, i, 0x20, isNull);
    OverwriteTwice(was, i, PutNumber(0x20, isNull), f);
    f := PutNumber(0x20, isNull) + f;
    i := WriteNumber(dAtA, i, 0x18, m.svrSeq);
    OverwriteTwice(was, i, PutNumber(0x18, m.svrSeq), f);
    f := PutNumber(0x18, m.svrSeq) + f;
    i := WriteNumber(dAtA, i, 0x10, m.proSeq);
    OverwriteTwice(was, i, PutNumber(0x10, m.proSeq), f);
    f := PutNumber(0x10, m.proSeq) + f;
    i := WriteNumber(dAtA, i, 0x08, m.proId);
    OverwriteTwice(was, i, PutNumber(0x08, m.proId), f);
    return end - i;
  }

  method MarshalMsgToSizedBuffer(m: Msg, dAtA: array<byte>, end: nat) returns (n: nat)
    requires |EncodeMsg(m)| <= end <= dAtA.Length < TWO_63
    modifies dAtA
    ensures n == |EncodeMsg(m)| && dAtA[..] == Overwritten(old(dAtA[..]), end - n, EncodeMsg(m))
  {
    hide PutNumber, Overwritten, EncodeObj, Put, Unsigned;
    ghost var was := dAtA[..];
    var i := end;
    ghost var f: Bytes := [];
    OverwriteNothing(was, i);
    if m.obj.Some? {
      var size := MarshalObjToSizedBuffer(m.obj.value, dAtA, i);
      i := i - size;
      i := WriteTagged(dAtA, i, 0x22, size);
      OverwriteTwice(was, i, [0x22] + Put(size), EncodeObj(m.obj.value));
      f := PutBytes(0x22, EncodeObj(m.obj.value));
    }
    i := WriteNumber(dAtA, i, 0x18, m.value);
    OverwriteTwice(was, i, PutNumber(0x18, m.value), f);
    f := PutNumber(0x18, m.value) + f;
    i := WriteNumber(dAtA, i, 0x10, m.phase);
    OverwriteTwice(was, i, PutNumber(0x10, m.phase), f);
    f := PutNumber(0x10, m.phase) + f;
    i := WriteNumber(dAtA, i, 0x08, Unsigned(m.typ));
    OverwriteTwice(was, i, PutNumber(0x08, Unsigned(m.typ)), f);
    return end - i;
  }

  /** Marshal: a new buffer of the size of the message is filled completely. */
  method Marshal(m: Msg) returns (dAtA: array<byte>)
    requires |EncodeMsg(m)| < TWO_63
    ensures fresh(dAtA) && dAtA[..] == EncodeMsg(m)
  {
    hide EncodeMsg;
    var size := MsgSize(m);
    dAtA := new byte[size](_ => 0);
    var n := MarshalMsgToSizedBuffer(m, dAtA, size);
  }

  method MarshalCommand(m: Command) returns (dAtA: array<byte>)
    requires |EncodeCommand(m)| < TWO_63
    ensures fresh(dAtA) && dAtA[..] == EncodeCommand(m)
  {
    hide EncodeCommand;
    var size := CommandSize(m);
    dAtA := new byte[size](_ => 0);
    var n := MarshalCommandToSizedBuffer(m, dAtA, size);
  }
}
