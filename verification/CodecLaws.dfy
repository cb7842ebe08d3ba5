/** What the codec promises: a message is read back as it was written; printed messages that follow
    each other are merged.
    Source: internal/message/message.pb.go. */
module CodecLaws {
  import opened Messages
  import opened Varints
  import opened Wire
  import opened Codec

  // ---------------------------------------------------------------- merging

  /** Last one wins, unless it is the zero value, which is not on the wire. */
  function Later(x: uint32, y: uint32): uint32 {
    if y != 0 then y else x
  }

  function MergeCommand(x: Command, y: Command): Command {
    Command(Later(x.cliId, y.cliId), Later(x.cliSeq, y.cliSeq), Later(x.svrSeq, y.svrSeq), x.commands + y.commands)
  }

  function MergeObj(x: ConsensusObj, y: ConsensusObj): ConsensusObj {
    ConsensusObj(Later(x.proId, y.proId), Later(x.proSeq, y.proSeq), Later(x.svrSeq, y.svrSeq), x.isNull || y.isNull,
                 x.cliIds + y.cliIds, x.cliSeqs + y.cliSeqs, x.commands + y.commands)
  }

  function MergeMsg(x: Msg, y: Msg): Msg {
    Msg(if y.typ != 0 then y.typ else x.typ, Later(x.phase, y.phase), Later(x.value, y.value),
        if y.obj.None? then x.obj else Some(MergeObj(ObjOf(x), y.obj.value)))
  }

  // ---------------------------------------------------------------- single fields

  lemma OneField(d: Bytes, m: Message, m': Message)
    requires |d| > 0 && FieldAt(d, 0, m) == Ok(Parsed(m', |d|))
    ensures Parse(d, 0, m) == Ok(m')
  {
    hide FieldAt;
    assert Parse(d, |d|, m') == Ok(m');
  }

  lemma Chain(a: Bytes, b: Bytes, m: Message, m': Message, r: Message)
    requires |a + b| < TWO_63 && Parse(a, 0, m) == Ok(m') && Parse(b, 0, m') == Ok(r)
    ensures Parse(a + b, 0, m) == Ok(r)
  {
    hide Parse;
    Concatenation(a, b, m);
  }

  lemma TagRead(num: nat, typ: nat, rest: Bytes)
    requires 1 <= num < 16 && typ < 8 && typ != 4
    ensures TagAt([(8 * num + typ) as byte] + rest, 0) == Ok(Parsed(Tag(num, typ), 1))
  {
    hide ToInt32;
    var w := 8 * num + typ;
    var d := [w as byte] + rest;
    assert Varint(d, 0, 0) == Ok(Parsed(w, 1));
    TagParts(num, typ);
  }

  lemma TagParts(num: nat, typ: nat)
    requires 1 <= num < 16 && typ < 8
    ensures var wire := (8 * num + typ) % TWO_64; wire % 8 == typ && wire / 8 == num && ToInt32(wire / 8) == num
  {
    assert (8 * num + typ) % TWO_64 == 8 * num + typ;
    assert (8 * num + typ) / 8 == num;
  }

  lemma NumberRead(num: nat, v: nat)
    requires 1 <= num < 16 && v < TWO_64
    ensures var d := [(8 * num) as byte] + Put(v);
      && TagAt(d, 0) == Ok(Parsed(Tag(num, 0), 1))
      && VarintField(d, 1, 0) == Ok(Parsed(v, |d|))
  {
    var tag := [(8 * num) as byte];
    TagRead(num, 0, Put(v));
    Pow128Values();
    VarintRoundTrip(tag, v, [], 0);
    assert tag + Put(v) + [] == tag + Put(v);
  }

  lemma SpanRead(num: nat, s: Bytes)
    requires 1 <= num < 16 && |PutBytes((8 * num + 2) as byte, s)| < TWO_63
    ensures var d := PutBytes((8 * num + 2) as byte, s);
      && TagAt(d, 0) == Ok(Parsed(Tag(num, 2), 1))
      && SpanAt(d, 1) == Ok(Parsed(1 + |Put(|s|)|, |d|))
      && d[1 + |Put(|s|)|..] == s
  {
    hide Put, Varint, TagAt, Pow128;
    var tag := [(8 * num + 2) as byte];
    TagRead(num, 2, Put(|s|) + s);
    assert tag + (Put(|s|) + s) == tag + Put(|s|) + s;
    Pow128Values();
    VarintRoundTrip(tag, |s|, s, 0);
  }

  lemma BytesRead(num: nat, s: Bytes)
    requires 1 <= num < 16 && |PutBytes((8 * num + 2) as byte, s)| < TWO_63
    ensures var d := PutBytes((8 * num + 2) as byte, s);
      TagAt(d, 0) == Ok(Parsed(Tag(num, 2), 1)) && BytesField(d, 1, 2) == Ok(Parsed(s, |d|))
  {
    hide PutBytes, TagAt, SpanAt;
    SpanRead(num, s);
    var d := PutBytes((8 * num + 2) as byte, s);
    assert d[1 + |Put(|s|)|..|d|] == d[1 + |Put(|s|)|..];
  }

  lemma {:induction false} PutAllRead(pre: Bytes, xs: seq<uint32>)
    ensures NumbersFrom(pre + PutAll(xs), |pre|, |pre + PutAll(xs)|) == Ok(Parsed(xs, |pre + PutAll(xs)|))
    decreases |xs|
  {
    hide Put, Varint;
    if |xs| > 0 {
      var d, rest := pre + PutAll(xs), PutAll(xs[1..]);
      var pre' := pre + Put(xs[0]);
      assert d == pre' + rest;
      PutAllRead(pre', xs[1..]);
      Pow128Values();
      VarintRoundTrip(pre, xs[0], rest, 0);
      assert [xs[0]] + xs[1..] == xs;
    }
  }

  lemma PackedRead(num: nat, xs: seq<uint32>)
    requires 1 <= num < 16 && |PutPacked((8 * num + 2) as byte, xs)| < TWO_63 && |xs| > 0
    ensures var d := PutPacked((8 * num + 2) as byte, xs);
      |d| > 0 && TagAt(d, 0) == Ok(Parsed(Tag(num, 2), 1)) && NumbersField(d, 1, 2) == Ok(Parsed(xs, |d|))
  {
    hide TagAt, SpanAt, PutBytes;
    var d, s := PutPacked((8 * num + 2) as byte, xs), PutAll(xs);
    SpanRead(num, s);
    var k := 1 + |Put(|s|)|;
    assert d == d[..k] + s;
    PutAllRead(d[..k], xs);
  }

  // ---------------------------------------------------------------- whole messages

  lemma CommandNumber(num: nat, v: uint32, c: Command)
    requires 1 <= num <= 3
    ensures Parse(PutNumber((8 * num) as byte, v), 0, OfCommand(c)) ==
      Ok(OfCommand(if num == 1 then c.(cliId := Later(c.cliId, v))
                   else if num == 2 then c.(cliSeq := Later(c.cliSeq, v))
                   else c.(svrSeq := Later(c.svrSeq, v))))
  {
    hide TagAt, VarintField;
    if v != 0 {
      NumberRead(num, v);
      var d := PutNumber((8 * num) as byte, v);
      OneField(d, OfCommand(c), FieldAt(d, 0, OfCommand(c)).value.v);
    }
  }

  lemma {:induction false} CommandStrings(ss: seq<Bytes>, c: Command)
    requires |PutStrings(0x22, ss)| < TWO_63
    ensures Parse(PutStrings(0x22, ss), 0, OfCommand(c)) == Ok(OfCommand(c.(commands := c.commands + ss)))
    decreases |ss|
  {
    hide TagAt, BytesField, Parse;
    if |ss| == 0 {
      ParseNothing(OfCommand(c));
      assert c.commands + ss == c.commands;
    } else {
      var d := PutBytes(0x22, ss[0]);
      BytesRead(4, ss[0]);
      var c' := c.(commands := c.commands + [ss[0]]);
      OneField(d, OfCommand(c), OfCommand(c'));
      CommandStrings(ss[1..], c');
      assert c'.commands + ss[1..] == c.commands + ss;
      Chain(d, PutStrings(0x22, ss[1..]), OfCommand(c), OfCommand(c'), OfCommand(c.(commands := c.commands + ss)));
    }
  }

  lemma ParseNothing(m: Message)
    ensures Parse([], 0, m) == Ok(m)
  {
  }

  /** Parsing a printed Command into another one merges the two. */
  lemma CommandMerge(x: Command, y: Command)
    requires |EncodeCommand(y)| < TWO_63
    ensures Parse(EncodeCommand(y), 0, OfCommand(x)) == Ok(OfCommand(MergeCommand(x, y)))
  {
    hide Parse, PutNumber, PutStrings, Later;
    var x1 := x.(cliId := Later(x.cliId, y.cliId));
    var x2 := x1.(cliSeq := Later(x.cliSeq, y.cliSeq));
    var x3 := x2.(svrSeq := Later(x.svrSeq, y.svrSeq));
    var f3 := PutNumber(0x18, y.svrSeq) + PutStrings(0x22, y.commands);
    var f2 := PutNumber(0x10, y.cliSeq) + f3;
    var r := OfCommand(MergeCommand(x, y));
    CommandNumber(1, y.cliId, x);
    CommandNumber(2, y.cliSeq, x1);
    CommandNumber(3, y.svrSeq, x2);
    CommandStrings(y.commands, x3);
    Chain(PutNumber(0x18, y.svrSeq), PutStrings(0x22, y.commands), OfCommand(x2), OfCommand(x3), r);
    Chain(PutNumber(0x10, y.cliSeq), f3, OfCommand(x1), OfCommand(x2), r);
    Chain(PutNumber(0x08, y.cliId), f2, OfCommand(x), OfCommand(x1), r);
  }

  lemma ObjNumber(num: nat, v: uint32, o: ConsensusObj)
    requires 1 <= num <= 4
    ensures Parse(PutNumber((8 * num) as byte, v), 0, OfObj(o)) ==
      Ok(OfObj(if num == 1 then o.(proId := Later(o.proId, v))
               else if num == 2 then o.(proSeq := Later(o.proSeq, v))
               else if num == 3 then o.(svrSeq := Later(o.svrSeq, v))
               else o.(isNull := o.isNull || v != 0)))
  {
    hide TagAt, VarintField;
    if v != 0 {
      NumberRead(num, v);
      var d := PutNumber((8 * num) as byte, v);
      OneField(d, OfObj(o), FieldAt(d, 0, OfObj(o)).value.v);
    }
  }

  lemma ObjPacked(num: nat, xs: seq<uint32>, o: ConsensusObj)
    requires 5 <= num <= 6 && |PutPacked((8 * num + 2) as byte, xs)| < TWO_63
    ensures Parse(PutPacked((8 * num + 2) as byte, xs), 0, OfObj(o)) ==
      Ok(OfObj(if num == 5 then o.(cliIds := o.cliIds + xs) else o.(cliSeqs := o.cliSeqs + xs)))
  {
    hide TagAt, NumbersField;
    if |xs| == 0 {
      assert o.cliIds + xs == o.cliIds && o.cliSeqs + xs == o.cliSeqs;
    } else {
      PackedRead(num, xs);
      var d := PutPacked((8 * num + 2) as byte, xs);
      OneField(d, OfObj(o), FieldAt(d, 0, OfObj(o)).value.v);
    }
  }

  lemma {:induction false} ObjStrings(ss: seq<Bytes>, o: ConsensusObj)
    requires |PutStrings(0x3a, ss)| < TWO_63
    ensures Parse(PutStrings(0x3a, ss), 0, OfObj(o)) == Ok(OfObj(o.(commands := o.commands + ss)))
    decreases |ss|
  {
    hide TagAt, BytesField, Parse;
    if |ss| == 0 {
      ParseNothing(OfObj(o));
      assert o.commands + ss == o.commands;
    } else {
      var d := PutBytes(0x3a, ss[0]);
      BytesRead(7, ss[0]);
      var o' := o.(commands := o.commands + [ss[0]]);
      OneField(d, OfObj(o), OfObj(o'));
      ObjStrings(ss[1..], o');
      assert o'.commands + ss[1..] == o.commands + ss;
      Chain(d, PutStrings(0x3a, ss[1..]), OfObj(o), OfObj(o'), OfObj(o.(commands := o.commands + ss)));
    }
  }

  /** The same for a ConsensusObj ... */
  lemma ObjMerge(x: ConsensusObj, y: ConsensusObj)
    requires |EncodeObj(y)| < TWO_63
    ensures Parse(EncodeObj(y), 0, OfObj(x)) == Ok(OfObj(MergeObj(x, y)))
  {
    hide Parse, PutNumber, PutStrings, PutPacked, Later;
    var n := if y.isNull then 1 else 0;
    var x1 := x.(proId := Later(x.proId, y.proId));
    var x2 := x1.(proSeq := Later(x.proSeq, y.proSeq));
    var x3 := x2.(svrSeq := Later(x.svrSeq, y.svrSeq));
    var x4 := x3.(isNull := x.isNull || y.isNull);
    var x5 := x4.(cliIds := x.cliIds + y.cliIds);
    var x6 := x5.(cliSeqs := x.cliSeqs + y.cliSeqs);
    var f6 := PutPacked(0x32, y.cliSeqs) + PutStrings(0x3a, y.commands);
    var f5 := PutPacked(0x2a, y.cliIds) + f6;
    var f4 := PutNumber(0x20, n) + f5;
    var f3 := PutNumber(0x18, y.svrSeq) + f4;
    var f2 := PutNumber(0x10, y.proSeq) + f3;
    var r := OfObj(MergeObj(x, y));
    ObjNumber(1, y.proId, x);
    ObjNumber(2, y.proSeq, x1);
    ObjNumber(3, y.svrSeq, x2);
    ObjNumber(4, n, x3);
    ObjPacked(5, y.cliIds, x4);
    ObjPacked(6, y.cliSeqs, x5);
    ObjStrings(y.commands, x6);
    Chain(PutPacked(0x32, y.cliSeqs), PutStrings(0x3a, y.commands), OfObj(x5), OfObj(x6), r);
    Chain(PutPacked(0x2a, y.cliIds), f6, OfObj(x4), OfObj(x5), r);
    Chain(PutNumber(0x20, n), f5, OfObj(x3), OfObj(x4), r);
    Chain(PutNumber(0x18, y.svrSeq), f4, OfObj(x2), OfObj(x3), r);
    Chain(PutNumber(0x10, y.proSeq), f3, OfObj(x1), OfObj(x2), r);
    Chain(PutNumber(0x08, y.proId), f2, OfObj(x), OfObj(x1), r);
  }

  lemma MsgNumber(num: nat, v: uint32, m: Msg)
    requires 2 <= num <= 3
    ensures Parse(PutNumber((8 * num) as byte, v), 0, OfMsg(m)) ==
      Ok(OfMsg(if num == 2 then m.(phase := Later(m.phase, v)) else m.(value := Later(m.value, v))))
  {
    hide TagAt, VarintField;
    if v != 0 {
      NumberRead(num, v);
      var d := PutNumber((8 * num) as byte, v);
      OneField(d, OfMsg(m), OfMsg(if num == 2 then m.(phase := v) else m.(value := v)));
    }
  }

  /** A negative enumeration value takes ten bytes and is read back. */
  lemma MsgType(typ: int32, m: Msg)
    ensures Parse(PutNumber(0x08, Unsigned(typ)), 0, OfMsg(m)) == Ok(OfMsg(if typ != 0 then m.(typ := typ) else m))
  {
    hide TagAt, VarintField;
    if typ != 0 {
      NumberRead(1, Unsigned(typ));
      var d := PutNumber(0x08, Unsigned(typ));
      assert ToInt32(Unsigned(typ)) == typ;
      OneField(d, OfMsg(m), OfMsg(m.(typ := typ)));
    }
  }

  lemma MsgObj(o: ConsensusObj, m: Msg)
    requires |PutBytes(0x22, EncodeObj(o))| < TWO_63
    ensures Parse(PutBytes(0x22, EncodeObj(o)), 0, OfMsg(m)) == Ok(OfMsg(m.(obj := Some(MergeObj(ObjOf(m), o)))))
  {
    hide TagAt, BytesField, EncodeObj, MergeObj;
    var d := PutBytes(0x22, EncodeObj(o));
    BytesRead(4, EncodeObj(o));
    ObjMerge(ObjOf(m), o);
    OneField(d, OfMsg(m), OfMsg(m.(obj := Some(MergeObj(ObjOf(m), o)))));
  }

  /** ... and for a Msg, with the nested object merged into the one that is there. */
  lemma MsgMerge(x: Msg, y: Msg)
    requires |EncodeMsg(y)| < TWO_63
    ensures Parse(EncodeMsg(y), 0, OfMsg(x)) == Ok(OfMsg(MergeMsg(x, y)))
  {
    hide Parse, PutNumber, PutBytes, Later, Unsigned, EncodeObj, MergeObj;
    var x1 := x.(typ := if y.typ != 0 then y.typ else x.typ);
    var x2 := x1.(phase := Later(x.phase, y.phase));
    var x3 := x2.(value := Later(x.value, y.value));
    var f4 := if y.obj.None? then [] else PutBytes(0x22, EncodeObj(y.obj.value));
    var f3 := PutNumber(0x18, y.value) + f4;
    var f2 := PutNumber(0x10, y.phase) + f3;
    var r := OfMsg(MergeMsg(x, y));
    MsgType(y.typ, x);
    MsgNumber(2, y.phase, x1);
    MsgNumber(3, y.value, x2);
    if y.obj.None? { ParseNothing(OfMsg(x3)); } else { MsgObj(y.obj.value, x3); }
    Chain(PutNumber(0x18, y.value), f4, OfMsg(x2), OfMsg(x3), r);
    Chain(PutNumber(0x10, y.phase), f3, OfMsg(x1), OfMsg(x2), r);
    Chain(PutNumber(0x08, Unsigned(y.typ)), f2, OfMsg(x), OfMsg(x1), r);
  }

  // ---------------------------------------------------------------- round trips

  lemma CommandRoundTrip(y: Command)
    requires |EncodeCommand(y)| < TWO_63
    ensures Parse(EncodeCommand(y), 0, OfCommand(EMPTY_COMMAND)) == Ok(OfCommand(y))
  {
    CommandMerge(EMPTY_COMMAND, y);
    assert [] + y.commands == y.commands;
  }

  lemma ObjRoundTrip(y: ConsensusObj)
    requires |EncodeObj(y)| < TWO_63
    ensures Parse(EncodeObj(y), 0, OfObj(EMPTY_OBJ)) == Ok(OfObj(y))
  {
    hide Parse, EncodeObj;
    ObjMerge(EMPTY_OBJ, y);
    MergeIntoEmpty(y);
  }

  lemma MergeIntoEmpty(y: ConsensusObj)
    ensures MergeObj(EMPTY_OBJ, y) == y
  {
    assert [] + y.commands == y.commands && [] + y.cliIds == y.cliIds && [] + y.cliSeqs == y.cliSeqs;
  }

  /** Every Msg, with or without an object, is read back as it was written. */
  lemma MsgRoundTrip(y: Msg)
    requires |EncodeMsg(y)| < TWO_63
    ensures Parse(EncodeMsg(y), 0, OfMsg(EMPTY_MSG)) == Ok(OfMsg(y))
  {
    hide Parse, EncodeMsg;
    MsgMerge(EMPTY_MSG, y);
    if y.obj.Some? { MergeIntoEmpty(y.obj.value); }
  }

  /** The bytes of one Msg after those of another are read as the merge of the two. */
  lemma MsgsConcatenated(x: Msg, y: Msg)
    requires |EncodeMsg(x) + EncodeMsg(y)| < TWO_63
    ensures Parse(EncodeMsg(x) + EncodeMsg(y), 0, OfMsg(EMPTY_MSG)) == Ok(OfMsg(MergeMsg(x, y)))
  {
    hide Parse, EncodeMsg, MergeMsg;
    MsgRoundTrip(x);
    MsgMerge(x, y);
    Chain(EncodeMsg(x), EncodeMsg(y), OfMsg(EMPTY_MSG), OfMsg(x), OfMsg(MergeMsg(x, y)));
  }

  // ---------------------------------------------------------------- unknown fields

  predicate Knows(m: Message, num: int32) {
    1 <= num <= if m.OfObj? then 7 else 4
  }

  /** One whole field that the message does not know: a number, bytes, or a group with all it holds. */
  predicate IsUnknown(u: Bytes, m: Message) {
    && |u| > 0 && TagAt(u, 0).Ok? && !Knows(m, TagAt(u, 0).value.v.num)
    && SkipAt(u, 0).Ok? && SkipAt(u, 0).value.next == |u|
  }

  lemma UnknownSkipped(u: Bytes, m: Message)
    requires IsUnknown(u, m)
    ensures Parse(u, 0, m) == Ok(m)
  {
    hide TagAt, SkipAt, Uint32Field, EnumField, BoolField, BytesField, NumbersField, Parse;
    OneField(u, m, m);
  }

  /** An unknown field between two parts of the input makes no difference. */
  lemma UnknownFieldsIgnored(a: Bytes, u: Bytes, b: Bytes, m: Message)
    requires |a + u + b| < TWO_63 && Parse(a, 0, m).Ok? && IsUnknown(u, m)
    ensures Parse(a + b, 0, m).Ok? == Parse(a + u + b, 0, m).Ok?
    ensures Parse(a + b, 0, m).Ok? ==> Parse(a + u + b, 0, m) == Parse(a + b, 0, m)
  {
    hide TagAt, SkipAt;
    var m1 := Parse(a, 0, m).value;
    hide Parse;
    UnknownSkipped(u, m1);
    assert a + u + b == a + (u + b);
    Concatenation(a, u + b, m);
    Concatenation(u, b, m1);
    Concatenation(a, b, m);
  }

  // ---------------------------------------------------------------- whole inputs

  /** The input from i on is a sequence of fields: field k is at bounds[k] up to bounds[k + 1], and
      parsing it into ms[k] gives ms[k + 1]. */
  ghost predicate Fields(d: Bytes, i: nat, bounds: seq<nat>, ms: seq<Message>) {
    && |bounds| == |ms| > 0 && bounds[0] == i && bounds[|bounds| - 1] == |d|
    && forall k: nat :: k < |bounds| - 1 ==> IsField(d, bounds, ms, k)
  }

  ghost predicate IsField(d: Bytes, bounds: seq<nat>, ms: seq<Message>, k: nat)
    requires |bounds| == |ms| && k < |bounds| - 1
  {
    && bounds[k] < bounds[k + 1] <= |d|
    && FieldAt(d, bounds[k], ms[k]) == Ok(Parsed(ms[k + 1], bounds[k + 1]))
  }

  /** A parse that succeeds takes the whole input, field by field. */
  lemma {:induction false} ParseCovers(d: Bytes, i: nat, m: Message) returns (bounds: seq<nat>, ms: seq<Message>)
    requires i <= |d| && Parse(d, i, m).Ok?
    ensures Fields(d, i, bounds, ms) && ms[0] == m && Ok(ms[|ms| - 1]) == Parse(d, i, m)
    decreases |d| - i
  {
    hide FieldAt;
    if i == |d| {
      bounds, ms := [i], [m];
    } else {
      var p := FieldAt(d, i, m).value;
      var rest, ms' := ParseCovers(d, p.next, p.v);
      FieldsBefore(d, i, m, rest, ms');
      bounds, ms := [i] + rest, [m] + ms';
    }
  }

  lemma FieldsBefore(d: Bytes, i: nat, m: Message, bounds: seq<nat>, ms: seq<Message>)
    requires i <= |d| && |bounds| > 0 && Fields(d, bounds[0], bounds, ms)
    requires i < bounds[0] && FieldAt(d, i, m) == Ok(Parsed(ms[0], bounds[0]))
    ensures Fields(d, i, [i] + bounds, [m] + ms)
  {
    hide FieldAt;
    var bounds', ms' := [i] + bounds, [m] + ms;
    forall k: nat | k < |bounds'| - 1
      ensures IsField(d, bounds', ms', k)
    {
      if k > 0 { assert IsField(d, bounds, ms, k - 1); }
    }
    assert bounds'[|bounds'| - 1] == bounds[|bounds| - 1];
  }

  /** And an input that is such a sequence of fields is parsed to what its last field leaves. */
  lemma {:induction false} FieldsParse(d: Bytes, i: nat, bounds: seq<nat>, ms: seq<Message>)
    requires i <= |d| && Fields(d, i, bounds, ms)
    ensures Parse(d, i, ms[0]) == Ok(ms[|ms| - 1])
    decreases |ms|
  {
    hide FieldAt;
    if |ms| > 1 {
      assert IsField(d, bounds, ms, 0);
      FieldsAfter(d, i, bounds, ms);
      FieldsParse(d, bounds[1], bounds[1..], ms[1..]);
    }
  }

  lemma FieldsAfter(d: Bytes, i: nat, bounds: seq<nat>, ms: seq<Message>)
    requires Fields(d, i, bounds, ms) && |ms| > 1
    ensures bounds[1] <= |d| && Fields(d, bounds[1], bounds[1..], ms[1..])
  {
    hide FieldAt;
    var rest, ms' := bounds[1..], ms[1..];
    assert IsField(d, bounds, ms, 0);
    forall k: nat | k < |rest| - 1
      ensures IsField(d, rest, ms', k)
    {
      assert IsField(d, bounds, ms, k + 1);
    }
  }

  // ---------------------------------------------------------------- packed numbers

  /** Packed numbers may reach past their field. Here the field cliIds holds one byte, but the tag
      after it is read as the rest of a number. */
  lemma PackedOverrun()
    ensures Parse([0x2a, 1, 0x80, 0x20], 0, OfObj(EMPTY_OBJ)) == Ok(OfObj(EMPTY_OBJ.(cliIds := [4096])))
    ensures SpanAt([0x2a, 1, 0x80, 0x20], 1) == Ok(Parsed(2, 3))
  {
    var d: Bytes := [0x2a, 1, 0x80, 0x20];
    TagRead(5, 2, [1, 0x80, 0x20]);
    assert d == [0x2a] + [1, 0x80, 0x20];
    assert Varint(d, 3, 1) == Ok(Parsed(0x20, 4));
    assert Varint(d, 2, 0) == Ok(Parsed(4096, 4));
    assert NumbersFrom(d, 4, 3) == Ok(Parsed([], 4));
    assert [4096] + [] == [4096];
    assert NumbersFrom(d, 2, 3) == Ok(Parsed([4096], 4));
    assert SpanAt(d, 1) == Ok(Parsed(2, 3));
    assert NumbersField(d, 1, 2) == Ok(Parsed([4096], 4));
    assert [] + [4096] == [4096];
    OneField(d, OfObj(EMPTY_OBJ), OfObj(EMPTY_OBJ.(cliIds := [4096])));
  }
}
