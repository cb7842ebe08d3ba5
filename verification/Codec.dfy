/** The Protocol Buffers codec of Command, ConsensusObj and Msg, as functions: what is printed, and
    what any bytes are parsed to.
    Source: internal/message/message.pb.go. */
module Codec {
  import opened Messages
  import opened Varints
  import opened Wire

  // ---------------------------------------------------------------- printing

  /** Zero values are not printed. */
  function PutNumber(tag: byte, v: nat): Bytes {
    if v == 0 then [] else [tag] + Put(v)
  }

  function PutBytes(tag: byte, s: Bytes): Bytes {
    [tag] + Put(|s|) + s
  }

  function PutStrings(tag: byte, ss: seq<Bytes>): Bytes {
    if |ss| == 0 then [] else PutBytes(tag, ss[0]) + PutStrings(tag, ss[1..])
  }

  function PutAll(xs: seq<uint32>): Bytes {
    if |xs| == 0 then [] else Put(xs[0]) + PutAll(xs[1..])
  }

  function PutPacked(tag: byte, xs: seq<uint32>): Bytes {
    if |xs| == 0 then [] else PutBytes(tag, PutAll(xs))
  }

  /** uint64(x) of a signed number. */
  function Unsigned(x: int32): uint64 {
    if x < 0 then x + TWO_64 else x
  }

  function EncodeCommand(m: Command): Bytes {
    PutNumber(0x08, m.cliId) + (PutNumber(0x10, m.cliSeq) + (PutNumber(0x18, m.svrSeq) + PutStrings(0x22, m.commands)))
  }

  function EncodeObj(m: ConsensusObj): Bytes {
    PutNumber(0x08, m.proId) + (PutNumber(0x10, m.proSeq) + (PutNumber(0x18, m.svrSeq)
      + (PutNumber(0x20, if m.isNull then 1 else 0) + (PutPacked(0x2a, m.cliIds) + (PutPacked(0x32, m.cliSeqs)
      + PutStrings(0x3a, m.commands))))))
  }

  function EncodeMsg(m: Msg): Bytes {
    PutNumber(0x08, Unsigned(m.typ)) + (PutNumber(0x10, m.phase) + (PutNumber(0x18, m.value)
      + (if m.obj.None? then [] else PutBytes(0x22, EncodeObj(m.obj.value)))))
  }

  // ---------------------------------------------------------------- parsing

  /** A message being filled in. */
  datatype Message = OfCommand(c: Command) | OfObj(o: ConsensusObj) | OfMsg(m: Msg)

  predicate SameKind(a: Message, b: Message) {
    a.OfCommand? == b.OfCommand? && a.OfObj? == b.OfObj?
  }

  const EMPTY_COMMAND := Command(0, 0, 0, [])
  const EMPTY_MSG := Msg(0, 0, 0, None)

  function CommandField(d: Bytes, i: nat, tag: Parsed<Tag>, c: Command): (r: Result<Parsed<Command>>)
    requires i < tag.next <= |d|
    ensures r.Ok? ==> i < r.value.next <= |d|
  {
    var at, typ := tag.next, tag.v.typ;
    match tag.v.num
    case 1 => Then(Uint32Field(d, at, typ), (x: uint32) => c.(cliId := x))
    case 2 => Then(Uint32Field(d, at, typ), (x: uint32) => c.(cliSeq := x))
    case 3 => Then(Uint32Field(d, at, typ), (x: uint32) => c.(svrSeq := x))
    case 4 => Then(BytesField(d, at, typ), (x: Bytes) => c.(commands := c.commands + [x]))
    case _ => Then(SkipAt(d, i), (x: nat) => c)
  }

  function ObjField(d: Bytes, i: nat, tag: Parsed<Tag>, o: ConsensusObj): (r: Result<Parsed<ConsensusObj>>)
    requires i < tag.next <= |d|
    ensures r.Ok? ==> i < r.value.next <= |d|
  {
    var at, typ := tag.next, tag.v.typ;
    match tag.v.num
    case 1 => Then(Uint32Field(d, at, typ), (x: uint32) => o.(proId := x))
    case 2 => Then(Uint32Field(d, at, typ), (x: uint32) => o.(proSeq := x))
    case 3 => Then(Uint32Field(d, at, typ), (x: uint32) => o.(svrSeq := x))
    case 4 => Then(BoolField(d, at, typ), (x: bool) => o.(isNull := x))
    case 5 => Then(NumbersField(d, at, typ), (x: seq<uint32>) => o.(cliIds := o.cliIds + x))
    case 6 => Then(NumbersField(d, at, typ), (x: seq<uint32>) => o.(cliSeqs := o.cliSeqs + x))
    case 7 => Then(BytesField(d, at, typ), (x: Bytes) => o.(commands := o.commands + [x]))
    case _ => Then(SkipAt(d, i), (x: nat) => o)
  }

  function ObjOf(m: Msg): ConsensusObj {
    if m.obj.Some? then m.obj.value else EMPTY_OBJ
  }

  /** The nested object is parsed from its own bytes, into the object that is already there. */
  function MsgField(d: Bytes, i: nat, tag: Parsed<Tag>, m: Msg): (r: Result<Parsed<Msg>>)
    requires i < tag.next <= |d|
    ensures r.Ok? ==> i < r.value.next <= |d|
    decreases |d|, |d| - i, 0
  {
    var at, typ := tag.next, tag.v.typ;
    match tag.v.num
    case 1 => Then(EnumField(d, at, typ), (x: int32) => m.(typ := x))
    case 2 => Then(Uint32Field(d, at, typ), (x: uint32) => m.(phase := x))
    case 3 => Then(Uint32Field(d, at, typ), (x: uint32) => m.(value := x))
    case 4 =>
      (match BytesField(d, at, typ)
       case Err(e) => Err(e)
       case Ok(b) =>
         match Parse(b.v, 0, OfObj(ObjOf(m)))
         case Err(e) => Err(e)
         case Ok(x) => Ok(Parsed(m.(obj := Some(x.o)), b.next)))
    case _ => Then(SkipAt(d, i), (x: nat) => m)
  }

  function FieldAt(d: Bytes, i: nat, m: Message): (r: Result<Parsed<Message>>)
    requires i <= |d|
    ensures r.Ok? ==> i < r.value.next <= |d| && SameKind(r.value.v, m)
    decreases |d|, |d| - i, 1
  {
    match TagAt(d, i)
    case Err(e) => Err(e)
    case Ok(tag) =>
      match m
      case OfCommand(c) => Then(CommandField(d, i, tag, c), (x: Command) => OfCommand(x))
      case OfObj(o) => Then(ObjField(d, i, tag, o), (x: ConsensusObj) => OfObj(x))
      case OfMsg(g) => Then(MsgField(d, i, tag, g), (x: Msg) => OfMsg(x))
  }

  /** Unmarshal, from index i on, into m. */
  function Parse(d: Bytes, i: nat, m: Message): (r: Result<Message>)
    requires i <= |d|
    ensures r.Ok? ==> SameKind(r.value, m)
    decreases |d|, |d| - i, 2
  {
    if i == |d| then Ok(m)
    else
      match FieldAt(d, i, m)
      case Err(e) => Err(e)
      case Ok(p) => Parse(d, p.next, p.v)
  }

  // ---------------------------------------------------------------- concatenation

  lemma FieldLocal(d: Bytes, e: Bytes, i: nat, m: Message)
    requires i <= |d| && FieldAt(d, i, m).Ok?
    ensures FieldAt(d + e, i, m) == FieldAt(d, i, m)
  {
    hide Uint32Field, EnumField, BoolField, BytesField, NumbersField, SkipAt;
    TagLocal(d, e, i);
    var tag := TagAt(d, i).value;
    match m
    case OfCommand(c) => CommandFieldLocal(d, e, i, tag, c);
    case OfObj(o) => ObjFieldLocal(d, e, i, tag, o);
    case OfMsg(g) => MsgFieldLocal(d, e, i, tag, g);
  }

  lemma CommandFieldLocal(d: Bytes, e: Bytes, i: nat, tag: Parsed<Tag>, c: Command)
    requires i < tag.next <= |d| && CommandField(d, i, tag, c).Ok?
    ensures CommandField(d + e, i, tag, c) == CommandField(d, i, tag, c)
  {
    hide Uint32Field, EnumField, BoolField, NumbersField, BytesField, SkipAt, VarintField;
    var at, typ := tag.next, tag.v.typ;
    match tag.v.num
    case 1 => VarintFieldLocal(d, e, at, typ);
    case 2 => VarintFieldLocal(d, e, at, typ);
    case 3 => VarintFieldLocal(d, e, at, typ);
    case 4 => BytesFieldLocal(d, e, at, typ);
    case _ => SkipLocal(d, e, i);
  }

  lemma ObjFieldLocal(d: Bytes, e: Bytes, i: nat, tag: Parsed<Tag>, o: ConsensusObj)
    requires i < tag.next <= |d| && ObjField(d, i, tag, o).Ok?
    ensures ObjField(d + e, i, tag, o) == ObjField(d, i, tag, o)
  {
    hide Uint32Field, EnumField, BoolField, NumbersField, BytesField, SkipAt, VarintField;
    var at, typ := tag.next, tag.v.typ;
    match tag.v.num
    case 1 => VarintFieldLocal(d, e, at, typ);
    case 2 => VarintFieldLocal(d, e, at, typ);
    case 3 => VarintFieldLocal(d, e, at, typ);
    case 4 => VarintFieldLocal(d, e, at, typ);
    case 5 => NumbersFieldLocal(d, e, at, typ);
    case 6 => NumbersFieldLocal(d, e, at, typ);
    case 7 => BytesFieldLocal(d, e, at, typ);
    case _ => SkipLocal(d, e, i);
  }

  lemma MsgFieldLocal(d: Bytes, e: Bytes, i: nat, tag: Parsed<Tag>, m: Msg)
    requires i < tag.next <= |d| && MsgField(d, i, tag, m).Ok?
    ensures MsgField(d + e, i, tag, m) == MsgField(d, i, tag, m)
  {
    hide Uint32Field, EnumField, BoolField, NumbersField, BytesField, SkipAt, VarintField;
    var at, typ := tag.next, tag.v.typ;
    match tag.v.num
    case 1 => VarintFieldLocal(d, e, at, typ);
    case 2 => VarintFieldLocal(d, e, at, typ);
    case 3 => VarintFieldLocal(d, e, at, typ);
    case 4 => BytesFieldLocal(d, e, at, typ);
    case _ => SkipLocal(d, e, i);
  }

  lemma FieldMoved(p: Bytes, d: Bytes, i: nat, m: Message)
    requires i <= |d| && |p + d| < TWO_63
    ensures Moved(FieldAt(d, i, m), FieldAt(p + d, |p| + i, m), |p|)
  {
    hide TagAt, CommandField, ObjField, MsgField;
    TagMoved(p, d, i);
    if TagAt(d, i).Ok? {
      var tag := TagAt(d, i).value;
      match m
      case OfCommand(c) => CommandFieldMoved(p, d, i, tag, c);
      case OfObj(o) => ObjFieldMoved(p, d, i, tag, o);
      case OfMsg(g) => MsgFieldMoved(p, d, i, tag, g);
    }
  }

  lemma CommandFieldMoved(p: Bytes, d: Bytes, i: nat, tag: Parsed<Tag>, c: Command)
    requires i < tag.next <= |d| && |p + d| < TWO_63
    ensures Moved(CommandField(d, i, tag, c), CommandField(p + d, |p| + i, Parsed(tag.v, |p| + tag.next), c), |p|)
  {
    hide Uint32Field, EnumField, BoolField, NumbersField, BytesField, SkipAt, VarintField;
    var at, typ := tag.next, tag.v.typ;
    match tag.v.num
    case 1 => VarintFieldMoved(p, d, at, typ);
    case 2 => VarintFieldMoved(p, d, at, typ);
    case 3 => VarintFieldMoved(p, d, at, typ);
    case 4 => BytesFieldMoved(p, d, at, typ);
    case _ => SkipMoved(p, d, i);
  }

  lemma ObjFieldMoved(p: Bytes, d: Bytes, i: nat, tag: Parsed<Tag>, o: ConsensusObj)
    requires i < tag.next <= |d| && |p + d| < TWO_63
    ensures Moved(ObjField(d, i, tag, o), ObjField(p + d, |p| + i, Parsed(tag.v, |p| + tag.next), o), |p|)
  {
    hide Uint32Field, EnumField, BoolField, NumbersField, BytesField, SkipAt, VarintField;
    var at, typ := tag.next, tag.v.typ;
    match tag.v.num
    case 1 => VarintFieldMoved(p, d, at, typ);
    case 2 => VarintFieldMoved(p, d, at, typ);
    case 3 => VarintFieldMoved(p, d, at, typ);
    case 4 => VarintFieldMoved(p, d, at, typ);
    case 5 => NumbersFieldMoved(p, d, at, typ);
    case 6 => NumbersFieldMoved(p, d, at, typ);
    case 7 => BytesFieldMoved(p, d, at, typ);
    case _ => SkipMoved(p, d, i);
  }

  lemma MsgFieldMoved(p: Bytes, d: Bytes, i: nat, tag: Parsed<Tag>, m: Msg)
    requires i < tag.next <= |d| && |p + d| < TWO_63
    ensures Moved(MsgField(d, i, tag, m), MsgField(p + d, |p| + i, Parsed(tag.v, |p| + tag.next), m), |p|)
  {
    hide Uint32Field, EnumField, BoolField, NumbersField, BytesField, SkipAt, VarintField;
    var at, typ := tag.next, tag.v.typ;
    match tag.v.num
    case 1 => VarintFieldMoved(p, d, at, typ);
    case 2 => VarintFieldMoved(p, d, at, typ);
    case 3 => VarintFieldMoved(p, d, at, typ);
    case 4 => BytesFieldMoved(p, d, at, typ);
    case _ => SkipMoved(p, d, i);
  }

  /** The same message, or an error on both sides. */
  predicate SameOutcome(r: Result<Message>, r': Result<Message>) {
    if r.Ok? then r' == r else r'.Err?
  }

  lemma {:induction false} ParseMoved(p: Bytes, d: Bytes, i: nat, m: Message)
    requires i <= |d| && |p + d| < TWO_63
    ensures SameOutcome(Parse(d, i, m), Parse(p + d, |p| + i, m))
    decreases |d| - i
  {
    hide FieldAt;
    if i < |d| {
      FieldMoved(p, d, i, m);
      if FieldAt(d, i, m).Ok? { ParseMoved(p, d, FieldAt(d, i, m).value.next, FieldAt(d, i, m).value.v); }
    }
  }

  lemma {:induction false} ParseOn(a: Bytes, b: Bytes, i: nat, m: Message)
    requires i <= |a| && Parse(a, i, m).Ok?
    ensures Parse(a + b, i, m) == Parse(a + b, |a|, Parse(a, i, m).value)
    decreases |a| - i
  {
    hide FieldAt;
    if i < |a| {
      FieldLocal(a, b, i, m);
      ParseOn(a, b, FieldAt(a, i, m).value.next, FieldAt(a, i, m).value.v);
    }
  }

  /** Concatenation is merge: parsing a and then b is parsing b into what a was parsed to. */
  lemma Concatenation(a: Bytes, b: Bytes, m: Message)
    requires |a + b| < TWO_63 && Parse(a, 0, m).Ok?
    ensures SameOutcome(Parse(b, 0, Parse(a, 0, m).value), Parse(a + b, 0, m))
  {
    ParseOn(a, b, 0, m);
    ParseMoved(a, b, 0, Parse(a, 0, m).value);
  }
}
