/** The generated parsers, as loops over an index into the buffer. Each of them is proved to compute
    what Codec.Parse says, on every byte string.
    Source: internal/message/message.pb.go. */
module Unmarshalling {
  import opened Messages
  import opened Varints
  import opened Wire
  import opened Codec

  // ---------------------------------------------------------------- machine integers

  lemma KeepsLowBits(x: nat)
    ensures ToInt64(x % TWO_64) == ToInt64(x) < TWO_63 && ToInt32(x % TWO_32) == ToInt32(x)
    ensures (x % TWO_64) % 8 == x % 8
  {
  }

  /** The sum of two lengths wraps to a negative number exactly when it needs 64 bits. */
  lemma SumWraps(a: nat, b: nat)
    requires a < TWO_63 && b < TWO_63
    ensures ToInt64(a + b) < 0 <==> a + b >= TWO_63
    ensures ToInt64(a + b) >= 0 ==> ToInt64(a + b) == a + b
  {
  }

  // ---------------------------------------------------------------- fields

  method ReadTag(dAtA: Bytes, iNdEx: nat) returns (r: Result<Parsed<Tag>>)
    ensures r == TagAt(dAtA, iNdEx)
  {
    hide ToInt32;
    var w := ReadVarint(dAtA, iNdEx, TWO_64);
    match w
    case Err(e) => return Err(e);
    case Ok(p) =>
      var fieldNum := ToInt32(p.v / 8);
      var wireType := p.v % 8;
      if wireType == 4 {
        return Err(EndGroup);
      }
      if fieldNum <= 0 {
        return Err(IllegalTag);
      }
      return Ok(Parsed(Tag(fieldNum, wireType), p.next));
  }

  method ReadUint32(dAtA: Bytes, iNdEx: nat, wireType: nat) returns (r: Result<Parsed<uint32>>)
    ensures r == Uint32Field(dAtA, iNdEx, wireType)
  {
    if wireType != 0 {
      return Err(WrongWireType);
    }
    r := ReadVarint(dAtA, iNdEx, TWO_32);
  }

  method ReadEnum(dAtA: Bytes, iNdEx: nat, wireType: nat) returns (r: Result<Parsed<int32>>)
    ensures r == EnumField(dAtA, iNdEx, wireType)
  {
    hide ToInt32;
    if wireType != 0 {
      return Err(WrongWireType);
    }
    var w := ReadVarint(dAtA, iNdEx, TWO_32);
    match w
    case Err(e) => return Err(e);
    case Ok(p) =>
      KeepsLowBits(Varint(dAtA, iNdEx, 0).value.v);
      return Ok(Parsed(ToInt32(p.v), p.next));
  }

  method ReadBool(dAtA: Bytes, iNdEx: nat, wireType: nat) returns (r: Result<Parsed<bool>>)
    ensures r == BoolField(dAtA, iNdEx, wireType)
  {
    if wireType != 0 {
      return Err(WrongWireType);
    }
    var w := ReadVarint(dAtA, iNdEx, TWO_64);
    match w
    case Err(e) => return Err(e);
    case Ok(p) => return Ok(Parsed(p.v != 0, p.next));
  }

  /** The length of a length-delimited field, and the index after the field. Additions wrap around
      at 64 bits. */
  method ReadSpan(dAtA: Bytes, iNdEx: nat) returns (r: Result<Parsed<nat>>)
    requires |dAtA| < TWO_63
    ensures r == SpanAt(dAtA, iNdEx)
  {
    hide ToInt64, Varint;
    var w := ReadVarint(dAtA, iNdEx, TWO_64);
    match w
    case Err(e) => return Err(e);
    case Ok(p) =>
      KeepsLowBits(Varint(dAtA, iNdEx, 0).value.v);
      var length := ToInt64(p.v);
      if length < 0 {
        return Err(InvalidLength);
      }
      SumWraps(p.next, length);
      var postIndex := ToInt64(p.next + length);
      if postIndex < 0 {
        return Err(InvalidLength);
      }
      if postIndex > |dAtA| {
        return Err(UnexpectedEOF);
      }
      return Ok(Parsed(p.next, postIndex));
  }

  method ReadBytes(dAtA: Bytes, iNdEx: nat, wireType: nat) returns (r: Result<Parsed<Bytes>>)
    requires |dAtA| < TWO_63
    ensures r == BytesField(dAtA, iNdEx, wireType)
  {
    if wireType != 2 {
      return Err(WrongWireType);
    }
    var s := ReadSpan(dAtA, iNdEx);
    match s
    case Err(e) => return Err(e);
    case Ok(p) => return Ok(Parsed(dAtA[p.v..p.next], p.next));
  }

  method ReadNumbers(dAtA: Bytes, iNdEx: nat, wireType: nat) returns (r: Result<Parsed<seq<uint32>>>)
    requires |dAtA| < TWO_63
    ensures r == NumbersField(dAtA, iNdEx, wireType)
  {
    if wireType == 0 {
      var w := ReadVarint(dAtA, iNdEx, TWO_32);
      match w
      case Err(e) => return Err(e);
      case Ok(p) => return Ok(Parsed([p.v], p.next));
    } else if wireType == 2 {
      var s := ReadSpan(dAtA, iNdEx);
      match s
      case Err(e) => return Err(e);
      case Ok(p) => r := ReadPacked(dAtA, p.v, p.next);
    } else {
      return Err(WrongWireType);
    }
  }

  /** Reads numbers until postIndex; a number may reach past it, up to the end of the buffer. */
  method ReadPacked(dAtA: Bytes, start: nat, postIndex: nat) returns (r: Result<Parsed<seq<uint32>>>)
    requires start <= |dAtA|
    ensures r == NumbersFrom(dAtA, start, postIndex)
  {
    hide Varint;
    var iNdEx := start;
    var xs: seq<uint32> := [];
    PrependedNothing(NumbersFrom(dAtA, start, postIndex));
    while iNdEx < postIndex
      invariant iNdEx <= |dAtA|
      invariant NumbersFrom(dAtA, start, postIndex) == Prepended(xs, NumbersFrom(dAtA, iNdEx, postIndex))
      decreases |dAtA| - iNdEx
    {
      var w := ReadVarint(dAtA, iNdEx, TWO_32);
      if w.Err? {
        return Err(w.error);
      }
      var x: uint32 := w.value.v;
      PrependedOne(xs, x, NumbersFrom(dAtA, w.value.next, postIndex));
      xs := xs + [x];
      iNdEx := w.value.next;
    }
    assert xs + [] == xs;
    return Ok(Parsed(xs, iNdEx));
  }

  function Prepended(xs: seq<uint32>, r: Result<Parsed<seq<uint32>>>): Result<Parsed<seq<uint32>>> {
    match r
    case Err(e) => Err(e)
    case Ok(p) => Ok(Parsed(xs + p.v, p.next))
  }

  lemma PrependedNothing(r: Result<Parsed<seq<uint32>>>)
    ensures Prepended([], r) == r
  {
    if r.Ok? { assert [] + r.value.v == r.value.v; }
  }

  lemma PrependedOne(xs: seq<uint32>, x: uint32, r: Result<Parsed<seq<uint32>>>)
    ensures Prepended(xs, Then(r, (rest: seq<uint32>) => [x] + rest)) == Prepended(xs + [x], r)
  {
    if r.Ok? { assert xs + ([x] + r.value.v) == (xs + [x]) + r.value.v; }
  }

  // ---------------------------------------------------------------- unknown fields

  /** skipMessage: the length of the field at the start of dAtA, groups included. */
  method SkipMessage(dAtA: Bytes) returns (r: Result<nat>)
    requires |dAtA| < TWO_63
    ensures r == SkipFrom(dAtA, 0, 0)
  {
    hide ToInt64, Varint, SkipPayload;
    var iNdEx, depth: nat := 0, 0;
    while iNdEx < |dAtA|
      invariant 0 <= iNdEx
      invariant SkipFrom(dAtA, 0, 0) == SkipFrom(dAtA, iNdEx, depth)
      decreases |dAtA| - iNdEx
    {
      var wire := ReadVarint(dAtA, iNdEx, TWO_64);
      if wire.Err? {
        return Err(wire.error);
      }
      KeepsLowBits(Varint(dAtA, iNdEx, 0).value.v);
      var wireType := wire.value.v % 8;
      var after := SkipPayloadOf(dAtA, wire.value.next, wireType);
      if after.Err? {
        return Err(after.error);
      }
      if wireType == 3 {
        depth := depth + 1;
      } else if wireType == 4 {
        if depth == 0 {
          return Err(UnexpectedEndOfGroup);
        }
        depth := depth - 1;
      }
      if after.value >= TWO_63 {
        return Err(InvalidLength);
      }
      iNdEx := after.value;
      if depth == 0 {
        return Ok(iNdEx);
      }
    }
    return Err(UnexpectedEOF);
  }

  /** The cases of skipMessage that move the index. */
  method SkipPayloadOf(dAtA: Bytes, iNdEx: nat, wireType: nat) returns (r: Result<nat>)
    ensures r == SkipPayload(dAtA, iNdEx, wireType)
  {
    hide ToInt64, Varint;
    if wireType == 0 {
      var skipped := ReadVarint(dAtA, iNdEx, TWO_64);
      if skipped.Err? {
        return Err(skipped.error);
      }
      return Ok(skipped.value.next);
    } else if wireType == 1 {
      return Ok(iNdEx + 8);
    } else if wireType == 2 {
      var length := ReadVarint(dAtA, iNdEx, TWO_64);
      if length.Err? {
        return Err(length.error);
      }
      KeepsLowBits(Varint(dAtA, iNdEx, 0).value.v);
      if ToInt64(length.value.v) < 0 {
        return Err(InvalidLength);
      }
      return Ok(length.value.next + ToInt64(length.value.v));
    } else if wireType == 3 || wireType == 4 {
      return Ok(iNdEx);
    } else if wireType == 5 {
      return Ok(iNdEx + 4);
    } else {
      return Err(IllegalWireType);
    }
  }

  method SkipUnknown(dAtA: Bytes, preIndex: nat) returns (r: Result<Parsed<nat>>)
    requires preIndex <= |dAtA| < TWO_63
    ensures r == SkipAt(dAtA, preIndex)
  {
    hide ToInt64, SkipFrom;
    var skippy := SkipMessage(dAtA[preIndex..]);
    match skippy
    case Err(e) => return Err(e);
    case Ok(n) =>
      SumWraps(preIndex, n);
      if ToInt64(preIndex + n) < 0 {
        return Err(InvalidLength);
      }
      if preIndex + n > |dAtA| {
        return Err(UnexpectedEOF);
      }
      return Ok(Parsed(n, preIndex + n));
  }

  // ---------------------------------------------------------------- messages

  method UnmarshalCommand(dAtA: Bytes, c: Command) returns (r: Result<Command>)
    requires |dAtA| < TWO_63
    ensures match Parse(dAtA, 0, OfCommand(c))
      case Err(e) => r == Err(e)
      case Ok(x) => r == Ok(x.c)
  {
    hide TagAt, Uint32Field, BytesField, SkipAt, CommandField, SkipFrom;
    var m, iNdEx: nat := c, 0;
    while iNdEx < |dAtA|
      invariant iNdEx <= |dAtA|
      invariant Parse(dAtA, 0, OfCommand(c)) == Parse(dAtA, iNdEx, OfCommand(m))
      decreases |dAtA| - iNdEx
    {
      var tag := ReadTag(dAtA, iNdEx);
      if tag.Err? {
        return Err(tag.error);
      }
      var field := ReadCommandField(dAtA, iNdEx, tag.value, m);
      if field.Err? {
        return Err(field.error);
      }
      m, iNdEx := field.value.v, field.value.next;
    }
    return Ok(m);
  }

  method ReadCommandField(dAtA: Bytes, preIndex: nat, tag: Parsed<Tag>, m: Command) returns (r: Result<Parsed<Command>>)
    requires preIndex < tag.next <= |dAtA| < TWO_63
    ensures r == CommandField(dAtA, preIndex, tag, m)
  {
    hide Uint32Field, BytesField, SkipAt;
    var iNdEx, wireType := tag.next, tag.v.typ;
    if tag.v.num == 1 {
      var x := ReadUint32(dAtA, iNdEx, wireType);
      r := if x.Err? then Err(x.error) else Ok(Parsed(m.(cliId := x.value.v), x.value.next));
    } else if tag.v.num == 2 {
      var x := ReadUint32(dAtA, iNdEx, wireType);
      r := if x.Err? then Err(x.error) else Ok(Parsed(m.(cliSeq := x.value.v), x.value.next));
    } else if tag.v.num == 3 {
      var x := ReadUint32(dAtA, iNdEx, wireType);
      r := if x.Err? then Err(x.error) else Ok(Parsed(m.(svrSeq := x.value.v), x.value.next));
    } else if tag.v.num == 4 {
      var x := ReadBytes(dAtA, iNdEx, wireType);
      r := if x.Err? then Err(x.error) else Ok(Parsed(m.(commands := m.commands + [x.value.v]), x.value.next));
    } else {
      var x := SkipUnknown(dAtA, preIndex);
      r := if x.Err? then Err(x.error) else Ok(Parsed(m, x.value.next));
    }
  }

  method UnmarshalObj(dAtA: Bytes, o: ConsensusObj) returns (r: Result<ConsensusObj>)
    requires |dAtA| < TWO_63
    ensures match Parse(dAtA, 0, OfObj(o))
      case Err(e) => r == Err(e)
      case Ok(x) => r == Ok(x.o)
  {
    hide TagAt, Uint32Field, BytesField, SkipAt, ObjField, SkipFrom;
    var m, iNdEx: nat := o, 0;
    while iNdEx < |dAtA|
      invariant iNdEx <= |dAtA|
      invariant Parse(dAtA, 0, OfObj(o)) == Parse(dAtA, iNdEx, OfObj(m))
      decreases |dAtA| - iNdEx
    {
      var tag := ReadTag(dAtA, iNdEx);
      if tag.Err? {
        return Err(tag.error);
      }
      var field := ReadObjField(dAtA, iNdEx, tag.value, m);
      if field.Err? {
        return Err(field.error);
      }
      m, iNdEx := field.value.v, field.value.next;
    }
    return Ok(m);
  }

  method ReadObjField(dAtA: Bytes, preIndex: nat, tag: Parsed<Tag>, m: ConsensusObj)
    returns (r: Result<Parsed<ConsensusObj>>)
    requires preIndex < tag.next <= |dAtA| < TWO_63
    ensures r == ObjField(dAtA, preIndex, tag, m)
  {
    hide Uint32Field, BoolField, NumbersField, BytesField, SkipAt;
    var iNdEx, wireType := tag.next, tag.v.typ;
    if tag.v.num == 1 {
      var x := ReadUint32(dAtA, iNdEx, wireType);
      r := if x.Err? then Err(x.error) else Ok(Parsed(m.(proId := x.value.v), x.value.next));
    } else if tag.v.num == 2 {
      var x := ReadUint32(dAtA, iNdEx, wireType);
      r := if x.Err? then Err(x.error) else Ok(Parsed(m.(proSeq := x.value.v), x.value.next));
    } else if tag.v.num == 3 {
      var x := ReadUint32(dAtA, iNdEx, wireType);
      r := if x.Err? then Err(x.error) else Ok(Parsed(m.(svrSeq := x.value.v), x.value.next));
    } else if tag.v.num == 4 {
      var x := ReadBool(dAtA, iNdEx, wireType);
      r := if x.Err? then Err(x.error) else Ok(Parsed(m.(isNull := x.value.v), x.value.next));
    } else if tag.v.num == 5 {
      var x := ReadNumbers(dAtA, iNdEx, wireType);
      r := if x.Err? then Err(x.error) else Ok(Parsed(m.(cliIds := m.cliIds + x.value.v), x.value.next));
    } else if tag.v.num == 6 {
      var x := ReadNumbers(dAtA, iNdEx, wireType);
      r := if x.Err? then Err(x.error) else Ok(Parsed(m.(cliSeqs := m.cliSeqs + x.value.v), x.value.next));
    } else if tag.v.num == 7 {
      var x := ReadBytes(dAtA, iNdEx, wireType);
      r := if x.Err? then Err(x.error) else Ok(Parsed(m.(commands := m.commands + [x.value.v]), x.value.next));
    } else {
      var x := SkipUnknown(dAtA, preIndex);
      r := if x.Err? then Err(x.error) else Ok(Parsed(m, x.value.next));
    }
  }

  method UnmarshalMsg(dAtA: Bytes, g: Msg) returns (r: Result<Msg>)
    requires |dAtA| < TWO_63
    ensures match Parse(dAtA, 0, OfMsg(g))
      case Err(e) => r == Err(e)
      case Ok(x) => r == Ok(x.m)
  {
    hide TagAt, Uint32Field, BytesField, SkipAt, MsgField, SkipFrom;
    var m, iNdEx: nat := g, 0;
    while iNdEx < |dAtA|
      invariant iNdEx <= |dAtA|
      invariant Parse(dAtA, 0, OfMsg(g)) == Parse(dAtA, iNdEx, OfMsg(m))
      decreases |dAtA| - iNdEx
    {
      var tag := ReadTag(dAtA, iNdEx);
      if tag.Err? {
        return Err(tag.error);
      }
      var field := ReadMsgField(dAtA, iNdEx, tag.value, m);
      if field.Err? {
        return Err(field.error);
      }
      m, iNdEx := field.value.v, field.value.next;
    }
    return Ok(m);
  }

  method ReadMsgField(dAtA: Bytes, preIndex: nat, tag: Parsed<Tag>, m: Msg) returns (r: Result<Parsed<Msg>>)
    requires preIndex < tag.next <= |dAtA| < TWO_63
    ensures r == MsgField(dAtA, preIndex, tag, m)
  {
    hide Uint32Field, EnumField, BytesField, SkipAt, Parse;
    var iNdEx, wireType := tag.next, tag.v.typ;
    if tag.v.num == 1 {
      var x := ReadEnum(dAtA, iNdEx, wireType);
      r := if x.Err? then Err(x.error) else Ok(Parsed(m.(typ := x.value.v), x.value.next));
    } else if tag.v.num == 2 {
      var x := ReadUint32(dAtA, iNdEx, wireType);
      r := if x.Err? then Err(x.error) else Ok(Parsed(m.(phase := x.value.v), x.value.next));
    } else if tag.v.num == 3 {
      var x := ReadUint32(dAtA, iNdEx, wireType);
      r := if x.Err? then Err(x.error) else Ok(Parsed(m.(value := x.value.v), x.value.next));
    } else if tag.v.num == 4 {
      var x := ReadBytes(dAtA, iNdEx, wireType);
      if x.Err? {
        return Err(x.error);
      }
      var o := UnmarshalObj(x.value.v, ObjOf(m));
      r := if o.Err? then Err(o.error) else Ok(Parsed(m.(obj := Some(o.value)), x.value.next));
    } else {
      var x := SkipUnknown(dAtA, preIndex);
      r := if x.Err? then Err(x.error) else Ok(Parsed(m, x.value.next));
    }
  }
}
