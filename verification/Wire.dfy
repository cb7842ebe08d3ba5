/** The pieces of the Protocol Buffers wire format that the generated parsers are made of, as
    functions of the buffer d and an index: tags, varint fields, length-delimited fields, packed
    numbers, and unknown fields.
    Source: internal/message/message.pb.go. */
module Wire {
  import opened Messages
  import opened Varints

  datatype Tag = Tag(num: int32, typ: nat)

  /** Conversions to signed machine integers keep the low bits. */
  function ToInt32(x: nat): int32 {
    var y := x % TWO_32;
    if y < 0x8000_0000 then y else y - TWO_32
  }

  function ToInt64(x: nat): int {
    var y := x % TWO_64;
    if y < TWO_63 then y else y - TWO_64
  }

  /** The result of parsing something of a field, changed. */
  function Then<T, U>(r: Result<Parsed<T>>, f: T -> U): Result<Parsed<U>> {
    match r
    case Err(e) => Err(e)
    case Ok(p) => Ok(Parsed(f(p.v), p.next))
  }

  // ---------------------------------------------------------------- fields

  function TagAt(d: Bytes, i: nat): (r: Result<Parsed<Tag>>)
    ensures r.Ok? ==> i < r.value.next <= |d| && r.value.v.typ < 8 && r.value.v.num > 0
  {
    match Varint(d, i, 0)
    case Err(e) => Err(e)
    case Ok(p) =>
      var wire := p.v % TWO_64;
      if wire % 8 == 4 then Err(EndGroup)
      else if ToInt32(wire / 8) <= 0 then Err(IllegalTag)
      else Ok(Parsed(Tag(ToInt32(wire / 8), wire % 8), p.next))
  }

  function VarintField(d: Bytes, i: nat, typ: nat): (r: Result<Parsed<nat>>)
    ensures r.Ok? ==> i < r.value.next <= |d|
  {
    if typ != 0 then Err(WrongWireType) else Varint(d, i, 0)
  }

  function Uint32Field(d: Bytes, i: nat, typ: nat): (r: Result<Parsed<uint32>>)
    ensures r.Ok? ==> i < r.value.next <= |d|
  {
    Then(VarintField(d, i, typ), (v: nat) => v % TWO_32)
  }

  function EnumField(d: Bytes, i: nat, typ: nat): (r: Result<Parsed<int32>>)
    ensures r.Ok? ==> i < r.value.next <= |d|
  {
    Then(VarintField(d, i, typ), ToInt32)
  }

  function BoolField(d: Bytes, i: nat, typ: nat): (r: Result<Parsed<bool>>)
    ensures r.Ok? ==> i < r.value.next <= |d|
  {
    Then(VarintField(d, i, typ), (v: nat) => v % TWO_64 != 0)
  }

  /** The bytes of a length-delimited field: where they start, and the index after them. */
  function SpanAt(d: Bytes, i: nat): (r: Result<Parsed<nat>>)
    ensures r.Ok? ==> i < r.value.v <= r.value.next <= |d|
  {
    match Varint(d, i, 0)
    case Err(e) => Err(e)
    case Ok(p) =>
      var length := ToInt64(p.v);
      if length < 0 then Err(InvalidLength)
      else if p.next + length >= TWO_63 then Err(InvalidLength)
      else if p.next + length > |d| then Err(UnexpectedEOF)
      else Ok(Parsed(p.next, p.next + length))
  }

  function BytesField(d: Bytes, i: nat, typ: nat): (r: Result<Parsed<Bytes>>)
    ensures r.Ok? ==> i < r.value.next <= |d| && |r.value.v| < |d|
  {
    if typ != 2 then Err(WrongWireType)
    else
      match SpanAt(d, i)
      case Err(e) => Err(e)
      case Ok(s) => Ok(Parsed(d[s.v..s.next], s.next))
  }

  /** Numbers from index i until at least index post: the last one may reach past post. */
  function NumbersFrom(d: Bytes, i: nat, post: nat): (r: Result<Parsed<seq<uint32>>>)
    requires i <= |d|
    ensures r.Ok? ==> i <= r.value.next <= |d|
    decreases |d| - i
  {
    if i >= post then Ok(Parsed([], i))
    else
      match Varint(d, i, 0)
      case Err(e) => Err(e)
      case Ok(p) => Then(NumbersFrom(d, p.next, post), (rest: seq<uint32>) => [p.v % TWO_32] + rest)
  }

  /** A varint ends with its first byte below 128. */
  lemma {:induction false} VarintEnd(d: Bytes, i: nat, n: nat)
    requires n <= 10 && Varint(d, i, n).Ok?
    ensures var next := Varint(d, i, n).value.next;
      d[next - 1] < 128 && forall k :: i <= k < next - 1 ==> d[k] >= 128
    decreases 10 - n
  {
    if d[i] >= 128 { VarintEnd(d, i + 1, n + 1); }
  }

  /** Where reading packed numbers ends: with the first number that ends at post or after it. */
  lemma {:induction false} NumbersEnd(d: Bytes, i: nat, post: nat)
    requires i < post <= |d| && NumbersFrom(d, i, post).Ok?
    ensures var next := NumbersFrom(d, i, post).value.next;
      && post <= next && d[next - 1] < 128 && (forall k :: post - 1 <= k < next - 1 ==> d[k] >= 128)
      && (next == post <==> d[post - 1] < 128)
    decreases |d| - i
  {
    var next := Varint(d, i, 0).value.next;
    VarintEnd(d, i, 0);
    if next < post { NumbersEnd(d, next, post); }
  }

  /** A repeated number field: one number, or packed numbers. */
  function NumbersField(d: Bytes, i: nat, typ: nat): (r: Result<Parsed<seq<uint32>>>)
    ensures r.Ok? ==> i < r.value.next <= |d|
  {
    if typ == 0 then Then(VarintField(d, i, typ), (v: nat) => [v % TWO_32])
    else if typ == 2 then
      match SpanAt(d, i)
      case Err(e) => Err(e)
      case Ok(s) => NumbersFrom(d, s.v, s.next)
    else Err(WrongWireType)
  }

  /** The parser stays inside a packed field exactly when the field is empty or ends with the last
      byte of a number. */
  lemma PackedStaysInside(d: Bytes, i: nat)
    requires NumbersField(d, i, 2).Ok?
    ensures var s := SpanAt(d, i).value;
      NumbersField(d, i, 2).value.next == s.next <==> s.v == s.next || d[s.next - 1] < 128
  {
    var s := SpanAt(d, i).value;
    if s.v < s.next { NumbersEnd(d, s.v, s.next); }
  }

  // ---------------------------------------------------------------- unknown fields

  /** skipMessage from index j on, inside depth groups: the index after the field, which may be
      beyond the end. */
  function SkipFrom(d: Bytes, j: nat, depth: nat): (r: Result<nat>)
    ensures r.Ok? ==> j < r.value < TWO_63 && j < |d|
    decreases |d| - j
  {
    if j >= |d| then Err(UnexpectedEOF)
    else
      match Varint(d, j, 0)
      case Err(e) => Err(e)
      case Ok(tag) =>
        match SkipPayload(d, tag.next, tag.v % 8)
        case Err(e) => Err(e)
        case Ok(k) =>
          if tag.v % 8 == 4 && depth == 0 then Err(UnexpectedEndOfGroup)
          else if k >= TWO_63 then Err(InvalidLength)
          else
            var depth' := if tag.v % 8 == 3 then depth + 1 else if tag.v % 8 == 4 then depth - 1 else depth;
            if depth' == 0 then Ok(k) else SkipFrom(d, k, depth')
  }

  /** The index after what follows a tag of this wire type, not yet cut to 64 bits. */
  function SkipPayload(d: Bytes, k: nat, typ: nat): (r: Result<nat>)
    ensures r.Ok? ==> k <= r.value
  {
    match typ
    case 0 => (match Varint(d, k, 0) case Err(e) => Err(e) case Ok(p) => Ok(p.next))
    case 1 => Ok(k + 8)
    case 2 =>
      (match Varint(d, k, 0)
       case Err(e) => Err(e)
       case Ok(p) => if ToInt64(p.v) < 0 then Err(InvalidLength) else Ok(p.next + ToInt64(p.v)))
    case 3 => Ok(k)
    case 4 => Ok(k)
    case 5 => Ok(k + 4)
    case _ => Err(IllegalWireType)
  }

  /** A field that the message does not know, from its tag on. */
  function SkipAt(d: Bytes, i: nat): (r: Result<Parsed<nat>>)
    requires i <= |d|
    ensures r.Ok? ==> i < r.value.next <= |d|
  {
    match SkipFrom(d[i..], 0, 0)
    case Err(e) => Err(e)
    case Ok(n) =>
      if i + n >= TWO_63 then Err(InvalidLength)
      else if i + n > |d| then Err(UnexpectedEOF)
      else Ok(Parsed(n, i + n))
  }

  // ---------------------------------------------------------------- bytes after a field do not matter

  lemma TagLocal(d: Bytes, e: Bytes, i: nat)
    requires TagAt(d, i).Ok?
    ensures TagAt(d + e, i) == TagAt(d, i)
  {
    VarintLocal(d, e, i, 0);
  }

  lemma VarintFieldLocal(d: Bytes, e: Bytes, i: nat, typ: nat)
    ensures VarintField(d, i, typ).Ok? ==> VarintField(d + e, i, typ) == VarintField(d, i, typ)
    ensures Uint32Field(d, i, typ).Ok? ==> Uint32Field(d + e, i, typ) == Uint32Field(d, i, typ)
    ensures EnumField(d, i, typ).Ok? ==> EnumField(d + e, i, typ) == EnumField(d, i, typ)
    ensures BoolField(d, i, typ).Ok? ==> BoolField(d + e, i, typ) == BoolField(d, i, typ)
  {
    if Varint(d, i, 0).Ok? { VarintLocal(d, e, i, 0); }
  }

  lemma SpanLocal(d: Bytes, e: Bytes, i: nat)
    requires SpanAt(d, i).Ok?
    ensures SpanAt(d + e, i) == SpanAt(d, i)
  {
    VarintLocal(d, e, i, 0);
  }

  lemma BytesFieldLocal(d: Bytes, e: Bytes, i: nat, typ: nat)
    requires BytesField(d, i, typ).Ok?
    ensures BytesField(d + e, i, typ) == BytesField(d, i, typ)
  {
    SpanLocal(d, e, i);
    var s := SpanAt(d, i).value;
    assert (d + e)[s.v..s.next] == d[s.v..s.next];
  }

  lemma {:induction false} NumbersFromLocal(d: Bytes, e: Bytes, i: nat, post: nat)
    requires i <= |d| && NumbersFrom(d, i, post).Ok?
    ensures NumbersFrom(d + e, i, post) == NumbersFrom(d, i, post)
    decreases |d| - i
  {
    if i < post {
      VarintLocal(d, e, i, 0);
      NumbersFromLocal(d, e, Varint(d, i, 0).value.next, post);
    }
  }

  lemma NumbersFieldLocal(d: Bytes, e: Bytes, i: nat, typ: nat)
    requires NumbersField(d, i, typ).Ok?
    ensures NumbersField(d + e, i, typ) == NumbersField(d, i, typ)
  {
    if typ == 0 {
      VarintFieldLocal(d, e, i, typ);
    } else {
      SpanLocal(d, e, i);
      NumbersFromLocal(d, e, SpanAt(d, i).value.v, SpanAt(d, i).value.next);
    }
  }

  lemma SkipPayloadLocal(d: Bytes, e: Bytes, k: nat, typ: nat)
    requires SkipPayload(d, k, typ).Ok?
    ensures SkipPayload(d + e, k, typ) == SkipPayload(d, k, typ)
  {
    if typ == 0 || typ == 2 { VarintLocal(d, e, k, 0); }
  }

  lemma {:induction false} SkipFromLocal(d: Bytes, e: Bytes, j: nat, depth: nat)
    requires SkipFrom(d, j, depth).Ok?
    ensures SkipFrom(d + e, j, depth) == SkipFrom(d, j, depth)
    decreases |d| - j
  {
    VarintLocal(d, e, j, 0);
    var tag := Varint(d, j, 0).value;
    SkipPayloadLocal(d, e, tag.next, tag.v % 8);
    var k := SkipPayload(d, tag.next, tag.v % 8).value;
    var depth' := if tag.v % 8 == 3 then depth + 1 else if tag.v % 8 == 4 then depth - 1 else depth;
    if depth' > 0 { SkipFromLocal(d, e, k, depth'); }
  }

  lemma SkipLocal(d: Bytes, e: Bytes, i: nat)
    requires i <= |d| && SkipAt(d, i).Ok?
    ensures SkipAt(d + e, i) == SkipAt(d, i)
  {
    SkipFromLocal(d[i..], e, 0, 0);
    assert (d + e)[i..] == d[i..] + e;
  }

  // ---------------------------------------------------------------- nor do bytes before it

  /** The same outcome, k bytes further on; an error may become another one, since 64-bit
      overflow is noticed before the end of the buffer is. */
  predicate Moved<T(==)>(r: Result<Parsed<T>>, r': Result<Parsed<T>>, k: nat) {
    match r
    case Err(_) => r'.Err?
    case Ok(p) => r' == Ok(Parsed(p.v, k + p.next))
  }

  lemma TagMoved(p: Bytes, d: Bytes, i: nat)
    ensures Moved(TagAt(d, i), TagAt(p + d, |p| + i), |p|)
  {
    VarintShift(p, d, i, 0);
  }

  lemma VarintFieldMoved(p: Bytes, d: Bytes, i: nat, typ: nat)
    ensures Moved(VarintField(d, i, typ), VarintField(p + d, |p| + i, typ), |p|)
    ensures Moved(Uint32Field(d, i, typ), Uint32Field(p + d, |p| + i, typ), |p|)
    ensures Moved(EnumField(d, i, typ), EnumField(p + d, |p| + i, typ), |p|)
    ensures Moved(BoolField(d, i, typ), BoolField(p + d, |p| + i, typ), |p|)
  {
    hide Varint, ToInt32;
    VarintShift(p, d, i, 0);
  }

  lemma SpanMoved(p: Bytes, d: Bytes, i: nat)
    requires |p + d| < TWO_63
    ensures match SpanAt(d, i)
      case Err(_) => SpanAt(p + d, |p| + i).Err?
      case Ok(s) => SpanAt(p + d, |p| + i) == Ok(Parsed(|p| + s.v, |p| + s.next))
  {
    VarintShift(p, d, i, 0);
  }

  lemma BytesFieldMoved(p: Bytes, d: Bytes, i: nat, typ: nat)
    requires |p + d| < TWO_63
    ensures Moved(BytesField(d, i, typ), BytesField(p + d, |p| + i, typ), |p|)
  {
    SpanMoved(p, d, i);
    if SpanAt(d, i).Ok? {
      var s := SpanAt(d, i).value;
      assert (p + d)[|p| + s.v..|p| + s.next] == d[s.v..s.next];
    }
  }

  lemma {:induction false} NumbersFromMoved(p: Bytes, d: Bytes, i: nat, post: nat)
    requires i <= |d|
    ensures Moved(NumbersFrom(d, i, post), NumbersFrom(p + d, |p| + i, |p| + post), |p|)
    decreases |d| - i
  {
    if i < post {
      VarintShift(p, d, i, 0);
      if Varint(d, i, 0).Ok? { NumbersFromMoved(p, d, Varint(d, i, 0).value.next, post); }
    }
  }

  lemma NumbersFieldMoved(p: Bytes, d: Bytes, i: nat, typ: nat)
    requires |p + d| < TWO_63
    ensures Moved(NumbersField(d, i, typ), NumbersField(p + d, |p| + i, typ), |p|)
  {
    hide Varint, NumbersFrom;
    VarintFieldMoved(p, d, i, typ);
    SpanMoved(p, d, i);
    if SpanAt(d, i).Ok? { NumbersFromMoved(p, d, SpanAt(d, i).value.v, SpanAt(d, i).value.next); }
  }

  lemma SkipMoved(p: Bytes, d: Bytes, i: nat)
    requires i <= |d| && |p + d| < TWO_63
    ensures Moved(SkipAt(d, i), SkipAt(p + d, |p| + i), |p|)
  {
    assert (p + d)[|p| + i..] == d[i..];
  }
}
