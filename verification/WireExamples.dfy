/** The wire format in literal bytes: what is printed for each field, the forms of unknown fields, and
    what is wrong with inputs that are refused.
    Sources: internal/message/message.proto, internal/message/message.pb.go. */
module WireExamples {
  import opened Messages
  import opened Varints
  import opened Wire
  import opened Codec
  import opened CodecLaws

  // ---------------------------------------------------------------- what is printed

  /** The lowest seven bits come first, and all bytes but the last have the highest bit set. */
  lemma VarintBytes()
    ensures Put(0) == [0] && Put(127) == [127] && Put(128) == [0x80, 1] && Put(300) == [0xac, 2]
    ensures Put(0xffff_ffff) == [0xff, 0xff, 0xff, 0xff, 0x0f]
  {
    assert Put(1) == [1] && Put(2) == [2] && Put(15) == [15];
    assert Put(0x7ff) == [0xff] + Put(15) == [0xff, 0x0f];
    assert Put(0x3_ffff) == [0xff] + Put(0x7ff);
    assert Put(0x1ff_ffff) == [0xff] + Put(0x3_ffff);
  }

  /** Every field of a Command, under its number: 1 to 4. */
  lemma CommandBytes()
    ensures EncodeCommand(Command(1, 2, 300, [[97], []])) == [8, 1, 16, 2, 24, 0xac, 2, 34, 1, 97, 34, 0]
  {
    VarintBytes();
    assert Put(1) == [1] && Put(2) == [2];
    var ss: seq<Bytes> := [[97], []];
    assert ss[1..] == [[]] && ss[1..][1..] == [];
    assert PutStrings(0x22, ss[1..]) == PutBytes(0x22, []) + PutStrings(0x22, []) == [34, 0];
    assert PutStrings(0x22, ss) == PutBytes(0x22, [97]) + [34, 0] == [34, 1, 97, 34, 0];
  }

  /** Every field of a ConsensusObj, under its number: 1 to 7, the numbers packed. */
  lemma ObjBytes()
    ensures EncodeObj(ConsensusObj(1, 2, 3, true, [4, 300], [5], [[97]])) ==
      [8, 1, 16, 2, 24, 3, 32, 1, 42, 3, 4, 0xac, 2, 50, 1, 5, 58, 1, 97]
  {
    ObjNumbers();
    ObjLists();
    hide PutNumber, PutPacked, PutStrings;
  }

  lemma ObjNumbers()
    ensures PutNumber(0x08, 1) == [8, 1] && PutNumber(0x10, 2) == [16, 2] && PutNumber(0x18, 3) == [24, 3]
    ensures PutNumber(0x20, 1) == [32, 1]
  {
    assert Put(1) == [1] && Put(2) == [2] && Put(3) == [3];
  }

  lemma ObjLists()
    ensures PutPacked(0x2a, [4, 300]) == [42, 3, 4, 0xac, 2] && PutPacked(0x32, [5]) == [50, 1, 5]
    ensures PutStrings(0x3a, [[97]]) == [58, 1, 97]
  {
    VarintBytes();
    assert Put(1) == [1] && Put(3) == [3] && Put(4) == [4] && Put(5) == [5];
    hide Put;
    var xs: seq<uint32>, ys: seq<uint32>, ss: seq<Bytes> := [4, 300], [5], [[97]];
    assert xs[1..] == [300] && xs[1..][1..] == [] && ys[1..] == [] && ss[1..] == [];
    assert PutAll(xs[1..]) == Put(300) + PutAll([]) == [0xac, 2];
    assert PutAll(xs) == Put(4) + PutAll(xs[1..]) == [4, 0xac, 2];
    assert PutAll(ys) == Put(5) + PutAll([]) == [5];
    assert PutStrings(0x3a, ss) == PutBytes(0x3a, [97]) + PutStrings(0x3a, []) == [58, 1, 97];
  }

  /** The numbers of the message types, as printed. */
  lemma TypeBytes()
    ensures EncodeMsg(Msg(CLIENT_REQUEST, 0, 0, None)) == [] && EncodeMsg(Msg(PROPOSAL, 0, 0, None)) == [8, 1]
    ensures EncodeMsg(Msg(STATE, 0, 0, None)) == [8, 2] && EncodeMsg(Msg(VOTE, 0, 0, None)) == [8, 3]
    ensures EncodeMsg(Msg(PROPOSAL_REQUEST, 0, 0, None)) == [8, 4] && EncodeMsg(Msg(PROPOSAL_REPLY, 0, 0, None)) == [8, 5]
    ensures EncodeMsg(Msg(DECISION, 0, 0, None)) == [8, 6]
  {
    assert Put(1) == [1] && Put(2) == [2] && Put(3) == [3] && Put(4) == [4] && Put(5) == [5] && Put(6) == [6];
  }

  /** Zero values are not printed. */
  lemma NoBytes()
    ensures EncodeObj(EMPTY_OBJ) == [] && EncodeMsg(EMPTY_MSG) == [] && EncodeCommand(EMPTY_COMMAND) == []
  {
  }

  /** Every field of a Msg, under its number: 1 to 4. */
  lemma MsgBytes()
    ensures EncodeMsg(Msg(VOTE, 1, 2, Some(EMPTY_OBJ))) == [8, 3, 16, 1, 24, 2, 34, 0]
  {
    NoBytes();
    hide EncodeObj;
    assert Put(0) == [0] && Put(1) == [1] && Put(2) == [2] && Put(3) == [3];
  }

  // ---------------------------------------------------------------- unknown fields

  predicate IsTag(num: nat, typ: nat) {
    1 <= num < 16 && typ < 8
  }

  function TagOf(num: nat, typ: nat): byte
    requires IsTag(num, typ)
  {
    (8 * num + typ) as byte
  }

  /** The forms of an unknown field: a number, eight bytes, bytes with their length, and four bytes. */
  lemma UnknownForms(m: Message, num: nat, v: nat, s: Bytes)
    requires 8 <= num < 16 && v < TWO_64 && |s| < TWO_32
    ensures IsUnknown([TagOf(num, 0)] + Put(v), m)
    ensures |s| == 8 ==> IsUnknown([TagOf(num, 1)] + s, m)
    ensures IsUnknown([TagOf(num, 2)] + Put(|s|) + s, m)
    ensures |s| == 4 ==> IsUnknown([TagOf(num, 5)] + s, m)
  {
    hide Put, TagAt, SkipAt;
    UnknownNumber(num, v);
    UnknownBytes(num, s);
    if |s| == 8 { UnknownFixed(num, 1, s); }
    if |s| == 4 { UnknownFixed(num, 5, s); }
  }

  lemma UnknownNumber(num: nat, v: nat)
    requires 1 <= num < 16 && v < TWO_64
    ensures var d := [TagOf(num, 0)] + Put(v);
      TagAt(d, 0) == Ok(Parsed(Tag(num, 0), 1)) && SkipAt(d, 0) == Ok(Parsed(|d|, |d|))
  {
    hide Put, TagAt, Pow128;
    var tag := [TagOf(num, 0)];
    TagRead(num, 0, Put(v));
    FirstByte(num, 0, Put(v));
    Pow128Values();
    VarintRoundTrip(tag, v, [], 0);
    PutBelow(v);
    hide Varint;
    assert tag + Put(v) + [] == tag + Put(v);
    WholeSkip(tag + Put(v), 8 * num);
  }

  lemma PutBelow(v: nat)
    requires v < TWO_64
    ensures |Put(v)| <= 10
  {
    Pow128Values();
    PutSize(v, 10);
  }

  lemma UnknownBytes(num: nat, s: Bytes)
    requires 1 <= num < 16 && |s| < TWO_32
    ensures var d := [TagOf(num, 2)] + Put(|s|) + s;
      TagAt(d, 0) == Ok(Parsed(Tag(num, 2), 1)) && SkipAt(d, 0) == Ok(Parsed(|d|, |d|))
  {
    hide Put, TagAt, Pow128;
    var tag := [TagOf(num, 2)];
    var d := tag + Put(|s|) + s;
    assert d == tag + (Put(|s|) + s);
    TagRead(num, 2, Put(|s|) + s);
    FirstByte(num, 2, Put(|s|) + s);
    Pow128Values();
    VarintRoundTrip(tag, |s|, s, 0);
    PutBelow(|s|);
    hide Varint;
    assert ToInt64(|s|) == |s|;
    WholeSkip(d, 8 * num + 2);
  }

  lemma UnknownFixed(num: nat, typ: nat, s: Bytes)
    requires 1 <= num < 16 && (typ == 1 || typ == 5) && |s| == if typ == 1 then 8 else 4
    ensures var d := [TagOf(num, typ)] + s;
      TagAt(d, 0) == Ok(Parsed(Tag(num, typ), 1)) && SkipAt(d, 0) == Ok(Parsed(|d|, |d|))
  {
    hide TagAt;
    TagRead(num, typ, s);
    FirstByte(num, typ, s);
    hide Varint;
    WholeSkip([TagOf(num, typ)] + s, 8 * num + typ);
  }

  lemma FirstByte(num: nat, typ: nat, rest: Bytes)
    requires IsTag(num, typ)
    ensures Varint([TagOf(num, typ)] + rest, 0, 0) == Ok(Parsed(8 * num + typ, 1))
  {
  }

  lemma WholeSkip(d: Bytes, tag: nat)
    requires 0 < |d| < TWO_63 && Varint(d, 0, 0) == Ok(Parsed(tag, 1)) && tag % 8 != 3 && tag % 8 != 4
    requires SkipPayload(d, 1, tag % 8) == Ok(|d|)
    ensures SkipAt(d, 0) == Ok(Parsed(|d|, |d|))
  {
    hide Varint, SkipPayload;
    assert d[0..] == d;
  }

  /** A group is skipped with the fields in it, and groups nest. */
  lemma GroupBytes()
    ensures SkipAt([67, 8, 1, 75, 76, 68, 5], 0) == Ok(Parsed(6, 6))
  {
    var d: Bytes := [67, 8, 1, 75, 76, 68, 5];
    assert d[0..] == d;
    assert SkipFrom(d, 5, 1) == Ok(6);
    assert SkipFrom(d, 4, 2) == Ok(6);
    assert SkipFrom(d, 3, 1) == Ok(6);
    assert SkipFrom(d, 1, 1) == Ok(6);
    assert SkipFrom(d, 0, 0) == Ok(6);
  }

  // ---------------------------------------------------------------- what is refused

  /** A number is cut to its variable: 2^32 is read as 0 into 32 bits, and 2^32 + 2^31 as the least type. */
  lemma WideNumbers()
    ensures Parse([16, 0x80, 0x80, 0x80, 0x80, 0x10], 0, OfMsg(EMPTY_MSG)) == Ok(OfMsg(EMPTY_MSG))
    ensures Parse([8, 0x80, 0x80, 0x80, 0x80, 0x18], 0, OfMsg(EMPTY_MSG)) ==
      Ok(OfMsg(EMPTY_MSG.(typ := -0x8000_0000)))
  {
    var d: Bytes, e: Bytes := [16, 0x80, 0x80, 0x80, 0x80, 0x10], [8, 0x80, 0x80, 0x80, 0x80, 0x18];
    assert Varint(d, 5, 4) == Ok(Parsed(0x10, 6)) && Varint(e, 5, 4) == Ok(Parsed(0x18, 6));
    assert Varint(d, 4, 3) == Ok(Parsed(0x800, 6)) && Varint(e, 4, 3) == Ok(Parsed(0xc00, 6));
    assert Varint(d, 3, 2) == Ok(Parsed(0x4_0000, 6)) && Varint(e, 3, 2) == Ok(Parsed(0x6_0000, 6));
    assert Varint(d, 1, 0) == Ok(Parsed(0x1_0000_0000, 6)) && Varint(e, 1, 0) == Ok(Parsed(0x1_8000_0000, 6));
    assert d == [16] + d[1..] && e == [8] + e[1..];
    TagRead(2, 0, d[1..]);
    TagRead(1, 0, e[1..]);
    hide Varint, TagAt, BytesField, SkipAt;
    OneField(d, OfMsg(EMPTY_MSG), OfMsg(EMPTY_MSG));
    OneField(e, OfMsg(EMPTY_MSG), OfMsg(EMPTY_MSG.(typ := -0x8000_0000)));
  }

  /** Inputs that are refused, and why: a tag of the wrong wire type, an end of a group, field 0. */
  lemma RefusedTags(m: Msg)
    ensures Parse([0x0a, 0], 0, OfMsg(m)) == Err(WrongWireType)
    ensures Parse([0x20, 0], 0, OfMsg(m)) == Err(WrongWireType)
    ensures Parse([0x0c], 0, OfMsg(m)) == Err(EndGroup)
    ensures Parse([0x00], 0, OfMsg(m)) == Err(IllegalTag)
  {
    hide SkipAt, SpanAt;
    FirstBytes([0x0a, 0]);
    FirstBytes([0x20, 0]);
    FirstBytes([0x0c]);
    FirstBytes([0x00]);
    hide Varint;
    assert FieldAt([0x0a, 0], 0, OfMsg(m)) == Err(WrongWireType);
    assert FieldAt([0x20, 0], 0, OfMsg(m)) == Err(WrongWireType);
    assert FieldAt([0x0c], 0, OfMsg(m)) == Err(EndGroup);
    assert FieldAt([0x00], 0, OfMsg(m)) == Err(IllegalTag);
  }

  lemma FirstBytes(d: Bytes)
    requires |d| > 0 && d[0] < 128
    ensures Varint(d, 0, 0) == Ok(Parsed(d[0] as nat, 1))
  {
  }

  /** And input that ends within a number, within bytes, or within a group, and an illegal wire type. */
  lemma RefusedEnds(m: Msg)
    ensures Parse([0x08], 0, OfMsg(m)) == Err(UnexpectedEOF)
    ensures Parse([0x22, 1], 0, OfMsg(m)) == Err(UnexpectedEOF)
    ensures Parse([0x43, 0x48], 0, OfMsg(m)) == Err(UnexpectedEOF)
    ensures Parse([0x46], 0, OfMsg(m)) == Err(IllegalWireType)
  {
    FirstBytes([0x08]);
    FirstBytes([0x22, 1]);
    FirstBytes([0x43, 0x48]);
    FirstBytes([0x46]);
    assert Varint([0x22, 1], 1, 0) == Ok(Parsed(1, 2)) && Varint([0x08], 1, 0) == Err(UnexpectedEOF);
    assert Varint([0x43, 0x48], 1, 0) == Ok(Parsed(0x48, 2)) && Varint([0x43, 0x48], 2, 0) == Err(UnexpectedEOF);
    hide Varint;
    RefusedSkips();
    hide SkipAt;
    assert FieldAt([0x08], 0, OfMsg(m)) == Err(UnexpectedEOF);
    assert FieldAt([0x22, 1], 0, OfMsg(m)) == Err(UnexpectedEOF);
    assert FieldAt([0x43, 0x48], 0, OfMsg(m)) == Err(UnexpectedEOF);
    assert FieldAt([0x46], 0, OfMsg(m)) == Err(IllegalWireType);
  }

  lemma RefusedSkips()
    ensures SkipAt([0x43, 0x48], 0) == Err(UnexpectedEOF) && SkipAt([0x46], 0) == Err(IllegalWireType)
  {
    var d: Bytes, e: Bytes := [0x43, 0x48], [0x46];
    assert d[0..] == d && e[0..] == e;
    FirstBytes(d);
    FirstBytes(e);
    assert Varint(d, 1, 0) == Ok(Parsed(0x48, 2)) && Varint(d, 2, 0) == Err(UnexpectedEOF);
    hide Varint;
    assert SkipFrom(d, 1, 1) == Err(UnexpectedEOF);
  }

  /** A number of more than ten bytes is refused. */
  lemma LongNumber(m: Msg, d: Bytes)
    requires |d| == 11 && d[0] == 0x10 && forall k :: 1 <= k < 11 ==> d[k] >= 128
    ensures Parse(d, 0, OfMsg(m)) == Err(IntOverflow)
  {
    assert d == [0x10] + d[1..];
    TagRead(2, 0, d[1..]);
    EndlessVarint(d, 1, 0);
    hide Varint, TagAt;
    assert FieldAt(d, 0, OfMsg(m)) == Err(IntOverflow);
  }

  lemma {:induction false} EndlessVarint(d: Bytes, i: nat, n: nat)
    requires n <= 10 && i + 10 - n <= |d| && forall k :: i <= k < i + 10 - n ==> d[k] >= 128
    ensures Varint(d, i, n) == Err(IntOverflow)
    decreases 10 - n
  {
    if n < 10 { EndlessVarint(d, i + 1, n + 1); }
  }

  /** A length of 2^63 or more is negative. */
  lemma NegativeLength(d: Bytes, i: nat, v: nat, next: nat)
    requires Varint(d, i, 0) == Ok(Parsed(v, next)) && TWO_63 <= v < TWO_64
    ensures SpanAt(d, i) == Err(InvalidLength)
  {
    hide Varint;
    assert ToInt64(v) < 0;
  }
}
