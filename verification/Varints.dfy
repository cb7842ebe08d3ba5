/** Base 128 varints of the Protocol Buffers encoding: the printer, its size, and the parser.
    The source's shifts and masks on machine words are written as arithmetic: b & 0x7F is b % 128,
    and or-ing in bits that are still zero is addition.
    Source: internal/message/message.pb.go. */
module Varints {
  import opened Messages

  const TWO_32 := 0x1_0000_0000
  const TWO_63 := 0x8000_0000_0000_0000
  const TWO_64 := 0x1_0000_0000_0000_0000

  type uint64 = x: int | 0 <= x < TWO_64

  datatype Error =
    | IntOverflow
    | UnexpectedEOF
    | InvalidLength
    | EndGroup
    | IllegalTag
    | WrongWireType
    | UnexpectedEndOfGroup
    | IllegalWireType

  datatype Result<+T> = Ok(value: T) | Err(error: Error)

  /** Something parsed, and the index after it. */
  datatype Parsed<+T> = Parsed(v: T, next: nat)

  // ---------------------------------------------------------------- printing

  function Put(v: nat): (r: Bytes)
    ensures |r| > 0
  {
    if v < 128 then [v as byte] else [(128 + v % 128) as byte] + Put(v / 128)
  }

  /** The position of the highest bit that is set. */
  function Len64(v: nat): nat {
    if v == 0 then 0 else 1 + Len64(v / 2)
  }

  /** x | 1 */
  function Or1(x: nat): nat {
    x + 1 - x % 2
  }

  function Sov(x: nat): nat {
    (Len64(Or1(x)) + 6) / 7
  }

  lemma Len64Of128(v: nat)
    requires v >= 128
    ensures Len64(v) == 7 + Len64(v / 128)
  {
    var v1 := v / 2;
    var v2 := v1 / 2;
    var v3 := v2 / 2;
    var v4 := v3 / 2;
    var v5 := v4 / 2;
    var v6 := v5 / 2;
    assert v6 / 2 == v / 128;
    assert Len64(v) == 1 + Len64(v1) == 2 + Len64(v2) == 3 + Len64(v3);
    assert Len64(v3) == 1 + Len64(v4) == 2 + Len64(v5) == 3 + Len64(v6) == 4 + Len64(v / 128);
  }

  function Two(n: nat): nat {
    if n == 0 then 1 else 2 * Two(n - 1)
  }

  lemma {:induction false} Len64Upper(v: nat, n: nat)
    requires v < Two(n)
    ensures Len64(v) <= n
  {
    if v > 0 { Len64Upper(v / 2, n - 1); }
  }

  lemma Len64Bound(v: nat)
    ensures 1 <= v < 128 ==> 1 <= Len64(v) <= 7
  {
    assert Two(3) == 8 && Two(5) == 32 && Two(7) == 128;
    if v < 128 { Len64Upper(v, 7); }
  }

  lemma Len64Or1(v: nat)
    ensures Len64(Or1(v)) == if v == 0 then 1 else Len64(v)
  {
    assert Or1(v) / 2 == v / 2;
  }

  /** The size formula gives the number of bytes printed. */
  lemma {:induction false} SovIsSize(v: nat)
    ensures Sov(v) == |Put(v)|
  {
    Len64Or1(v);
    if v < 128 {
      Len64Bound(v);
    } else {
      SovIsSize(v / 128);
      Len64Or1(v / 128);
      Len64Of128(v);
    }
  }

  /** At most 10 bytes for 64 bits, at most 5 for 32. */
  lemma {:induction false} PutSize(v: nat, n: nat)
    requires v < Pow128(n) && n > 0
    ensures |Put(v)| <= n
  {
    if v >= 128 {
      assert n > 1 by { assert Pow128(1) == 128 * Pow128(0); }
      PutSize(v / 128, n - 1);
    }
  }

  function Pow128(n: nat): (r: nat)
    ensures r > 0
  {
    if n == 0 then 1 else 128 * Pow128(n - 1)
  }

  lemma Pow128Values()
    ensures Pow128(5) == 0x8_0000_0000 && Pow128(9) == TWO_63 && Pow128(10) == 128 * TWO_63
  {
    assert Pow128(2) == 0x4000;
    assert Pow128(4) == 0x1000_0000;
    assert Pow128(6) == 0x400_0000_0000;
    assert Pow128(8) == 0x100_0000_0000_0000;
  }

  /** Writes a varint that ends just before offset; returns where it starts. */
  method EncodeVarint(dAtA: array<byte>, offset: nat, v: uint64) returns (base: nat)
    requires |Put(v)| <= offset <= dAtA.Length
    modifies dAtA
    ensures base == offset - |Put(v)|
    ensures dAtA[..] == Overwritten(old(dAtA[..]), base, Put(v))
  {
    hide Put, Overwritten, Sov;
    SovIsSize(v);
    base := offset - Sov(v);
    var o: nat, w: nat := base, v;
    ghost var was: Bytes, done: Bytes := dAtA[..], [];
    OverwriteNothing(was, base);
    assert done + Put(w) == Put(w);
    while w >= 128
      invariant o == base + |done| && o + |Put(w)| == offset
      invariant Put(v) == done + Put(w)
      invariant dAtA[..] == Overwritten(was, base, done)
    {
      PutOnce(w);
      var b := (128 + w % 128) as byte;
      OverwriteNext(was, base, done, b);
      dAtA[o] := b;
      done := done + [b];
      w := w / 128;
      o := o + 1;
    }
    PutOnce(w);
    OverwriteNext(was, base, done, w as byte);
    dAtA[o] := w as byte;
  }

  lemma PutOnce(w: nat)
    ensures Put(w) == if w < 128 then [w as byte] else [(128 + w % 128) as byte] + Put(w / 128)
  {
  }

  /** A buffer with some bytes written over from an index on. */
  function Overwritten(was: Bytes, base: nat, bytes: Bytes): Bytes
    requires base + |bytes| <= |was|
  {
    was[..base] + bytes + was[base + |bytes|..]
  }

  lemma OverwriteNothing(was: Bytes, base: nat)
    requires base <= |was|
    ensures Overwritten(was, base, []) == was
  {
  }

  lemma OverwriteNext(was: Bytes, base: nat, bytes: Bytes, x: byte)
    requires base + |bytes| < |was|
    ensures Overwritten(was, base, bytes)[base + |bytes| := x] == Overwritten(was, base, bytes + [x])
  {
  }

  // ---------------------------------------------------------------- parsing

  /** The varint at index i of d, of which n bytes were read before. Ten bytes is the limit. */
  function Varint(d: Bytes, i: nat, n: nat): (r: Result<Parsed<nat>>)
    requires n <= 10
    ensures r.Ok? ==> i < r.value.next <= |d| && r.value.next <= i + 10 - n
    decreases 10 - n
  {
    if n == 10 then Err(IntOverflow)
    else if i >= |d| then Err(UnexpectedEOF)
    else if d[i] < 128 then Ok(Parsed(d[i] as nat, i + 1))
    else
      match Varint(d, i + 1, n + 1)
      case Err(e) => Err(e)
      case Ok(p) => Ok(Parsed(d[i] as nat - 128 + 128 * p.v, p.next))
  }

  /** whole, seen after some bytes: they add up to sum, and rest is parsed at the place value. */
  predicate Continues(whole: Result<Parsed<nat>>, rest: Result<Parsed<nat>>, sum: nat, place: nat) {
    match rest
    case Err(e) => whole == Err(e)
    case Ok(p) => whole == Ok(Parsed(sum + Times(place, p.v), p.next))
  }

  function Times(place: nat, x: nat): nat {
    place * x
  }

  lemma TimesSplit(place: nat, x: nat, y: nat)
    ensures Times(place, x + 128 * y) == Times(place, x) + Times(place * 128, y)
  {
  }

  lemma ContinuesStep(whole: Result<Parsed<nat>>, d: Bytes, i: nat, n: nat, sum: nat, place: nat)
    requires n < 10 && i < |d| && Continues(whole, Varint(d, i, n), sum, place)
    ensures if d[i] < 128 then whole == Ok(Parsed(sum + Times(place, d[i] as nat), i + 1))
            else Continues(whole, Varint(d, i + 1, n + 1), sum + Times(place, d[i] as nat - 128), place * 128)
  {
    hide Times;
    if d[i] >= 128 && Varint(d, i + 1, n + 1).Ok? {
      TimesSplit(place, d[i] as nat - 128, Varint(d, i + 1, n + 1).value.v);
    }
  }

  lemma ContinuesEnd(whole: Result<Parsed<nat>>, d: Bytes, i: nat, n: nat, sum: nat, place: nat)
    requires n <= 10 && Continues(whole, Varint(d, i, n), sum, place)
    ensures n == 10 ==> whole == Err(IntOverflow)
    ensures n < 10 && i >= |d| ==> whole == Err(UnexpectedEOF)
  {
  }

  lemma ContinuesStart(d: Bytes, i: nat)
    ensures Continues(Varint(d, i, 0), Varint(d, i, 0), 0, 1)
  {
    hide Varint;
  }

  lemma AddModulo(sum: nat, x: nat, width: nat)
    requires width == TWO_32 || width == TWO_64
    ensures (sum % width + x) % width == (sum + x) % width
  {
  }

  /** The loop that reads a varint into a variable of some width: the bits above the width are
      lost. place is 1 << shift. */
  method ReadVarint(dAtA: Bytes, start: nat, width: nat) returns (r: Result<Parsed<nat>>)
    requires width == TWO_32 || width == TWO_64
    ensures match Varint(dAtA, start, 0)
      case Err(e) => r == Err(e)
      case Ok(p) => r == Ok(Parsed(p.v % width, p.next))
  {
    hide Continues, Varint, Times;
    var iNdEx: nat, v: nat := start, 0;
    var shift: nat, place: nat := 0, 1;
    ghost var n: nat, sum: nat := 0, 0;
    ghost var whole := Varint(dAtA, start, 0);
    ContinuesStart(dAtA, start);
    while true
      invariant shift == 7 * n && n <= 10
      invariant v == sum % width
      invariant Continues(whole, Varint(dAtA, iNdEx, n), sum, place)
      decreases 10 - n
    {
      ContinuesEnd(whole, dAtA, iNdEx, n, sum, place);
      if shift >= 64 {
        return Err(IntOverflow);
      }
      if iNdEx >= |dAtA| {
        return Err(UnexpectedEOF);
      }
      var b := dAtA[iNdEx] as nat;
      ContinuesStep(whole, dAtA, iNdEx, n, sum, place);
      iNdEx := iNdEx + 1;
      var bits := Times(place, b % 128);
      assert b % 128 == if b < 128 then b else b - 128;
      AddModulo(sum, bits, width);
      v := (v + bits) % width;
      sum := sum + bits;
      if b < 0x80 {
        break;
      }
      shift, place := shift + 7, place * 128;
      n := n + 1;
    }
    return Ok(Parsed(v, iNdEx));
  }

  // ---------------------------------------------------------------- laws

  /** Every number below 2^70 that is printed is parsed back, whatever comes before and after. */
  lemma {:induction false} VarintRoundTrip(pre: Bytes, v: nat, post: Bytes, n: nat)
    requires n < 10 && v < Pow128(10 - n)
    ensures Varint(pre + Put(v) + post, |pre|, n) == Ok(Parsed(v, |pre| + |Put(v)|))
    decreases 10 - n
  {
    var d := pre + Put(v) + post;
    assert d[|pre|] == Put(v)[0];
    assert Pow128(10 - n) == 128 * Pow128(9 - n);
    if v >= 128 {
      var pre' := pre + [(128 + v % 128) as byte];
      assert d == pre' + Put(v / 128) + post;
      VarintRoundTrip(pre', v / 128, post, n + 1);
    }
  }

  /** Bytes after a varint do not matter. */
  lemma {:induction false} VarintLocal(d: Bytes, e: Bytes, i: nat, n: nat)
    requires n <= 10 && Varint(d, i, n).Ok?
    ensures Varint(d + e, i, n) == Varint(d, i, n)
    decreases 10 - n
  {
    assert (d + e)[i] == d[i];
    if d[i] >= 128 { VarintLocal(d, e, i + 1, n + 1); }
  }

  /** Nor do bytes before it. */
  lemma {:induction false} VarintShift(p: Bytes, d: Bytes, i: nat, n: nat)
    requires n <= 10
    ensures match Varint(d, i, n)
      case Err(e) => Varint(p + d, |p| + i, n) == Err(e)
      case Ok(r) => Varint(p + d, |p| + i, n) == Ok(Parsed(r.v, |p| + r.next))
    decreases 10 - n
  {
    if n < 10 && i < |d| {
      assert (p + d)[|p| + i] == d[i];
      VarintShift(p, d, i + 1, n + 1);
    }
  }
}
