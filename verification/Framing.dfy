/** Messages on a byte stream: four bytes of length, least significant first, and then the message.
    Source: internal/message/message.go. */
module Framing {
  import opened Messages
  import opened Varints
  import opened Codec
  import opened CodecLaws
  import opened Truncation
  import opened Marshalling
  import opened Unmarshalling

  function LittleEndian(n: nat): (b: Bytes)
    requires n < TWO_32
    ensures |b| == 4
  {
    [(n % 256) as byte, (n / 0x100 % 256) as byte, (n / 0x1_0000 % 256) as byte, (n / 0x100_0000) as byte]
  }

  function FromLittleEndian(b: Bytes): (n: nat)
    requires |b| == 4
    ensures n < TWO_32
  {
    b[0] as nat + 0x100 * b[1] as nat + 0x1_0000 * b[2] as nat + 0x100_0000 * b[3] as nat
  }

  /** The length is cut to 32 bits. */
  function Frame(data: Bytes): Bytes {
    LittleEndian(|data| % TWO_32) + data
  }

  function Frames(ds: seq<Bytes>): Bytes {
    if |ds| == 0 then [] else Frame(ds[0]) + Frames(ds[1..])
  }

  /** What BufRead ends with. Incomplete: the stream ended within the length. Overrun: the buffer is
      too small, and slicing it panics. */
  datatype Read = Incomplete(n: nat) | Overrun | Data(n: nat)

  /** A reader or writer of a connection. */
  class Stream {
    var buf: Bytes

    constructor ()
      ensures buf == []
    {
      buf := [];
    }

    method Write(data: Bytes)
      modifies this
      ensures buf == old(buf) + data
    {
      buf := buf + data;
    }

    /** io.ReadFull, up to the end of the stream. */
    method ReadFull(n: nat) returns (data: Bytes)
      modifies this
      ensures data == old(buf)[..Least(n, |old(buf)|)] && buf == old(buf)[|data|..]
    {
      var k := if n < |buf| then n else |buf|;
      data, buf := buf[..k], buf[k..];
    }
  }

  function Least(a: nat, b: nat): nat {
    if a < b then a else b
  }

  method BufWrite(writer: Stream, data: Bytes)
    modifies writer
    ensures writer.buf == old(writer.buf) + Frame(data)
  {
    writer.Write(LittleEndian(|data| % TWO_32));
    writer.Write(data);
  }

  /** What BufRead takes from a stream into a buffer of some size. If the stream ends within the
      data, the part that came is taken, and no error is reported. */
  function ReadOf(stream: Bytes, size: nat): (Read, Bytes) {
    if |stream| < 4 then (Incomplete(|stream|), [])
    else
      var n := FromLittleEndian(stream[..4]);
      if n > size then (Overrun, stream[4..])
      else (Data(Least(n, |stream| - 4)), stream[4 + Least(n, |stream| - 4)..])
  }

  method BufRead(reader: Stream, data: array<byte>) returns (r: Read)
    modifies reader, data
    ensures (r, reader.buf) == ReadOf(old(reader.buf), data.Length)
    ensures r.Data? ==> r.n <= data.Length && data[..r.n] == old(reader.buf)[4..4 + r.n]
    ensures r.Data? ==> data[r.n..] == old(data[r.n..])
    ensures !r.Data? ==> data[..] == old(data[..])
  {
    ghost var stream := reader.buf;
    var lenBuf := reader.ReadFull(4);
    if |lenBuf| != 4 {
      return Incomplete(|lenBuf|);
    }
    assert lenBuf == stream[..4];
    var n2 := FromLittleEndian(lenBuf);
    if n2 > data.Length {
      return Overrun;
    }
    var got := reader.ReadFull(n2);
    assert got == stream[4..4 + |got|];
    for k := 0 to |got|
      invariant reader.buf == stream[4 + |got|..]
      invariant data[..k] == got[..k] && data[k..] == old(data[k..])
    {
      data[k] := got[k];
      assert data[..k + 1] == got[..k] + [got[k]];
      assert data[k + 1..] == old(data[k + 1..]);
    }
    return Data(|got|);
  }

  // ---------------------------------------------------------------- laws

  lemma LittleEndianRoundTrip(n: nat)
    requires n < TWO_32
    ensures FromLittleEndian(LittleEndian(n)) == n
  {
    var q1, q2, q3 := n / 0x100, n / 0x1_0000, n / 0x100_0000;
    assert n == n % 256 + 256 * q1;
    assert q1 / 256 == q2 && q1 == q1 % 256 + 256 * q2;
    assert q2 / 256 == q3 && q2 == q2 % 256 + 256 * q3;
  }

  /** A frame is the length in four bytes, the least significant one first, and the data. */
  lemma FrameBytes(data: Bytes)
    requires |data| < TWO_32
    ensures var f := Frame(data);
      && |f| == 4 + |data| && f[4..] == data
      && f[0] as nat == |data| % 256 && f[1] as nat == |data| / 256 % 256
      && f[2] as nat == |data| / 65536 % 256 && f[3] as nat == |data| / 16777216
  {
  }

  /** A frame is read back, with the rest of the stream left, if and only if its length fits in 32
      bits and in the buffer; a longer one desynchronizes the stream. It is an overrun if and only if
      what 32 bits hold of its length does not fit in the buffer. */
  lemma FrameRoundTrip(data: Bytes, rest: Bytes, size: nat)
    ensures ReadOf(Frame(data) + rest, size) == (Data(|data|), rest) <==> |data| < TWO_32 && |data| <= size
    ensures ReadOf(Frame(data) + rest, size).0.Overrun? <==> |data| % TWO_32 > size
    ensures |data| < TWO_32 ==> (Frame(data) + rest)[4..4 + |data|] == data
  {
    var stream := Frame(data) + rest;
    LittleEndianRoundTrip(|data| % TWO_32);
    assert stream[..4] == LittleEndian(|data| % TWO_32);
    if |data| < TWO_32 {
      assert stream[4 + |data|..] == rest;
    }
  }

  /** The messages that a reader with a buffer of some size takes from a stream, until the stream
      ends, a message does not parse, or the buffer is too small, on which it panics. */
  function ReadMsgs(stream: Bytes, size: nat): seq<Msg>
    requires size < TWO_63
    decreases |stream|
  {
    var (r, rest) := ReadOf(stream, size);
    if !r.Data? then []
    else
      match Parse(stream[4..4 + r.n], 0, OfMsg(EMPTY_MSG))
      case Err(_) => []
      case Ok(x) => [x.m] + ReadMsgs(rest, size)
  }

  function EncodeAll(ms: seq<Msg>): (ds: seq<Bytes>)
    ensures |ds| == |ms| && forall i :: 0 <= i < |ms| ==> ds[i] == EncodeMsg(ms[i])
  {
    seq(|ms|, i requires 0 <= i < |ms| => EncodeMsg(ms[i]))
  }

  /** A message fits in the buffer of a reader, and its length in 32 bits. */
  predicate Fits(m: Msg, size: nat) {
    |EncodeMsg(m)| <= size && |EncodeMsg(m)| < TWO_32
  }

  /** Whatever sequence of messages is written to a connection is the sequence that is read from it,
      if they fit. */
  lemma {:induction false} StreamRoundTrip(ms: seq<Msg>, size: nat)
    requires size < TWO_63
    requires forall i :: 0 <= i < |ms| ==> Fits(ms[i], size)
    ensures ReadMsgs(Frames(EncodeAll(ms)), size) == ms
    decreases |ms|
  {
    hide EncodeMsg, Parse, Frame, FromLittleEndian;
    if |ms| > 0 {
      var d, ds := EncodeMsg(ms[0]), EncodeAll(ms[1..]);
      assert EncodeAll(ms)[1..] == ds;
      FrameRoundTrip(d, Frames(ds), size);
      MsgRoundTrip(ms[0]);
      StreamRoundTrip(ms[1..], size);
      assert [ms[0]] + ms[1..] == ms;
    }
  }

  /** Reading goes on after the messages that came whole. */
  lemma {:induction false} ReadOn(ms: seq<Msg>, rest: Bytes, size: nat)
    requires size < TWO_63
    requires forall i :: 0 <= i < |ms| ==> Fits(ms[i], size)
    ensures ReadMsgs(Frames(EncodeAll(ms)) + rest, size) == ms + ReadMsgs(rest, size)
    decreases |ms|
  {
    hide EncodeMsg, Parse, Frame, FromLittleEndian;
    if |ms| == 0 {
      assert Frames(EncodeAll(ms)) + rest == rest;
    } else {
      var d, ds := EncodeMsg(ms[0]), EncodeAll(ms[1..]);
      assert EncodeAll(ms)[1..] == ds;
      assert Frames(EncodeAll(ms)) + rest == Frame(d) + (Frames(ds) + rest);
      FrameRoundTrip(d, Frames(ds) + rest, size);
      MsgRoundTrip(ms[0]);
      ReadOn(ms[1..], rest, size);
      assert [ms[0]] + (ms[1..] + ReadMsgs(rest, size)) == ms + ReadMsgs(rest, size);
    }
  }

  /** What a connection carries that breaks after k bytes of the frame of m. */
  function CutAfter(ms: seq<Msg>, m: Msg, k: nat): Bytes
    requires k <= |Frame(EncodeMsg(m))|
  {
    Frames(EncodeAll(ms)) + Frame(EncodeMsg(m))[..k]
  }

  /** It delivers the messages before m, and one more message if and only if the break is right after
      the length, or after the printed type, phase or value: a message of the fields that came,
      without an object. */
  lemma CutStream(ms: seq<Msg>, m: Msg, k: nat, size: nat)
    requires size < TWO_63 && Fits(m, size) && k < |Frame(EncodeMsg(m))|
    requires forall i :: 0 <= i < |ms| ==> Fits(ms[i], size)
    ensures ReadMsgs(CutAfter(ms, m, k), size)
         == if k >= 4 && AtBoundary(m, k - 4) then ms + [Upto(m, k - 4)] else ms
  {
    hide EncodeMsg, Frame, Frames, EncodeAll, ReadMsgs, AtBoundary, Upto;
    ReadOn(ms, Frame(EncodeMsg(m))[..k], size);
    CutFrame(m, k, size);
    assert ms + [] == ms;
  }

  lemma CutFrame(m: Msg, k: nat, size: nat)
    requires size < TWO_63 && Fits(m, size) && k < |Frame(EncodeMsg(m))|
    ensures ReadMsgs(Frame(EncodeMsg(m))[..k], size)
         == if k >= 4 && AtBoundary(m, k - 4) then [Upto(m, k - 4)] else []
  {
    hide EncodeMsg, Parse, LittleEndian, FromLittleEndian, AtBoundary, Upto;
    if k >= 4 {
      MsgCut(m, k - 4);
      ReadCut(EncodeMsg(m), k, size);
      assert ReadMsgs([], size) == [];
    }
  }

  lemma ReadCut(data: Bytes, k: nat, size: nat)
    requires |data| <= size && |data| < TWO_32 && 4 <= k < |Frame(data)|
    ensures var part := Frame(data)[..k]; ReadOf(part, size) == (Data(k - 4), []) && part[4..k] == data[..k - 4]
  {
    hide LittleEndian, FromLittleEndian;
    var part := Frame(data)[..k];
    LittleEndianRoundTrip(|data|);
    assert part == LittleEndian(|data|) + data[..k - 4];
    assert part[..4] == LittleEndian(|data|) && part[4..k] == data[..k - 4] && part[k..] == [];
  }

  /** MarshalWriteFlush of a Msg. */
  method MarshalWriteFlush(r: Msg, writer: Stream)
    requires |EncodeMsg(r)| < TWO_63
    modifies writer
    ensures writer.buf == old(writer.buf) + Frame(EncodeMsg(r))
  {
    hide EncodeMsg, Frame;
    var data := Marshal(r);
    BufWrite(writer, data[..]);
  }

  function FirstMsg(stream: Bytes, size: nat): Option<Msg>
    requires size < TWO_63
  {
    var ms := ReadMsgs(stream, size);
    if |ms| == 0 then None else Some(ms[0])
  }

  /** ReadUnmarshal into a new Msg; None: an error. Not ok: the message is too long for the buffer,
      and the reader panics. */
  method ReadUnmarshal(reader: Stream, readBuf: array<byte>) returns (m: Option<Msg>, ok: bool)
    requires readBuf.Length < TWO_63
    modifies reader, readBuf
    ensures reader.buf == ReadOf(old(reader.buf), readBuf.Length).1
    ensures ok <==> !ReadOf(old(reader.buf), readBuf.Length).0.Overrun?
    ensures m == FirstMsg(old(reader.buf), readBuf.Length)
  {
    hide Parse;
    ghost var stream := reader.buf;
    var r := BufRead(reader, readBuf);
    if !r.Data? {
      return None, r.Incomplete?;
    }
    var x := UnmarshalMsg(readBuf[..r.n], EMPTY_MSG);
    return if x.Ok? then Some(x.value) else None, true;
  }
}
