/** Length-prefixed framing: FrameWriter and FrameReader over one byte stream. */
module FrameStream {
  import opened Basics
  import opened Bytes
  import opened Frames
  import opened FrameCodec

  // A message on the stream: its 32-bit length, then its bytes.
  function Framed(data: seq<byte>): seq<byte> { Blob32(data) }

  // ReadFrame: io.ReadFull of the length, io.ReadFull of the frame, then decoding.
  datatype ReadResult = Eof | Bad | Got(frame: Frame)

  function Read(stream: seq<byte>): (ReadResult, seq<byte>)
  {
    if |stream| < 4 then (Eof, [])
    else
      var n, rest := Value(stream[..4]), stream[4..];
      if |rest| < n then (Eof, [])
      else match Decode(rest[..n])
        case Some(f) => (Got(f), rest[n..])
        case None => (Bad, rest[n..])
  }

  class FrameWriter {
    var stream: seq<byte>

    constructor () ensures stream == [] { stream := []; }

    /** WriteFrame with whatever bytes the frame's Encode returned. */
    method WriteFrame(data: seq<byte>)
      modifies this
      ensures stream == old(stream) + Framed(data)
    {
      var lenBuf := U32(|data|);
      stream := stream + lenBuf;
      stream := stream + data;
      assert stream == old(stream) + (lenBuf + data);
    }
  }

  class FrameReader {
    var stream: seq<byte>

    constructor (stream: seq<byte>) ensures this.stream == stream { this.stream := stream; }

    // io.ReadFull: all n bytes, or an error with whatever was left consumed.
    method ReadFull(n: nat) returns (ok: bool, s: seq<byte>)
      modifies this
      ensures ok <==> |old(stream)| >= n
      ensures if ok then s == old(stream)[..n] && stream == old(stream)[n..] else stream == []
    {
      ok := |stream| >= n;
      if ok { s, stream := stream[..n], stream[n..]; } else { s, stream := [], []; }
    }

    method ReadFrame() returns (r: ReadResult)
      modifies this
      ensures (r, stream) == Read(old(stream))
      ensures |old(stream)| < 4 || |old(stream)| - 4 < Value(old(stream)[..4]) <==> r == Eof
      ensures r == Eof ==> stream == []
      ensures r != Eof ==>
        var n := Value(old(stream)[..4]);
        && (Decode(old(stream)[4..][..n]) == if r.Got? then Some(r.frame) else None)
        && stream == old(stream)[4..][n..]
    {
      var ok, lenBuf := ReadFull(4);
      if !ok { return Eof; }
      var data;
      ok, data := ReadFull(Value(lenBuf));
      if !ok { return Eof; }
      var decoded := DecodeFrame(data);
      match decoded {
        case Some(f) => return Got(f);
        case None => return Bad;
      }
    }
  }

  // ---------- streams of laid-out frames ----------

  // A frame the stream can carry: its fields fit, and so does its length.
  predicate Sendable(f: Frame) { Fits(f) && |Layout(f)| < 0x1_0000_0000 }

  function Written(fs: seq<Frame>): seq<byte> { if fs == [] then [] else Framed(Layout(fs[0])) + Written(fs[1..]) }

  // Reads n frames; None if one of them is not there or is bad.
  function ReadMany(n: nat, stream: seq<byte>): Option<(seq<Frame>, seq<byte>)>
  {
    if n == 0 then Some(([], stream))
    else match Read(stream)
      case (Got(f), rest) =>
        var (fs, end) :- ReadMany(n - 1, rest);
        Some(([f] + fs, end))
      case _ => None
  }

  lemma {:induction false} ReadFramed(data: seq<byte>, rest: seq<byte>)
    requires |data| < 0x1_0000_0000
    ensures Read(Framed(data) + rest) == (match Decode(data) case Some(f) => Got(f) case None => Bad, rest)
  {
    hide Decode;
    Widths();
    var stream := Framed(data) + rest;
    ValueOfBigEndian(|data|, 4);
    assert stream[..4] == BigEndian(|data|, 4);
    assert stream[4..] == data + rest;
    assert (data + rest)[..|data|] == data && (data + rest)[|data|..] == rest;
  }

  /** A message that is cut short anywhere, even within its length, is reported as the end of the stream. */
  lemma {:induction false} CutShortIsEof(data: seq<byte>, n: nat)
    requires |data| < 0x1_0000_0000 && n < |Framed(data)|
    ensures Read(Framed(data)[..n]) == (Eof, [])
  {
    hide Decode;
    Widths();
    ValueOfBigEndian(|data|, 4);
    if n >= 4 { assert Framed(data)[..n][..4] == BigEndian(|data|, 4); }
  }

  /** Any sequence of frames written in the documented layout is read back as it was, and the bytes
      after it are left untouched. */
  lemma {:induction false} StreamRoundTrip(fs: seq<Frame>, tail: seq<byte>)
    requires forall f <- fs :: Sendable(f)
    ensures ReadMany(|fs|, Written(fs) + tail) == Some((fs, tail))
  {
    hide Decode, Read, Fits, Layout;
    if fs == [] {
      assert Written(fs) + tail == tail;
    } else {
      var rest := Written(fs[1..]) + tail;
      assert Written(fs) + tail == Framed(Layout(fs[0])) + rest;
      assert Sendable(fs[0]);
      ReadFramed(Layout(fs[0]), rest);
      LayoutDecodes(fs[0]);
      StreamRoundTrip(fs[1..], tail);
      assert fs == [fs[0]] + fs[1..];
    }
  }

  lemma LayoutDecodes(f: Frame)
    requires Fits(f)
    ensures Decode(Layout(f)) == Some(f)
  {
    RoundTrip(f, []);
  }

  /** So a byte stream is the writing of at most one sequence of frames. */
  lemma {:induction false} StreamParsesUniquely(fs: seq<Frame>, gs: seq<Frame>)
    requires forall f <- fs :: Sendable(f)
    requires forall g <- gs :: Sendable(g)
    requires Written(fs) == Written(gs)
    ensures fs == gs
  {
    hide Decode, Read, Fits, Layout;
    if fs == [] || gs == [] {
    } else {
      assert Sendable(fs[0]) && Sendable(gs[0]);
      ReadFramed(Layout(fs[0]), Written(fs[1..]));
      ReadFramed(Layout(gs[0]), Written(gs[1..]));
      LayoutDecodes(fs[0]);
      LayoutDecodes(gs[0]);
      StreamParsesUniquely(fs[1..], gs[1..]);
      assert fs == [fs[0]] + fs[1..] && gs == [gs[0]] + gs[1..];
    }
  }

  /** With the encoders as written, the reader never gets back the frame the writer was given. */
  lemma {:induction false} LiteralStreamNeverRoundTrips(f: Frame, rest: seq<byte>)
    requires |Literal(f)| < 0x1_0000_0000
    ensures Read(Framed(Literal(f)) + rest).0 != Got(f)
  {
    hide Decode, Read, Literal;
    ReadFramed(Literal(f), rest);
    LiteralNeverDecodes(f);
  }
}
