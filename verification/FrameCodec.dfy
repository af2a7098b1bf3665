/** The encoders and decoders of the frames as step-by-step code: decoders advance an offset,
    encoders fill a buffer of known capacity. */
module FrameCodec {
  import opened Basics
  import opened Bytes
  import opened Frames

  // ---------- decoders ----------

  // What the next k bytes at an offset are, in terms of the rest of the data.
  lemma At(data: seq<byte>, offset: nat, k: nat)
    requires offset <= |data|
    ensures |data| < offset + k <==> |data[offset..]| < k
    ensures offset + k <= |data| ==>
      data[offset..][..k] == data[offset..offset + k] && data[offset..][k..] == data[offset + k..]
  {
  }

  lemma ValueFits(s: seq<byte>)
    ensures Value(s) < Pow256(|s|)
  {
    BigEndianOfValue(s);
  }

  // Uint16 length and the bytes after it: the code's four steps for a string field.
  method ReadStr16(data: seq<byte>, offset: nat) returns (ok: bool, s: seq<byte>, next: nat)
    requires offset <= |data|
    ensures ok <==> TakeStr16(data[offset..]).Some?
    ensures ok ==> next <= |data| && TakeStr16(data[offset..]).value == (s, data[next..])
  {
    At(data, offset, 2);
    if |data| < offset + 2 { return false, [], 0; }
    var n := Value(data[offset..offset + 2]);
    At(data, offset + 2, n);
    if |data| < offset + 2 + n { return false, [], 0; }
    return true, data[offset + 2..offset + 2 + n], offset + 2 + n;
  }

  method ReadUint64(data: seq<byte>, offset: nat) returns (ok: bool, v: uint64, next: nat)
    requires offset <= |data|
    ensures ok <==> TakeU64(data[offset..]).Some?
    ensures ok ==> next <= |data| && TakeU64(data[offset..]).value == (v, data[next..])
  {
    At(data, offset, 8);
    if |data| < offset + 8 { return false, 0, 0; }
    ValueFits(data[offset..offset + 8]);
    Widths();
    return true, Value(data[offset..offset + 8]), offset + 8;
  }

  method ReadUint32(data: seq<byte>, offset: nat) returns (ok: bool, v: uint32, next: nat)
    requires offset <= |data|
    ensures ok <==> TakeU32(data[offset..]).Some?
    ensures ok ==> next <= |data| && TakeU32(data[offset..]).value == (v, data[next..])
  {
    At(data, offset, 4);
    if |data| < offset + 4 { return false, 0, 0; }
    ValueFits(data[offset..offset + 4]);
    Widths();
    return true, Value(data[offset..offset + 4]), offset + 4;
  }

  method DecodeInitFrame(data: seq<byte>) returns (r: Option<Frame>)
    ensures r == if |data| < 1 || data[0] != 1 then None else Decode(data)
  {
    hide TakeStr16, TakeU32, TakeU64;
    if |data| < 1 || data[0] != 1 { return None; }
    var offset, ok := 1, false;
    var taskId, fileName, checksum;
    var size, chunkSize;
    ok, taskId, offset := ReadStr16(data, offset);
    if !ok { return None; }
    ok, fileName, offset := ReadStr16(data, offset);
    if !ok { return None; }
    ok, size, offset := ReadUint64(data, offset);
    if !ok { return None; }
    ok, checksum, offset := ReadStr16(data, offset);
    if !ok { return None; }
    ok, chunkSize, offset := ReadUint32(data, offset);
    if !ok { return None; }
    var options := [];
    if |data| > offset + 2 {
      var present, text, _ := ReadStr16(data, offset);
      if present { options := text; }
    }
    return Some(Init(taskId, fileName, Signed(size), checksum, chunkSize, options));
  }

  method DecodeDataFrame(data: seq<byte>) returns (r: Option<Frame>)
    requires |data| >= 1 && data[0] == 2
    ensures r == Decode(data)
  {
    hide TakeStr16, TakeU64;
    var offset, ok := 1, false;
    var taskId;
    var sequence, offsetVal;
    ok, taskId, offset := ReadStr16(data, offset);
    if !ok { return None; }
    ok, sequence, offset := ReadUint64(data, offset);
    if !ok { return None; }
    ok, offsetVal, offset := ReadUint64(data, offset);
    if !ok { return None; }
    At(data, offset, 4);
    if |data| < offset + 4 { return None; }
    var dataLen := Value(data[offset..offset + 4]);
    offset := offset + 4;
    At(data, offset, dataLen);
    if |data| < offset + dataLen { return None; }
    return Some(Data(taskId, sequence, Signed(offsetVal), data[offset..offset + dataLen]));
  }

  method DecodeAckFrame(data: seq<byte>) returns (r: Option<Frame>)
    requires |data| >= 1 && data[0] == 3
    ensures r == Decode(data)
  {
    hide TakeStr16, TakeU64;
    var offset, ok := 1, false;
    var taskId;
    var sequence, offsetVal, received;
    ok, taskId, offset := ReadStr16(data, offset);
    if !ok { return None; }
    ok, sequence, offset := ReadUint64(data, offset);
    if !ok { return None; }
    ok, offsetVal, offset := ReadUint64(data, offset);
    if !ok { return None; }
    ok, received, offset := ReadUint64(data, offset);
    if !ok { return None; }
    return Some(Ack(taskId, sequence, Signed(offsetVal), Signed(received)));
  }

  method DecodeCompleteFrame(data: seq<byte>) returns (r: Option<Frame>)
    requires |data| >= 1 && data[0] == 4
    ensures r == Decode(data)
  {
    hide TakeStr16;
    var offset, ok := 1, false;
    var taskId, checksum, status;
    ok, taskId, offset := ReadStr16(data, offset);
    if !ok { return None; }
    ok, checksum, offset := ReadStr16(data, offset);
    if !ok { return None; }
    ok, status, offset := ReadStr16(data, offset);
    if !ok { return None; }
    return Some(Complete(taskId, checksum, status));
  }

  method DecodeErrorFrame(data: seq<byte>) returns (r: Option<Frame>)
    requires |data| >= 1 && data[0] == 5
    ensures r == Decode(data)
  {
    hide TakeStr16, TakeU32;
    var offset, ok := 1, false;
    var taskId, message;
    var code;
    ok, taskId, offset := ReadStr16(data, offset);
    if !ok { return None; }
    ok, code, offset := ReadUint32(data, offset);
    if !ok { return None; }
    ok, message, offset := ReadStr16(data, offset);
    if !ok { return None; }
    return Some(Error(taskId, code, message));
  }

  method DecodeProgressFrame(data: seq<byte>) returns (r: Option<Frame>)
    requires |data| >= 1 && data[0] == 7
    ensures r == Decode(data)
  {
    hide TakeStr16, TakeU64;
    var offset, ok := 1, false;
    var taskId;
    var hundredths, transferred, total, speed;
    ok, taskId, offset := ReadStr16(data, offset);
    if !ok { return None; }
    ok, hundredths, offset := ReadUint64(data, offset);
    if !ok { return None; }
    ok, transferred, offset := ReadUint64(data, offset);
    if !ok { return None; }
    ok, total, offset := ReadUint64(data, offset);
    if !ok { return None; }
    ok, speed, offset := ReadUint64(data, offset);
    if !ok { return None; }
    return Some(Progress(taskId, hundredths, Signed(transferred), Signed(total), Signed(speed)));
  }

  /** FrameDecoder.Decode dispatches on the type byte; all six decoders agree with the parser Decode. */
  method DecodeFrame(data: seq<byte>) returns (r: Option<Frame>)
    ensures r == Decode(data)
  {
    if |data| < 1 { return None; }
    hide DecodeInit, DecodeData, DecodeAck, DecodeComplete, DecodeError, DecodeProgress;
    if data[0] == 1 { r := DecodeInitFrame(data); }
    else if data[0] == 2 { r := DecodeDataFrame(data); }
    else if data[0] == 3 { r := DecodeAckFrame(data); }
    else if data[0] == 4 { r := DecodeCompleteFrame(data); }
    else if data[0] == 5 { r := DecodeErrorFrame(data); }
    else if data[0] == 7 { r := DecodeProgressFrame(data); }
    else { return None; }
  }

  // ---------- the encoders as written ----------

  /** A Go byte slice of fixed capacity: `len` bytes are in use, the rest of the array is spare. */
  class Buffer {
    var bytes: array<byte>
    var len: nat

    ghost predicate Valid() reads this { len <= bytes.Length }
    ghost function Contents(): seq<byte> reads this, bytes requires Valid() { bytes[..len] }

    constructor (capacity: nat)
      ensures Valid() && fresh(bytes) && bytes.Length == capacity && Contents() == []
    {
      bytes := new byte[capacity];
      len := 0;
    }

    // append within the capacity
    method Append(s: seq<byte>)
      requires Valid() && len + |s| <= bytes.Length
      modifies this, bytes
      ensures Valid() && bytes == old(bytes) && Contents() == old(Contents()) + s
    {
      for i := 0 to |s|
        invariant len == old(len) && bytes == old(bytes)
        invariant bytes[..len] == old(bytes[..len]) && bytes[len..len + i] == s[..i]
      {
        bytes[len + i] := s[i];
      }
      len := len + |s|;
    }

    method Bytes() returns (s: seq<byte>)
      requires Valid()
      ensures s == Contents()
    {
      s := bytes[..len];
    }

    // PutUint writes into buf[len:len+k], spare bytes that stay outside the slice.
    method PutUint(field: seq<byte>)
      requires Valid() && len + |field| <= bytes.Length
      modifies bytes
      ensures Valid() && Contents() == old(Contents())
      ensures bytes[len..len + |field|] == field
    {
      for i := 0 to |field|
        invariant bytes[..len] == old(bytes[..len]) && bytes[len..len + i] == field[..i]
      {
        bytes[len + i] := field[i];
      }
    }
  }

  // What the encoders return: the type byte and the variable-length fields, without any number.
  function Literal(f: Frame): seq<byte>
  {
    var start := [Type(f)] + f.taskId;
    match f
    case Init(_, name, _, sum, _, options) => start + name + sum + options
    case Data(_, _, _, data) => start + data
    case Ack(_, _, _, _) => start
    case Complete(_, sum, status) => start + sum + status
    case Error(_, _, message) => start + message
    case Progress(_, _, _, _, _) => start
  }

  // The totalLen sums of the encoders.
  function TotalLen(f: Frame): nat
  {
    3 + |f.taskId| +
      match f
      case Init(_, name, _, sum, _, options) => 2 + |name| + 8 + 2 + |sum| + 4 + 2 + |options|
      case Data(_, _, _, data) => 8 + 8 + 4 + |data|
      case Ack(_, _, _, _) => 24
      case Complete(_, sum, status) => 2 + |sum| + 2 + |status|
      case Error(_, _, message) => 4 + 2 + |message|
      case Progress(_, _, _, _, _) => 32
  }

  method EncodeInit(f: Frame) returns (out: seq<byte>)
    requires f.Init?
    ensures out == Literal(f)
  {
    hide U16, U32, I64;
    var buf := new Buffer(TotalLen(f));
    buf.Append([1]);
    buf.PutUint(U16(|f.taskId|));
    buf.Append(f.taskId);
    assert buf.Contents() == [1] + f.taskId;
    buf.PutUint(U16(|f.fileName|));
    buf.Append(f.fileName);
    buf.PutUint(I64(f.fileSize));
    buf.PutUint(U16(|f.checksum|));
    buf.Append(f.checksum);
    buf.PutUint(U32(f.chunkSize));
    buf.PutUint(U16(|f.options|));
    buf.Append(f.options);
    out := buf.Bytes();
  }

  method EncodeData(f: Frame) returns (out: seq<byte>)
    requires f.Data?
    ensures out == Literal(f)
  {
    hide U16, U32, U64, I64;
    var buf := new Buffer(TotalLen(f));
    buf.Append([2]);
    buf.PutUint(U16(|f.taskId|));
    buf.Append(f.taskId);
    assert buf.Contents() == [2] + f.taskId;
    buf.PutUint(U64(f.sequence));
    buf.PutUint(I64(f.offset));
    buf.PutUint(U32(|f.data|));
    buf.Append(f.data);
    out := buf.Bytes();
  }

  method EncodeAck(f: Frame) returns (out: seq<byte>)
    requires f.Ack?
    ensures out == Literal(f)
  {
    var buf := new Buffer(TotalLen(f));
    buf.Append([3]);
    buf.PutUint(U16(|f.taskId|));
    buf.Append(f.taskId);
    buf.PutUint(U64(f.sequence));
    buf.PutUint(I64(f.offset));
    buf.PutUint(I64(f.received));
    out := buf.Bytes();
  }

  method EncodeComplete(f: Frame) returns (out: seq<byte>)
    requires f.Complete?
    ensures out == Literal(f)
  {
    hide U16;
    var buf := new Buffer(TotalLen(f));
    buf.Append([4]);
    buf.PutUint(U16(|f.taskId|));
    buf.Append(f.taskId);
    assert buf.Contents() == [4] + f.taskId;
    buf.PutUint(U16(|f.checksum|));
    buf.Append(f.checksum);
    assert buf.Contents() == [4] + f.taskId + f.checksum;
    buf.PutUint(U16(|f.status|));
    buf.Append(f.status);
    out := buf.Bytes();
  }

  method EncodeError(f: Frame) returns (out: seq<byte>)
    requires f.Error?
    ensures out == Literal(f)
  {
    hide U16, U32;
    var buf := new Buffer(TotalLen(f));
    buf.Append([5]);
    buf.PutUint(U16(|f.taskId|));
    buf.Append(f.taskId);
    assert buf.Contents() == [5] + f.taskId;
    buf.PutUint(U32(f.code));
    buf.PutUint(U16(|f.message|));
    buf.Append(f.message);
    out := buf.Bytes();
  }

  method EncodeProgress(f: Frame) returns (out: seq<byte>)
    requires f.Progress?
    ensures out == Literal(f)
  {
    var buf := new Buffer(TotalLen(f));
    buf.Append([7]);
    buf.PutUint(U16(|f.taskId|));
    buf.Append(f.taskId);
    buf.PutUint(U64(f.hundredths));
    buf.PutUint(I64(f.transferred));
    buf.PutUint(I64(f.total));
    buf.PutUint(I64(f.speed));
    out := buf.Bytes();
  }

  /** Encode as written: it never runs out of capacity, and it returns Literal, not Layout. */
  method Encode(f: Frame) returns (out: seq<byte>)
    ensures out == Literal(f)
  {
    match f {
      case Init(_, _, _, _, _, _) => out := EncodeInit(f);
      case Data(_, _, _, _) => out := EncodeData(f);
      case Ack(_, _, _, _) => out := EncodeAck(f);
      case Complete(_, _, _) => out := EncodeComplete(f);
      case Error(_, _, _) => out := EncodeError(f);
      case Progress(_, _, _, _, _) => out := EncodeProgress(f);
    }
  }

  // Behind some bytes, a number adds nothing and a text only itself.
  lemma {:induction false} PlainFrom(before: seq<byte>, pieces: seq<Piece>, i: nat)
    requires i < |pieces|
    ensures var p, after := pieces[i], Spelt(pieces[i + 1..], false);
      before + Spelt(pieces[i..], false)
        == (match p case Kind(k) => before + [k] case Number(_) => before case Text(_, text) => before + text) + after
  {
    SpeltFrom(pieces, i, false);
    hide Spelt;
    var p, after := pieces[i], Spelt(pieces[i + 1..], false);
    assert before + (PieceBytes(p, false) + after) == (before + PieceBytes(p, false)) + after;
  }

  lemma {:induction false} PlainStart(f: Frame)
    ensures Spelt(Format(f), false) == ([Type(f)] + f.taskId) + Spelt(Format(f)[2..], false)
  {
    SpeltEnds(Format(f), false);
    PlainFrom([], Format(f), 0);
    PlainFrom([Type(f)], Format(f), 1);
    hide U16, U32, U64, I64, Spelt;
  }

  lemma {:induction false} InitHasNoNumbers(f: Frame)
    requires f.Init?
    ensures Literal(f) == Spelt(Format(f), false)
  {
    var ps, s2 := Format(f), [Type(f)] + f.taskId;
    var s3 := s2 + f.fileName;
    var s4 := s3 + f.checksum;
    PlainStart(f);
    PlainFrom(s2, ps, 2);
    PlainFrom(s3, ps, 3);
    PlainFrom(s3, ps, 4);
    PlainFrom(s4, ps, 5);
    PlainFrom(s4, ps, 6);
    SpeltEnds(ps, false);
    hide U16, U32, U64, I64, Spelt, PieceBytes;
  }

  /** What the encoders return is the documented format with every number missing, the lengths included. */
  lemma {:induction false} LiteralHasNoNumbers(f: Frame)
    ensures Literal(f) == Spelt(Format(f), false)
  {
    var ps, start := Format(f), [Type(f)] + f.taskId;
    PlainStart(f);
    SpeltEnds(ps, false);
    hide U16, U32, U64, I64, Spelt, PieceBytes;
    match f
    case Init(_, _, _, _, _, _) => InitHasNoNumbers(f);
    case Data(_, _, _, _) => PlainFrom(start, ps, 2); PlainFrom(start, ps, 3); PlainFrom(start, ps, 4);
    case Ack(_, _, _, _) => PlainFrom(start, ps, 2); PlainFrom(start, ps, 3); PlainFrom(start, ps, 4);
    case Complete(_, sum, _) => PlainFrom(start, ps, 2); PlainFrom(start + sum, ps, 3);
    case Error(_, _, _) => PlainFrom(start, ps, 2); PlainFrom(start, ps, 3);
    case Progress(_, _, _, _, _) =>
      PlainFrom(start, ps, 2); PlainFrom(start, ps, 3); PlainFrom(start, ps, 4); PlainFrom(start, ps, 5);
  }

  /** The capacity is that of the documented layout. */
  lemma LayoutLength(f: Frame)
    ensures |Layout(f)| == TotalLen(f)
  {
  }

  /** Data that decodes to a frame is at least as long as its layout, but for an init frame's empty options. */
  lemma {:induction false} DecodedLength(data: seq<byte>)
    requires Decode(data).Some?
    ensures var f := Decode(data).value;
      |data| >= TotalLen(f) - (if f.Init? && f.options == [] then 2 else 0)
  {
    hide Print, DecodeInit, DecodeStrict, TotalLen, TakeOptions;
    if data[0] == 1 {
      InitAccepted(data[1..]);
      var f := Decode(data).value;
      var rest :| [1 as byte] + data[1..] == InitHead(f, rest) && f.options == TakeOptions(rest);
      OptionsFit(rest);
      InitHeadLength(f, rest);
    } else {
      AcceptedIsEncoded(data);
      LayoutLength(Decode(data).value);
    }
  }

  lemma InitHeadLength(f: Frame, rest: seq<byte>)
    requires f.Init?
    ensures |InitHead(f, rest)| == TotalLen(f) - 2 - |f.options| + |rest|
  {
  }

  /** No frame of any kind survives the encoders as written: their output never decodes to the frame. */
  lemma {:induction false} LiteralNeverDecodes(f: Frame)
    ensures Decode(Literal(f)) != Some(f)
  {
    hide Decode;
    if Decode(Literal(f)) == Some(f) {
      DecodedLength(Literal(f));
      assert false;
    }
  }
}
