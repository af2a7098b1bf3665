/** The file-transfer frames: the documented layout, the decoders, and the encoders as they are
    written, which store the fixed-width fields where the next append overwrites them. */
module Frames {
  import opened Basics
  import opened Bytes

  /** A frame; strings are byte strings, `options` the JSON text of the transfer options, and
      progress is counted in hundredths of a percent. */
  datatype Frame =
    | Init(taskId: seq<byte>, fileName: seq<byte>, fileSize: int64, checksum: seq<byte>, chunkSize: uint32,
           options: seq<byte>)
    | Data(taskId: seq<byte>, sequence: uint64, offset: int64, data: seq<byte>)
    | Ack(taskId: seq<byte>, sequence: uint64, offset: int64, received: int64)
    | Complete(taskId: seq<byte>, checksum: seq<byte>, status: seq<byte>)
    | Error(taskId: seq<byte>, code: int64, message: seq<byte>)
    | Progress(taskId: seq<byte>, hundredths: uint64, transferred: int64, total: int64, speed: int64)

  function Type(f: Frame): byte
  {
    match f
    case Init(_, _, _, _, _, _) => 1
    case Data(_, _, _, _) => 2
    case Ack(_, _, _, _) => 3
    case Complete(_, _, _) => 4
    case Error(_, _, _) => 5
    case Progress(_, _, _, _, _) => 7
  }

  // ---------- the documented layout ----------

  // The bytes of a frame followed by `tail`.
  function Print(f: Frame, tail: seq<byte>): seq<byte>
  {
    [Type(f)] + (Str16(f.taskId) +
      match f
      case Init(_, name, size, sum, chunk, options) =>
        Str16(name) + (I64(size) + (Str16(sum) + (U32(chunk) + (Str16(options) + tail))))
      case Data(_, sequence, offset, data) => U64(sequence) + (I64(offset) + (Blob32(data) + tail))
      case Ack(_, sequence, offset, received) => U64(sequence) + (I64(offset) + (I64(received) + tail))
      case Complete(_, sum, status) => Str16(sum) + (Str16(status) + tail)
      case Error(_, code, message) => U32(code) + (Str16(message) + tail)
      case Progress(_, hundredths, transferred, total, speed) =>
        U64(hundredths) + (I64(transferred) + (I64(total) + (I64(speed) + tail))))
  }

  function Layout(f: Frame): seq<byte> { Print(f, []) }

  // The documented format of the frames, piece by piece: the type byte, numbers, and texts or data with
  // their length in front.
  datatype Piece = Kind(kind: byte) | Number(digits: seq<byte>) | Text(length: seq<byte>, text: seq<byte>)

  function Format(f: Frame): seq<Piece>
  {
    match f
    case Init(task, name, size, sum, chunk, options) =>
      [Kind(1), Text(U16(|task|), task), Text(U16(|name|), name), Number(I64(size)), Text(U16(|sum|), sum),
       Number(U32(chunk)), Text(U16(|options|), options)]
    case Data(task, sequence, offset, data) =>
      [Kind(2), Text(U16(|task|), task), Number(U64(sequence)), Number(I64(offset)), Text(U32(|data|), data)]
    case Ack(task, sequence, offset, received) =>
      [Kind(3), Text(U16(|task|), task), Number(U64(sequence)), Number(I64(offset)), Number(I64(received))]
    case Complete(task, sum, status) =>
      [Kind(4), Text(U16(|task|), task), Text(U16(|sum|), sum), Text(U16(|status|), status)]
    case Error(task, code, message) =>
      [Kind(5), Text(U16(|task|), task), Number(U32(code)), Text(U16(|message|), message)]
    case Progress(task, hundredths, transferred, total, speed) =>
      [Kind(7), Text(U16(|task|), task), Number(U64(hundredths)), Number(I64(transferred)), Number(I64(total)),
       Number(I64(speed))]
  }

  function PieceBytes(p: Piece, numbers: bool): seq<byte>
  {
    match p
    case Kind(kind) => [kind]
    case Number(digits) => if numbers then digits else []
    case Text(length, text) => if numbers then length + text else text
  }

  // The bytes of some pieces, with the numbers or without them.
  function Spelt(pieces: seq<Piece>, numbers: bool): seq<byte>
  {
    if pieces == [] then [] else PieceBytes(pieces[0], numbers) + Spelt(pieces[1..], numbers)
  }

  lemma {:induction false} SpeltFrom(pieces: seq<Piece>, i: nat, numbers: bool)
    requires i < |pieces|
    ensures Spelt(pieces[i..], numbers) == PieceBytes(pieces[i], numbers) + Spelt(pieces[i + 1..], numbers)
  {
    assert pieces[i..][1..] == pieces[i + 1..];
  }

  lemma SpeltEnds(pieces: seq<Piece>, numbers: bool)
    ensures pieces[0..] == pieces && Spelt(pieces[|pieces|..], numbers) == []
  {
  }

  /** A frame is laid out as the documented format says, piece after piece. */
  lemma {:induction false} LayoutIsFormat(f: Frame)
    ensures Layout(f) == Spelt(Format(f), true)
  {
    var ps := Format(f);
    SpeltEnds(ps, true);
    SpeltFrom(ps, 0, true);
    SpeltFrom(ps, 1, true);
    SpeltFrom(ps, 2, true);
    SpeltFrom(ps, 3, true);
    if |ps| > 4 { SpeltFrom(ps, 4, true); }
    if |ps| > 5 { SpeltFrom(ps, 5, true); }
    if |ps| > 6 { SpeltFrom(ps, 6, true); }
    hide U16, U32, U64, I64, Spelt;
  }

  // The widths that the length fields and the error code can carry.
  predicate Fits(f: Frame)
  {
    && |f.taskId| < 0x1_0000
    && match f
       case Init(_, name, _, sum, _, options) => |name| < 0x1_0000 && |sum| < 0x1_0000 && |options| < 0x1_0000
       case Data(_, _, _, data) => |data| < 0x1_0000_0000
       case Ack(_, _, _, _) => true
       case Complete(_, sum, status) => |sum| < 0x1_0000 && |status| < 0x1_0000
       case Error(_, code, message) => 0 <= code < 0x1_0000_0000 && |message| < 0x1_0000
       case Progress(_, _, _, _, _) => true
  }

  // ---------- decoding ----------

  // The options are lenient: absent or cut short, they are left at their defaults.
  function TakeOptions(s: seq<byte>): seq<byte>
  {
    if |s| <= 2 then []
    else match TakeStr16(s) case Some(r) => r.0 case None => []
  }

  function DecodeInit(s: seq<byte>): Option<Frame>
  {
    var (task, s1) :- TakeStr16(s);
    var (name, s2) :- TakeStr16(s1);
    var (size, s3) :- TakeI64(s2);
    var (sum, s4) :- TakeStr16(s3);
    var (chunk, s5) :- TakeU32(s4);
    Some(Init(task, name, size, sum, chunk, TakeOptions(s5)))
  }

  function DecodeData(s: seq<byte>): Option<(Frame, seq<byte>)>
  {
    var (task, s1) :- TakeStr16(s);
    var (sequence, s2) :- TakeU64(s1);
    var (offset, s3) :- TakeI64(s2);
    var (data, s4) :- TakeBlob32(s3);
    Some((Data(task, sequence, offset, data), s4))
  }

  function DecodeAck(s: seq<byte>): Option<(Frame, seq<byte>)>
  {
    var (task, s1) :- TakeStr16(s);
    var (sequence, s2) :- TakeU64(s1);
    var (offset, s3) :- TakeI64(s2);
    var (received, s4) :- TakeI64(s3);
    Some((Ack(task, sequence, offset, received), s4))
  }

  function DecodeComplete(s: seq<byte>): Option<(Frame, seq<byte>)>
  {
    var (task, s1) :- TakeStr16(s);
    var (sum, s2) :- TakeStr16(s1);
    var (status, s3) :- TakeStr16(s2);
    Some((Complete(task, sum, status), s3))
  }

  function DecodeError(s: seq<byte>): Option<(Frame, seq<byte>)>
  {
    var (task, s1) :- TakeStr16(s);
    var (code, s2) :- TakeU32(s1);
    var (message, s3) :- TakeStr16(s2);
    Some((Error(task, code, message), s3))
  }

  function DecodeProgress(s: seq<byte>): Option<(Frame, seq<byte>)>
  {
    var (task, s1) :- TakeStr16(s);
    var (hundredths, s2) :- TakeU64(s1);
    var (transferred, s3) :- TakeI64(s2);
    var (total, s4) :- TakeI64(s3);
    var (speed, s5) :- TakeI64(s4);
    Some((Progress(task, hundredths, transferred, total, speed), s5))
  }

  // Every decoder but the init frame's, with what it leaves unread.
  function DecodeStrict(kind: byte, s: seq<byte>): Option<(Frame, seq<byte>)>
  {
    if kind == 2 then DecodeData(s)
    else if kind == 3 then DecodeAck(s)
    else if kind == 4 then DecodeComplete(s)
    else if kind == 5 then DecodeError(s)
    else if kind == 7 then DecodeProgress(s)
    else None
  }

  // FrameDecoder.Decode: bytes after the frame are ignored.
  function Decode(data: seq<byte>): Option<Frame>
  {
    if |data| < 1 then None
    else if data[0] == 1 then DecodeInit(data[1..])
    else
      var (f, _) :- DecodeStrict(data[0], data[1..]);
      Some(f)
  }

  // ---------- round trips on the layout ----------

  lemma InitRoundTrip(f: Frame, tail: seq<byte>)
    requires f.Init? && Fits(f)
    ensures DecodeInit(Print(f, tail)[1..]) == Some(f)
  {
    hide U32, I64, Str16, TakeStr16, TakeU32, TakeI64;
    var s5 := Str16(f.options) + tail;
    var s4 := U32(f.chunkSize) + s5;
    var s3 := Str16(f.checksum) + s4;
    var s2 := I64(f.fileSize) + s3;
    var s1 := Str16(f.fileName) + s2;
    assert Print(f, tail)[1..] == Str16(f.taskId) + s1;
    TakeStr16Printed(f.taskId, s1);
    TakeStr16Printed(f.fileName, s2);
    TakeI64Printed(f.fileSize, s3);
    TakeStr16Printed(f.checksum, s4);
    TakeU32Printed(f.chunkSize, s5);
    TakeStr16Printed(f.options, tail);
    OptionsShort(f.options, tail);
  }

  lemma OptionsShort(options: seq<byte>, tail: seq<byte>)
    requires |options| < 0x1_0000
    ensures |Str16(options) + tail| <= 2 ==> options == []
  {
  }

  lemma StrictRoundTrip(f: Frame, tail: seq<byte>)
    requires !f.Init? && Fits(f)
    ensures DecodeStrict(Type(f), Print(f, tail)[1..]) == Some((f, tail))
  {
    hide U32, U64, I64, Str16, Blob32, TakeStr16, TakeBlob32, TakeU32, TakeU64, TakeI64;
    match f
    case Data(task, sequence, offset, data) =>
      var s3 := Blob32(data) + tail;
      var s2 := I64(offset) + s3;
      var s1 := U64(sequence) + s2;
      assert Print(f, tail)[1..] == Str16(task) + s1;
      TakeStr16Printed(task, s1); TakeU64Printed(sequence, s2);
      TakeI64Printed(offset, s3); TakeBlob32Printed(data, tail);
    case Ack(task, sequence, offset, received) =>
      var s3 := I64(received) + tail;
      var s2 := I64(offset) + s3;
      var s1 := U64(sequence) + s2;
      assert Print(f, tail)[1..] == Str16(task) + s1;
      TakeStr16Printed(task, s1); TakeU64Printed(sequence, s2);
      TakeI64Printed(offset, s3); TakeI64Printed(received, tail);
    case Complete(task, sum, status) =>
      var s2 := Str16(status) + tail;
      var s1 := Str16(sum) + s2;
      assert Print(f, tail)[1..] == Str16(task) + s1;
      TakeStr16Printed(task, s1); TakeStr16Printed(sum, s2); TakeStr16Printed(status, tail);
    case Error(task, code, message) =>
      var s2 := Str16(message) + tail;
      var s1 := U32(code) + s2;
      assert Print(f, tail)[1..] == Str16(task) + s1;
      TakeStr16Printed(task, s1); TakeU32Printed(code, s2); TakeStr16Printed(message, tail);
    case Progress(task, hundredths, transferred, total, speed) =>
      var s4 := I64(speed) + tail;
      var s3 := I64(total) + s4;
      var s2 := I64(transferred) + s3;
      var s1 := U64(hundredths) + s2;
      assert Print(f, tail)[1..] == Str16(task) + s1;
      TakeStr16Printed(task, s1); TakeU64Printed(hundredths, s2); TakeI64Printed(transferred, s3);
      TakeI64Printed(total, s4); TakeI64Printed(speed, tail);
  }

  // ---------- what a decoder accepts ----------

  lemma DataAccepted(s: seq<byte>)
    requires DecodeData(s).Some?
    ensures var (f, rest) := DecodeData(s).value; f.Data? && Fits(f) && [2 as byte] + s == Print(f, rest)
  {
    hide U64, I64, Str16, Blob32, TakeStr16, TakeBlob32, TakeU64, TakeI64;
    StrTaken(s);
    var s1 := TakeStr16(s).value.1; U64Taken(s1);
    var s2 := TakeU64(s1).value.1; I64Taken(s2);
    var s3 := TakeI64(s2).value.1; BlobTaken(s3);
  }

  lemma AckAccepted(s: seq<byte>)
    requires DecodeAck(s).Some?
    ensures var (f, rest) := DecodeAck(s).value; f.Ack? && Fits(f) && [3 as byte] + s == Print(f, rest)
  {
    hide U64, I64, Str16, TakeStr16, TakeU64, TakeI64;
    StrTaken(s);
    var s1 := TakeStr16(s).value.1; U64Taken(s1);
    var s2 := TakeU64(s1).value.1; I64Taken(s2);
    var s3 := TakeI64(s2).value.1; I64Taken(s3);
  }

  lemma CompleteAccepted(s: seq<byte>)
    requires DecodeComplete(s).Some?
    ensures var (f, rest) := DecodeComplete(s).value; f.Complete? && Fits(f) && [4 as byte] + s == Print(f, rest)
  {
    hide Str16, TakeStr16;
    StrTaken(s);
    var s1 := TakeStr16(s).value.1; StrTaken(s1);
    var s2 := TakeStr16(s1).value.1; StrTaken(s2);
  }

  lemma ErrorAccepted(s: seq<byte>)
    requires DecodeError(s).Some?
    ensures var (f, rest) := DecodeError(s).value; f.Error? && Fits(f) && [5 as byte] + s == Print(f, rest)
  {
    hide U32, Str16, TakeStr16, TakeU32;
    StrTaken(s);
    var s1 := TakeStr16(s).value.1; U32Taken(s1);
    var s2 := TakeU32(s1).value.1; StrTaken(s2);
  }

  lemma ProgressAccepted(s: seq<byte>)
    requires DecodeProgress(s).Some?
    ensures var (f, rest) := DecodeProgress(s).value; f.Progress? && Fits(f) && [7 as byte] + s == Print(f, rest)
  {
    hide U64, I64, Str16, TakeStr16, TakeU64, TakeI64;
    StrTaken(s);
    var s1 := TakeStr16(s).value.1; U64Taken(s1);
    var s2 := TakeU64(s1).value.1; I64Taken(s2);
    var s3 := TakeI64(s2).value.1; I64Taken(s3);
    var s4 := TakeI64(s3).value.1; I64Taken(s4);
  }

  lemma StrictAccepted(kind: byte, s: seq<byte>)
    requires DecodeStrict(kind, s).Some?
    ensures var (f, rest) := DecodeStrict(kind, s).value; !f.Init? && Fits(f) && [kind] + s == Print(f, rest)
  {
    hide Print, Fits, DecodeData, DecodeAck, DecodeComplete, DecodeError, DecodeProgress;
    if kind == 2 { DataAccepted(s); }
    else if kind == 3 { AckAccepted(s); }
    else if kind == 4 { CompleteAccepted(s); }
    else if kind == 5 { ErrorAccepted(s); }
    else { ProgressAccepted(s); }
  }

  // The init frame without its options.
  function InitHead(f: Frame, tail: seq<byte>): seq<byte>
    requires f.Init?
  {
    [1 as byte] +
    (Str16(f.taskId) + (Str16(f.fileName) + (I64(f.fileSize) + (Str16(f.checksum) + (U32(f.chunkSize) + tail)))))
  }

  lemma InitAccepted(s: seq<byte>)
    requires DecodeInit(s).Some?
    ensures var f := DecodeInit(s).value;
      && f.Init? && Fits(f)
      && exists rest :: [1 as byte] + s == InitHead(f, rest) && f.options == TakeOptions(rest)
  {
    hide U32, I64, Str16, TakeStr16, TakeU32, TakeI64, TakeOptions;
    StrTaken(s);
    var s1 := TakeStr16(s).value.1; StrTaken(s1);
    var s2 := TakeStr16(s1).value.1; I64Taken(s2);
    var s3 := TakeI64(s2).value.1; StrTaken(s3);
    var s4 := TakeStr16(s3).value.1; U32Taken(s4);
    var s5 := TakeU32(s4).value.1;
    OptionsFit(s5);
    assert [1 as byte] + s == InitHead(DecodeInit(s).value, s5);
  }

  lemma OptionsFit(s: seq<byte>)
    ensures |TakeOptions(s)| < 0x1_0000 && |TakeOptions(s)| <= |s|
    ensures TakeOptions(s) != [] ==> |s| >= 2 + |TakeOptions(s)|
  {
    if TakeStr16(s).Some? { StrTaken(s); }
  }

  /** Whatever is decoded fits the field widths. */
  lemma {:induction false} DecodedFits(data: seq<byte>)
    requires Decode(data).Some?
    ensures Fits(Decode(data).value)
  {
    hide Fits, DecodeStrict, DecodeInit;
    if data[0] == 1 { InitAccepted(data[1..]); } else { StrictAccepted(data[0], data[1..]); }
  }

  /** An encoded frame decodes to itself, whatever bytes follow, exactly when its fields fit their widths. */
  lemma {:induction false} RoundTrip(f: Frame, tail: seq<byte>)
    ensures Decode(Print(f, tail)) == Some(f) <==> Fits(f)
  {
    hide Fits, DecodeStrict, DecodeInit;
    if Fits(f) {
      if f.Init? { InitRoundTrip(f, tail); } else { StrictRoundTrip(f, tail); }
    }
    if Decode(Print(f, tail)) == Some(f) { DecodedFits(Print(f, tail)); }
  }

  /** Accepted Data, Ack, Complete, Error and Progress bytes begin with the encoding of what was decoded. */
  lemma {:induction false} AcceptedIsEncoded(data: seq<byte>)
    requires Decode(data).Some? && data[0] != 1
    ensures Layout(Decode(data).value) <= data
  {
    hide Print, DecodeStrict, DecodeInit;
    StrictAccepted(data[0], data[1..]);
    var (f, rest) := DecodeStrict(data[0], data[1..]).value;
    assert [data[0]] + data[1..] == data;
    PrintTail(f, rest);
  }

  /** A frame that is not an init frame decodes from no cut: every proper prefix of its layout is refused. */
  lemma {:induction false} CutShortFails(f: Frame, n: nat)
    requires Fits(f) && !f.Init? && n < |Layout(f)|
    ensures Decode(Layout(f)[..n]) == None
  {
    var cut := Layout(f)[..n];
    RoundTrip(f, []);
    if Decode(cut).Some? {
      assert cut[0] == Layout(f)[0] == Type(f) != 1;
      AcceptedIsEncoded(cut);
      DecodedFits(cut);
      StartDecodes(Decode(cut).value, Layout(f));
    }
  }

  lemma StartDecodes(f: Frame, data: seq<byte>)
    requires Fits(f) && Layout(f) <= data
    ensures Decode(data) == Some(f)
  {
    var tail := data[|Layout(f)|..];
    RoundTrip(f, tail);
    PrintTail(f, tail);
    assert Layout(f) + tail == data;
  }

  /** The options of an init frame are left at their defaults when they are empty or cut short, and bytes
      behind them are ignored. */
  lemma {:induction false} OptionsAreLenient(n: nat, rest: seq<byte>, stub: seq<byte>)
    requires n < 0x1_0000 && |stub| < 2
    ensures TakeOptions(U16(n) + rest) == if n <= |rest| then rest[..n] else []
    ensures TakeOptions(stub) == []
  {
    Widths();
    TakePrinted(n, 2, rest);
  }

  lemma PrintTail(f: Frame, tail: seq<byte>)
    ensures Print(f, tail) == Layout(f) + tail
  {
    hide U32, U64, I64, Str16, Blob32;
  }
}
