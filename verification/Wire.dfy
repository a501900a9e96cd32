/** The replicated write frame and its byte layout. */
module Wire {
  import opened Bytes
  import opened Text
  import opened Clock

  const WIRE_VERSION: byte := 2
  const HEADER_LEN := 60
  const SIGNATURE_LEN := 64
  const U8_LIMIT := 256
  const U32_LIMIT := 0x1_0000_0000
  const U64_LIMIT := 0x1_0000_0000_0000_0000

  datatype Op = Insert | Update | Delete

  type Signature = s: seq<byte> | |s| == 64 witness
    [0, 0, 0, 0, 0, 0, 0, 0, 0, 0, 0, 0, 0, 0, 0, 0, 0, 0, 0, 0, 0, 0, 0, 0, 0, 0, 0, 0, 0, 0, 0, 0,
     0, 0, 0, 0, 0, 0, 0, 0, 0, 0, 0, 0, 0, 0, 0, 0, 0, 0, 0, 0, 0, 0, 0, 0, 0, 0, 0, 0, 0, 0, 0, 0]

  datatype Key = Key(entity: Text, id: Text)

  datatype Frame = Frame(
    stamp: Stamp,
    seqno: nat,
    op: Op,
    key: Key,
    data: seq<byte>,
    signature: Option<Signature>)

  datatype WireError =
    | Truncated(need: nat, have: nat)
    | BadVersion(version: byte)
    | BadOp(code: byte)
    | EntityTooLong
    | IdTooLong
    | DataTooLong
    | Utf8
    | BadSignatureFlag(flag: byte)

  datatype Result<+T, +E> = Ok(value: T) | Err(error: E) {
    predicate IsFailure() { Err? }
    function PropagateFailure<U>(): Result<U, E> requires Err? { Err(error) }
    function Extract(): T requires Ok? { value }
  }

  /** The machine-integer ranges of a frame's numeric fields. */
  predicate InRange(f: Frame) {
    f.stamp.hlc.physical < U64_LIMIT && f.seqno < U64_LIMIT
  }

  /** `check_lengths`: the error a key and payload draw, if they do not fit a frame. */
  function LengthError(key: Key, data: seq<byte>): Option<WireError> {
    if |key.entity| >= U8_LIMIT then Some(EntityTooLong)
    else if |key.id| >= U8_LIMIT then Some(IdTooLong)
    else if |data| >= U32_LIMIT then Some(DataTooLong)
    else None
  }

  function OpCode(op: Op): byte {
    match op case Insert => 0 case Update => 1 case Delete => 2
  }

  function ParseOp(code: byte): Result<Op, WireError> {
    if code == 0 then Ok(Insert) else if code == 1 then Ok(Update) else if code == 2 then Ok(Delete)
    else Err(BadOp(code))
  }

  /** The fixed-size part of a frame. */
  datatype Header = Header(op: Op, stamp: Stamp, seqno: nat, entityLen: byte, idLen: byte, dataLen: u32)

  function HeaderOf(f: Frame): Header
    requires LengthError(f.key, f.data).None?
  {
    Header(f.op, f.stamp, f.seqno, |f.key.entity|, |f.key.id|, |f.data|)
  }

  function EncodeHeader(h: Header): (bytes: seq<byte>)
    ensures |bytes| == HEADER_LEN
  {
    [WIRE_VERSION, OpCode(h.op)] + ToBE(h.stamp.hlc.physical, 8) + ToBE(h.stamp.hlc.logical, 4)
    + h.stamp.peer + ToBE(h.seqno, 8) + [h.entityLen, h.idLen] + ToBE(h.dataLen, 4)
  }

  function FromBE4(s: seq<byte>): (n: u32)
    requires |s| == 4
    ensures n == FromBE(s)
  {
    Pow256Values();
    FromBE(s)
  }

  function DecodeHeader(buf: seq<byte>): Result<Header, WireError>
    requires |buf| >= HEADER_LEN
  {
    if buf[0] != WIRE_VERSION then Err(BadVersion(buf[0]))
    else
      var op :- ParseOp(buf[1]);
      var hlc := Hlc(FromBE(buf[2..10]), FromBE4(buf[10..14]));
      Ok(Header(op, Stamp(hlc, buf[14..46]), FromBE(buf[46..54]), buf[54], buf[55], FromBE4(buf[56..60])))
  }

  function SigningBytes(f: Frame): Result<seq<byte>, WireError> {
    match LengthError(f.key, f.data)
    case Some(error) => Err(error)
    case None => Ok(EncodeHeader(HeaderOf(f)) + f.key.entity + f.key.id + f.data)
  }

  function Trailer(signature: Option<Signature>): seq<byte> {
    match signature
    case None => [0]
    case Some(s) => [1] + s
  }

  function Encode(f: Frame): Result<seq<byte>, WireError> {
    var bytes :- SigningBytes(f);
    Ok(bytes + Trailer(f.signature))
  }

  function EncodedLen(f: Frame): nat {
    HEADER_LEN + |f.key.entity| + |f.key.id| + |f.data| + 1
    + if f.signature.Some? then SIGNATURE_LEN else 0
  }

  function DecodeSignature(buf: seq<byte>, flagEnd: nat): Result<Option<Signature>, WireError>
    requires 0 < flagEnd <= |buf|
  {
    var flag := buf[flagEnd - 1];
    if flag == 0 then Ok(None)
    else if flag == 1 then
      var sigEnd := flagEnd + SIGNATURE_LEN;
      if |buf| < sigEnd then Err(Truncated(sigEnd, |buf|)) else Ok(Some(buf[flagEnd..sigEnd]))
    else Err(BadSignatureFlag(flag))
  }

  /** The variable part, given the header that precedes it. */
  function DecodeBody(buf: seq<byte>, h: Header): Result<Frame, WireError>
    requires |buf| >= HEADER_LEN
  {
    var entityEnd := HEADER_LEN + h.entityLen;
    var idEnd := entityEnd + h.idLen;
    var dataEnd := idEnd + h.dataLen;
    var flagEnd := dataEnd + 1;
    if |buf| < flagEnd then Err(Truncated(flagEnd, |buf|))
    else if !ValidUtf8(buf[HEADER_LEN..entityEnd]) || !ValidUtf8(buf[entityEnd..idEnd]) then Err(Utf8)
    else
      var signature :- DecodeSignature(buf, flagEnd);
      Ok(Frame(h.stamp, h.seqno, h.op, Key(buf[HEADER_LEN..entityEnd], buf[entityEnd..idEnd]),
               buf[idEnd..dataEnd], signature))
  }

  function Decode(buf: seq<byte>): Result<Frame, WireError> {
    if |buf| < HEADER_LEN then Err(Truncated(HEADER_LEN, |buf|))
    else
      var h :- DecodeHeader(buf);
      DecodeBody(buf, h)
  }

  lemma Pow256Values()
    ensures Pow256(2) == 0x1_0000 && Pow256(4) == U32_LIMIT && Pow256(8) == U64_LIMIT
  {
    assert Pow256(1) == 256;
    assert Pow256(3) == 0x100_0000;
    assert Pow256(5) == 0x100_0000_0000;
    assert Pow256(6) == 0x1_0000_0000_0000;
    assert Pow256(7) == 0x100_0000_0000_0000;
  }

  /** Where each header field lies. */
  lemma HeaderLayout(h: Header, rest: seq<byte>)
    ensures var buf := EncodeHeader(h) + rest;
      && buf[0] == WIRE_VERSION && buf[1] == OpCode(h.op)
      && buf[2..10] == ToBE(h.stamp.hlc.physical, 8)
      && buf[10..14] == ToBE(h.stamp.hlc.logical, 4)
      && buf[14..46] == h.stamp.peer
      && buf[46..54] == ToBE(h.seqno, 8)
      && buf[54] == h.entityLen && buf[55] == h.idLen
      && buf[56..60] == ToBE(h.dataLen, 4)
  {
  }

  lemma HeaderRoundTrip(h: Header, rest: seq<byte>)
    requires h.stamp.hlc.physical < U64_LIMIT && h.seqno < U64_LIMIT
    ensures DecodeHeader(EncodeHeader(h) + rest) == Ok(h)
  {
    HeaderLayout(h, rest);
    Pow256Values();
    BigEndianRoundTrip(h.stamp.hlc.physical, 8);
    BigEndianRoundTrip(h.stamp.hlc.logical, 4);
    BigEndianRoundTrip(h.seqno, 8);
    BigEndianRoundTrip(h.dataLen, 4);
  }

  lemma HeaderInverse(buf: seq<byte>)
    requires |buf| >= HEADER_LEN && DecodeHeader(buf).Ok?
    ensures EncodeHeader(DecodeHeader(buf).value) == buf[..HEADER_LEN]
    ensures var h := DecodeHeader(buf).value; h.stamp.hlc.physical < U64_LIMIT && h.seqno < U64_LIMIT
  {
    var h := DecodeHeader(buf).value;
    Pow256Values();
    BigEndianInverse(buf[2..10]);
    BigEndianInverse(buf[10..14]);
    BigEndianInverse(buf[46..54]);
    BigEndianInverse(buf[56..60]);
    var parts := [buf[0], buf[1]] + buf[2..10] + buf[10..14] + buf[14..46] + buf[46..54]
                 + [buf[54], buf[55]] + buf[56..60];
    assert parts == buf[..HEADER_LEN];
    assert EncodeHeader(h) == parts;
  }

  lemma TrailerRoundTrip(buf: seq<byte>, dataEnd: nat, signature: Option<Signature>)
    requires dataEnd + |Trailer(signature)| <= |buf|
    requires buf[dataEnd..dataEnd + |Trailer(signature)|] == Trailer(signature)
    ensures DecodeSignature(buf, dataEnd + 1) == Ok(signature)
  {
    var t := Trailer(signature);
    assert buf[dataEnd] == t[0];
    if signature.Some? {
      assert buf[dataEnd + 1..dataEnd + |t|] == t[1..];
    }
  }

  lemma BodyRoundTrip(f: Frame, header: seq<byte>, rest: seq<byte>)
    requires LengthError(f.key, f.data).None? && |header| == HEADER_LEN
    ensures DecodeBody(header + f.key.entity + f.key.id + f.data + Trailer(f.signature) + rest, HeaderOf(f)) == Ok(f)
  {
    var buf := header + f.key.entity + f.key.id + f.data + Trailer(f.signature) + rest;
    var entityEnd := HEADER_LEN + |f.key.entity|;
    var idEnd := entityEnd + |f.key.id|;
    var dataEnd := idEnd + |f.data|;
    assert buf[HEADER_LEN..entityEnd] == f.key.entity;
    assert buf[entityEnd..idEnd] == f.key.id;
    assert buf[idEnd..dataEnd] == f.data;
    TrailerRoundTrip(buf, dataEnd, f.signature);
  }

  lemma BodyInverse(buf: seq<byte>, h: Header)
    requires |buf| >= HEADER_LEN && DecodeBody(buf, h).Ok?
    ensures var f := DecodeBody(buf, h).value;
      && LengthError(f.key, f.data).None? && HeaderOf(f) == h
      && buf[..HEADER_LEN] + f.key.entity + f.key.id + f.data + Trailer(f.signature) <= buf
  {
    var f := DecodeBody(buf, h).value;
    var t := Trailer(f.signature);
    var dataEnd := HEADER_LEN + |f.key.entity| + |f.key.id| + |f.data|;
    assert t == buf[dataEnd..dataEnd + |t|];
    assert buf[..HEADER_LEN] + f.key.entity + f.key.id + f.data == buf[..dataEnd];
    assert buf[..dataEnd] + t == buf[..dataEnd + |t|];
  }

  /** Decoding inverts encoding, whatever follows the frame in the buffer. */
  lemma DecodeEncode(f: Frame, rest: seq<byte>)
    requires InRange(f)
    ensures Encode(f).Ok? <==> LengthError(f.key, f.data).None?
    ensures Encode(f).Ok? ==> |Encode(f).value| == EncodedLen(f)
    ensures Encode(f).Ok? ==> Decode(Encode(f).value + rest) == Ok(f)
  {
    if Encode(f).Ok? {
      var header := EncodeHeader(HeaderOf(f));
      var buf := Encode(f).value + rest;
      assert buf == header + f.key.entity + f.key.id + f.data + Trailer(f.signature) + rest;
      assert buf == header + buf[HEADER_LEN..];
      HeaderRoundTrip(HeaderOf(f), buf[HEADER_LEN..]);
      BodyRoundTrip(f, header, rest);
    }
  }

  /** A buffer that decodes starts with the encoding of what it decodes to. */
  lemma EncodeDecode(buf: seq<byte>)
    requires Decode(buf).Ok?
    ensures InRange(Decode(buf).value)
    ensures Encode(Decode(buf).value).Ok? && Encode(Decode(buf).value).value <= buf
  {
    HeaderInverse(buf);
    BodyInverse(buf, DecodeHeader(buf).value);
  }

  /** What is signed determines everything but the signature. */
  lemma SigningBytesInjective(f: Frame, g: Frame)
    requires InRange(f) && InRange(g)
    requires SigningBytes(f).Ok? && SigningBytes(f) == SigningBytes(g)
    ensures f.(signature := None) == g.(signature := None)
  {
    var f0, g0 := f.(signature := None), g.(signature := None);
    DecodeEncode(f0, []);
    DecodeEncode(g0, []);
    assert HeaderOf(f) == HeaderOf(f0) && HeaderOf(g) == HeaderOf(g0);
    assert Encode(f0) == Encode(g0);
  }
}
