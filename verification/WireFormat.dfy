/** Where the bytes of frames and messages lie, and what becomes of damaged ones. */
module WireFormat {
  import opened Bytes
  import opened Clock
  import opened Wire
  import opened ReplLog
  import opened Messages
  import Protocol

  /** Names fit in one byte of length, data in four. */
  lemma LengthsExactly(key: Key, data: seq<byte>)
    ensures LengthError(key, data) ==
      if |key.entity| > 255 then Some(EntityTooLong)
      else if |key.id| > 255 then Some(IdTooLong)
      else if |data| > 0xFFFF_FFFF then Some(DataTooLong)
      else None
  {
  }

  lemma FrameParts(f: Frame)
    requires LengthError(f.key, f.data).None?
    ensures Encode(f).Ok?
    ensures Encode(f).value ==
      EncodeHeader(HeaderOf(f)) + (f.key.entity + f.key.id + f.data + Trailer(f.signature))
  {
  }

  /** The fields of an encoded frame, by offset. */
  lemma FrameFields(f: Frame)
    requires InRange(f) && LengthError(f.key, f.data).None?
    ensures Encode(f).Ok?
    ensures var buf, e, i, d := Encode(f).value, |f.key.entity|, |f.key.id|, |f.data|;
      && |buf| >= 61 + e + i + d && buf[0] == 2
      && buf[1] == (match f.op case Insert => 0 case Update => 1 case Delete => 2)
      && FromBE(buf[2..10]) == f.stamp.hlc.physical && FromBE(buf[10..14]) == f.stamp.hlc.logical
      && buf[14..46] == f.stamp.peer && FromBE(buf[46..54]) == f.seqno
      && buf[54] == e && buf[55] == i && FromBE(buf[56..60]) == d
      && buf[60..60 + e] == f.key.entity && buf[60 + e..60 + e + i] == f.key.id
      && buf[60 + e + i..60 + e + i + d] == f.data
      && buf[60 + e + i + d..] == if f.signature.None? then [0] else [1] + f.signature.value
  {
    var h := HeaderOf(f);
    FrameParts(f);
    HeaderLayout(h, f.key.entity + f.key.id + f.data + Trailer(f.signature));
    HeaderNumbers(h);
    TailParts(EncodeHeader(h), f.key.entity, f.key.id, f.data, Trailer(f.signature));
  }

  lemma HeaderNumbers(h: Header)
    requires h.stamp.hlc.physical < U64_LIMIT && h.seqno < U64_LIMIT
    ensures FromBE(ToBE(h.stamp.hlc.physical, 8)) == h.stamp.hlc.physical
    ensures FromBE(ToBE(h.stamp.hlc.logical, 4)) == h.stamp.hlc.logical
    ensures FromBE(ToBE(h.seqno, 8)) == h.seqno && FromBE(ToBE(h.dataLen, 4)) == h.dataLen
  {
    Pow256Values();
    BigEndianRoundTrip(h.stamp.hlc.physical, 8);
    BigEndianRoundTrip(h.stamp.hlc.logical, 4);
    BigEndianRoundTrip(h.seqno, 8);
    BigEndianRoundTrip(h.dataLen, 4);
  }

  lemma TailParts<T>(h: seq<T>, a: seq<T>, b: seq<T>, c: seq<T>, d: seq<T>)
    ensures var s, n := h + (a + b + c + d), |h|;
      && s[n..n + |a|] == a && s[n + |a|..n + |a| + |b|] == b
      && s[n + |a| + |b|..n + |a| + |b| + |c|] == c && s[n + |a| + |b| + |c|..] == d
  {
  }

  // ---- damaged frames ---------------------------------------------------------

  lemma HeaderSurvivesCut(f: Frame, k: nat)
    requires InRange(f) && LengthError(f.key, f.data).None? && 60 <= k <= |Encode(f).value|
    ensures DecodeHeader(Encode(f).value[..k]) == Ok(HeaderOf(f))
  {
    FrameParts(f);
    var cut := Encode(f).value[..k];
    assert cut == EncodeHeader(HeaderOf(f)) + cut[60..];
    HeaderRoundTrip(HeaderOf(f), cut[60..]);
  }

  /** Every proper prefix of a frame is reported as too short, with a length that is still within the frame. */
  lemma PrefixIsTruncated(f: Frame, k: nat)
    requires InRange(f) && LengthError(f.key, f.data).None? && k < |Encode(f).value|
    ensures var r := Decode(Encode(f).value[..k]);
      r.Err? && r.error.Truncated? && r.error.have == k && k < r.error.need <= |Encode(f).value|
  {
    if k >= 60 {
      HeaderSurvivesCut(f, k);
      CutBody(f, k);
    }
  }

  lemma CutBody(f: Frame, k: nat)
    requires InRange(f) && LengthError(f.key, f.data).None? && 60 <= k < |Encode(f).value|
    ensures var r := DecodeBody(Encode(f).value[..k], HeaderOf(f));
      r.Err? && r.error.Truncated? && r.error.have == k && k < r.error.need <= |Encode(f).value|
  {
    if k >= 61 + |f.key.entity| + |f.key.id| + |f.data| {
      CutSignature(f, k);
    } else {
      FrameNames(f);
    }
  }

  /** The names and the trailer of a frame, by offset. */
  lemma FrameNames(f: Frame)
    requires LengthError(f.key, f.data).None?
    ensures Encode(f).Ok?
    ensures var buf, e, i, d := Encode(f).value, |f.key.entity|, |f.key.id|, |f.data|;
      && |buf| >= 61 + e + i + d && buf[60..60 + e] == f.key.entity && buf[60 + e..60 + e + i] == f.key.id
      && buf[60 + e + i + d..] == if f.signature.None? then [0] else [1] + f.signature.value
  {
    FrameParts(f);
    TailParts(EncodeHeader(HeaderOf(f)), f.key.entity, f.key.id, f.data, Trailer(f.signature));
  }

  /** Only part of the signature is missing. */
  lemma CutSignature(f: Frame, k: nat)
    requires InRange(f) && LengthError(f.key, f.data).None? && k < |Encode(f).value|
    requires k >= 61 + |f.key.entity| + |f.key.id| + |f.data|
    ensures DecodeBody(Encode(f).value[..k], HeaderOf(f)) == Err(Truncated(|Encode(f).value|, k))
  {
    FrameNames(f);
    var buf, e, i := Encode(f).value, |f.key.entity|, |f.key.id|;
    SliceOfPrefix(buf, k, 60, 60 + e);
    SliceOfPrefix(buf, k, 60 + e, 60 + e + i);
    CutTrailer(buf, k, 60 + e + i + |f.data|, f.signature);
    BodyFails(buf[..k], HeaderOf(f), f.key);
  }

  /** With good names a body fails as its trailer does. */
  lemma BodyFails(buf: seq<byte>, h: Header, key: Key)
    requires |buf| >= 61 + h.entityLen as nat + h.idLen as nat + h.dataLen
    requires h.entityLen == |key.entity| && h.idLen == |key.id|
    requires buf[60..60 + |key.entity|] == key.entity
    requires buf[60 + |key.entity|..60 + |key.entity| + |key.id|] == key.id
    requires DecodeSignature(buf, 61 + |key.entity| + |key.id| + h.dataLen).Err?
    ensures DecodeBody(buf, h) == Err(DecodeSignature(buf, 61 + |key.entity| + |key.id| + h.dataLen).error)
  {
  }

  lemma SliceOfPrefix<T>(s: seq<T>, k: nat, a: nat, b: nat)
    requires a <= b <= k <= |s|
    ensures s[..k][a..b] == s[a..b]
  {
  }

  /** Cut behind its flag, the trailer has lost part of its signature. */
  lemma CutTrailer(buf: seq<byte>, k: nat, dataEnd: nat, signature: Option<Signature>)
    requires dataEnd < k < |buf| && buf[dataEnd..] == if signature.None? then [0] else [1] + signature.value
    ensures var r := DecodeSignature(buf[..k], dataEnd + 1);
      r == Err(Truncated(dataEnd + 65, k)) && k < dataEnd + 65 == |buf|
  {
    assert buf[dataEnd] == buf[dataEnd..][0];
  }

  /** A buffer shorter than the header, of another version, or with an unknown operation is refused by name. */
  lemma WrongHeader(buf: seq<byte>)
    ensures |buf| < 60 ==> Decode(buf) == Err(Truncated(60, |buf|))
    ensures |buf| >= 60 && buf[0] != 2 ==> Decode(buf) == Err(BadVersion(buf[0]))
    ensures |buf| >= 60 && buf[0] == 2 && buf[1] > 2 ==> Decode(buf) == Err(BadOp(buf[1]))
  {
  }

  // ---- messages ---------------------------------------------------------------

  /** A message is its type, the length of its payload, and its payload. */
  lemma MessageFields(m: Message, order: seq<PeerId>)
    requires Protocol.Sendable(m, order) && Protocol.Written(m, order).Bytes?
    ensures var buf, payload := Protocol.Written(m, order).bytes, Protocol.Payload(m, order).bytes;
      && |buf| == 5 + |payload| && buf[0] == (if m.Hello? then 0 else 1)
      && FromBE(buf[1..5]) == |payload| && buf[5..] == payload
  {
    var payload := Protocol.Payload(m, order).bytes;
    Protocol.HeadOfStream(if m.Hello? then 0 else 1, payload, []);
    var buf := Protocol.Written(m, order).bytes;
    assert buf + [] == buf;
  }

  lemma HelloParts<T>(a: seq<T>, b: seq<T>, c: seq<T>)
    requires |a| == 32 && |b| == 4
    ensures var s := a + b + c; s[..32] == a && s[32..36] == b && s[36..36 + |c|] == c
  {
  }

  /** The fields of a Hello, by offset. */
  lemma HelloFields(sender: PeerId, cursors: Cursors, order: seq<PeerId>, n: nat)
    requires (forall p :: p in order ==> p in cursors && cursors[p] < U64_LIMIT) && n < |order| < U32_LIMIT
    ensures var r := Protocol.HelloPayload(sender, cursors, order);
      && r.Bytes? && |r.bytes| == 36 + 40 * |order| && r.bytes[..32] == sender && FromBE(r.bytes[32..36]) == |order|
      && r.bytes[36 + 40 * n..68 + 40 * n] == order[n]
      && FromBE(r.bytes[68 + 40 * n..76 + 40 * n]) == cursors[order[n]]
  {
    var buf := Protocol.HelloPayload(sender, cursors, order).bytes;
    var entries := Protocol.Entries(cursors, order);
    Protocol.LengthRoundTrip(|order|);
    HelloParts(sender, ToBE(|order|, 4), entries);
    Protocol.EntryAt(cursors, order, n);
    SubSlice(buf, 36, entries, 40 * n, 40 * n + 40);
    Protocol.EntryReadsBack(buf, 36 + 40 * n, order[n], cursors[order[n]]);
  }

  /** A delta is the number of frames, and each frame behind its length. */
  lemma DeltaFields(f: Frame, rest: seq<Frame>)
    requires Protocol.DeltaPayload([f] + rest).Bytes?
    ensures Encode(f).Ok?
    ensures var buf, frame := Protocol.DeltaPayload([f] + rest).bytes, Encode(f).value;
      && |buf| >= 8 + |frame| && FromBE(buf[..4]) == 1 + |rest| && FromBE(buf[4..8]) == |frame|
      && buf[8..8 + |frame|] == frame
  {
    var frames := [f] + rest;
    assert frames[0] == f && frames[1..] == rest;
    var frame := Encode(f).value;
    Protocol.LengthRoundTrip(|frames|);
    Protocol.LengthRoundTrip(|frame|);
    var more := Protocol.FramesBytes(Encode, rest).bytes;
    DeltaParts(ToBE(|frames|, 4), ToBE(|frame|, 4), frame, more);
  }

  lemma DeltaParts<T>(a: seq<T>, b: seq<T>, c: seq<T>, d: seq<T>)
    requires |a| == 4 && |b| == 4
    ensures var s := a + (b + c + d); s[..4] == a && s[4..8] == b && s[8..8 + |c|] == c
  {
  }

  /** The reader waits for the rest of a message that was cut off. */
  lemma PrefixIsEof(m: Message, order: seq<PeerId>, k: nat)
    requires Protocol.Sendable(m, order) && Protocol.WithinLimit(m, order) && k < |Protocol.Written(m, order).bytes|
    ensures Protocol.ReadMessage(Protocol.Written(m, order).bytes[..k]) == Err(Protocol.Eof)
  {
    MessageFields(m, order);
    var buf := Protocol.Written(m, order).bytes;
    if k >= 5 {
      assert buf[..k][1..5] == buf[1..5];
    }
  }

  /** A type other than the two is refused by name. */
  lemma WrongType(stream: seq<byte>)
    requires |stream| >= 5 && stream[0] > 1
    ensures var len := FromBE(stream[1..5]);
      Protocol.ReadMessage(stream) ==
      if len > 0x400_0000 then Err(Protocol.TooLarge(len))
      else if |stream| < 5 + len then Err(Protocol.Eof)
      else Err(Protocol.BadType(stream[0]))
  {
  }
}
