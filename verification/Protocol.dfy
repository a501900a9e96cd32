/** Sync messages on a byte stream. */
module Protocol {
  import opened Bytes
  import opened Clock
  import opened Wire
  import opened ReplLog
  import opened Collections
  import opened Messages

  const MSG_HELLO: byte := 0
  const MSG_DELTA: byte := 1
  const MAX_MESSAGE_LEN := 64 * 1024 * 1024
  const HELLO_HEADER := 36
  const ENTRY_LEN := 40

  datatype ProtocolError =
    | Eof
    | BadFrame(error: WireError)
    | BadType(kind: byte)
    | TooLarge(len: nat)
    | ShortPayload(need: nat, have: nat)

  /** What encoding gives; a count or a frame length over 32 bits panics. */
  datatype Encoded = Bytes(bytes: seq<byte>) | Failed(error: ProtocolError) | Panicked

  // ---- Hello -------------------------------------------------------------

  function Entries(cursors: Cursors, order: seq<PeerId>): (b: seq<byte>)
    requires forall p :: p in order ==> p in cursors
    ensures |b| == ENTRY_LEN * |order|
  {
    if order == [] then []
    else
      var p := order[|order| - 1];
      Entries(cursors, order[..|order| - 1]) + Entry(p, cursors[p])
  }

  function Entry(p: PeerId, cursor: nat): (b: seq<byte>)
    ensures |b| == ENTRY_LEN
  {
    p + ToBE(cursor, 8)
  }

  lemma EntriesSnoc(header: seq<byte>, cursors: Cursors, order: seq<PeerId>, i: nat)
    requires i < |order| && forall p :: p in order ==> p in cursors
    ensures header + Entries(cursors, order[..i]) + Entry(order[i], cursors[order[i]]) ==
      header + Entries(cursors, order[..i + 1])
  {
    PrefixSnoc(order, i);
  }

  /** The payload when the map is visited in `order`. */
  function HelloPayload(sender: PeerId, cursors: Cursors, order: seq<PeerId>): Encoded
    requires forall p :: p in order ==> p in cursors
  {
    if |order| >= U32_LIMIT then Panicked else Bytes(sender + ToBE(|order|, 4) + Entries(cursors, order))
  }

  /** The map after the first `n` entries from `off` on; a later entry for a peer replaces an earlier one. */
  function ReadEntries(payload: seq<byte>, off: nat, n: nat): Cursors
    requires off + ENTRY_LEN * n <= |payload|
  {
    if n == 0 then map[]
    else
      var at := off + ENTRY_LEN * (n - 1);
      ReadEntries(payload, off, n - 1)[payload[at..at + 32] := FromBE(payload[at + 32..at + 40])]
  }

  function DecodeHello(payload: seq<byte>): Result<Message, ProtocolError> {
    if |payload| < HELLO_HEADER then Err(ShortPayload(HELLO_HEADER, |payload|))
    else
      var count := FromBE(payload[32..36]);
      var need := HELLO_HEADER + ENTRY_LEN * count;
      if |payload| < need then Err(ShortPayload(need, |payload|))
      else Ok(Hello(payload[..32], ReadEntries(payload, HELLO_HEADER, count)))
  }

  method EncodeHello(sender: PeerId, cursors: Cursors) returns (r: Encoded, order: seq<PeerId>)
    ensures Enumerates(order, cursors.Keys)
    ensures r == HelloPayload(sender, cursors, order)
  {
    order := Listed(cursors.Keys);
    if |order| >= U32_LIMIT {
      return Panicked, order;
    }
    var payload := sender + ToBE(|order|, 4);
    ghost var header := payload;
    for i := 0 to |order|
      invariant payload == header + Entries(cursors, order[..i])
    {
      EntriesSnoc(header, cursors, order, i);
      payload := payload + Entry(order[i], cursors[order[i]]);
    }
    assert order[..|order|] == order;
    r := Bytes(payload);
  }

  method ReadHello(payload: seq<byte>) returns (r: Result<Message, ProtocolError>)
    ensures r == DecodeHello(payload)
  {
    if |payload| < HELLO_HEADER {
      return Err(ShortPayload(HELLO_HEADER, |payload|));
    }
    var count := FromBE(payload[32..36]);
    var need := HELLO_HEADER + ENTRY_LEN * count;
    if |payload| < need {
      return Err(ShortPayload(need, |payload|));
    }
    var cursors: Cursors := map[];
    var off := HELLO_HEADER;
    for i := 0 to count
      invariant off == HELLO_HEADER + ENTRY_LEN * i
      invariant cursors == ReadEntries(payload, HELLO_HEADER, i)
    {
      cursors := cursors[payload[off..off + 32] := FromBE(payload[off + 32..off + 40])];
      off := off + ENTRY_LEN;
    }
    return Ok(Hello(payload[..32], cursors));
  }

  /** The map restricted to the peers of `order`. */
  function Restricted(cursors: Cursors, order: seq<PeerId>): Cursors
    requires forall p :: p in order ==> p in cursors
  {
    map p | p in order :: cursors[p]
  }

  lemma EntryAt(cursors: Cursors, order: seq<PeerId>, n: nat)
    requires (forall p :: p in order ==> p in cursors) && n < |order|
    ensures Entries(cursors, order)[ENTRY_LEN * n..ENTRY_LEN * n + 40] == Entry(order[n], cursors[order[n]])
    decreases |order|
  {
    var front := order[..|order| - 1];
    var b := Entries(cursors, order);
    if n < |order| - 1 {
      EntryAt(cursors, front, n);
      assert b[ENTRY_LEN * n..ENTRY_LEN * n + 40] == Entries(cursors, front)[ENTRY_LEN * n..ENTRY_LEN * n + 40];
    }
  }

  lemma EntryReadsBack(payload: seq<byte>, at: nat, p: PeerId, cursor: nat)
    requires cursor < U64_LIMIT && at + 40 <= |payload| && payload[at..at + 40] == Entry(p, cursor)
    ensures payload[at..at + 32] == p && FromBE(payload[at + 32..at + 40]) == cursor
  {
    var entry := Entry(p, cursor);
    SubSlice(payload, at, entry, 0, 32);
    SubSlice(payload, at, entry, 32, 40);
    assert entry[0..32] == p && entry[32..40] == ToBE(cursor, 8);
    Pow256Values();
    BigEndianRoundTrip(cursor, 8);
  }

  lemma {:induction false} EntriesReadBack(payload: seq<byte>, off: nat, cursors: Cursors, order: seq<PeerId>, n: nat)
    requires (forall p :: p in order ==> p in cursors && cursors[p] < U64_LIMIT) && n <= |order|
    requires off + ENTRY_LEN * |order| <= |payload|
    requires payload[off..off + ENTRY_LEN * |order|] == Entries(cursors, order)
    ensures ReadEntries(payload, off, n) == Restricted(cursors, order[..n])
  {
    if n > 0 {
      EntriesReadBack(payload, off, cursors, order, n - 1);
      EntryAt(cursors, order, n - 1);
      SubSlice(payload, off, Entries(cursors, order), ENTRY_LEN * (n - 1), ENTRY_LEN * n);
      OneMoreEntry(payload, off, cursors, order, n);
    }
  }

  lemma OneMoreEntry(payload: seq<byte>, off: nat, cursors: Cursors, order: seq<PeerId>, n: nat)
    requires (forall p :: p in order ==> p in cursors && cursors[p] < U64_LIMIT) && 0 < n <= |order|
    requires off + ENTRY_LEN * n <= |payload|
    requires payload[off + ENTRY_LEN * (n - 1)..off + ENTRY_LEN * n] == Entry(order[n - 1], cursors[order[n - 1]])
    requires ReadEntries(payload, off, n - 1) == Restricted(cursors, order[..n - 1])
    ensures ReadEntries(payload, off, n) == Restricted(cursors, order[..n])
  {
    EntryReadsBack(payload, off + ENTRY_LEN * (n - 1), order[n - 1], cursors[order[n - 1]]);
    RestrictedSnoc(cursors, order, n - 1);
  }

  lemma RestrictedSnoc(cursors: Cursors, order: seq<PeerId>, i: nat)
    requires i < |order| && forall p :: p in order ==> p in cursors
    ensures Restricted(cursors, order[..i + 1]) == Restricted(cursors, order[..i])[order[i] := cursors[order[i]]]
  {
    PrefixSnoc(order, i);
  }

  /** A Hello reads back as the same map, whatever order the map was visited in. */
  lemma HelloRoundTrip(sender: PeerId, cursors: Cursors, order: seq<PeerId>, rest: seq<byte>)
    requires Enumerates(order, cursors.Keys) && |order| < U32_LIMIT
    requires forall p :: p in cursors ==> cursors[p] < U64_LIMIT
    ensures DecodeHello(HelloPayload(sender, cursors, order).bytes + rest) == Ok(Hello(sender, cursors))
  {
    var payload := HelloPayload(sender, cursors, order).bytes + rest;
    Pow256Values();
    BigEndianRoundTrip(|order|, 4);
    assert payload[..32] == sender && payload[32..36] == ToBE(|order|, 4);
    assert payload[HELLO_HEADER..HELLO_HEADER + ENTRY_LEN * |order|] == Entries(cursors, order);
    EntriesReadBack(payload, HELLO_HEADER, cursors, order, |order|);
    assert order[..|order|] == order;
    assert Restricted(cursors, order) == cursors;
  }

  // ---- Delta -------------------------------------------------------------

  type Encoder = Frame -> Result<seq<byte>, WireError>
  type Decoder = seq<byte> -> Result<Frame, WireError>

  /** Length-prefixed frames; the first one that does not encode decides. */
  function FramesBytes(encode: Encoder, frames: seq<Frame>): Encoded
    decreases |frames|
  {
    if frames == [] then Bytes([])
    else
      match encode(frames[0])
      case Err(e) => Failed(BadFrame(e))
      case Ok(b) =>
        if |b| >= U32_LIMIT then Panicked
        else
          match FramesBytes(encode, frames[1..])
          case Bytes(rest) => Bytes(ToBE(|b|, 4) + b + rest)
          case other => other
  }

  function FrameList(encode: Encoder, frames: seq<Frame>): Encoded {
    if |frames| >= U32_LIMIT then Panicked
    else
      match FramesBytes(encode, frames)
      case Bytes(b) => Bytes(ToBE(|frames|, 4) + b)
      case other => other
  }

  function ReadFrames(decode: Decoder, payload: seq<byte>, off: nat, n: nat): Result<seq<Frame>, ProtocolError>
    requires off <= |payload|
    decreases n
  {
    if n == 0 then Ok([])
    else if |payload| < off + 4 then Err(ShortPayload(off + 4, |payload|))
    else
      var start := off + 4;
      var len := FromBE(payload[off..start]);
      if |payload| < start + len then Err(ShortPayload(start + len, |payload|))
      else
        match decode(payload[start..start + len])
        case Err(e) => Err(BadFrame(e))
        case Ok(f) =>
          var rest :- ReadFrames(decode, payload, start + len, n - 1);
          Ok([f] + rest)
  }

  function DecodeList(decode: Decoder, payload: seq<byte>): Result<Message, ProtocolError> {
    if |payload| < 4 then Err(ShortPayload(4, |payload|))
    else
      var frames :- ReadFrames(decode, payload, 4, FromBE(payload[..4]));
      Ok(Delta(frames))
  }

  function DeltaPayload(frames: seq<Frame>): Encoded {
    FrameList(Encode, frames)
  }

  function DecodeDelta(payload: seq<byte>): Result<Message, ProtocolError> {
    DecodeList(Decode, payload)
  }

  /** `done` put in front of what is still to come. */
  function After(done: seq<Frame>, r: Result<seq<Frame>, ProtocolError>): Result<seq<Frame>, ProtocolError> {
    match r
    case Ok(fs) => Ok(done + fs)
    case Err(e) => Err(e)
  }

  method ReadDelta(decode: Decoder, payload: seq<byte>) returns (r: Result<Message, ProtocolError>)
    ensures r == DecodeList(decode, payload)
  {
    if |payload| < 4 {
      return Err(ShortPayload(4, |payload|));
    }
    var count := FromBE(payload[..4]);
    var frames: seq<Frame> := [];
    var off: nat := 4;
    AfterNone(ReadFrames(decode, payload, off, count));
    for i := 0 to count
      invariant off <= |payload|
      invariant ReadFrames(decode, payload, 4, count) == After(frames, ReadFrames(decode, payload, off, count - i))
    {
      if |payload| < off + 4 {
        return Err(ShortPayload(off + 4, |payload|));
      }
      var len := FromBE(payload[off..off + 4]);
      off := off + 4;
      if |payload| < off + len {
        return Err(ShortPayload(off + len, |payload|));
      }
      var f := decode(payload[off..off + len]);
      if f.Err? {
        return Err(BadFrame(f.error));
      }
      AfterOne(frames, f.value, ReadFrames(decode, payload, off + len, count - i - 1));
      frames := frames + [f.value];
      off := off + len;
    }
    assert frames + [] == frames;
    return Ok(Delta(frames));
  }

  lemma AfterNone(r: Result<seq<Frame>, ProtocolError>)
    ensures After([], r) == r
  {
    assert r.Ok? ==> [] + r.value == r.value;
  }

  lemma AfterOne(done: seq<Frame>, f: Frame, r: Result<seq<Frame>, ProtocolError>)
    ensures After(done + [f], r) == After(done, if r.Ok? then Ok([f] + r.value) else r)
  {
    if r.Ok? {
      assert done + [f] + r.value == done + ([f] + r.value);
    }
  }

  function Appended(done: seq<byte>, r: Encoded): Encoded {
    if r.Bytes? then Bytes(done + r.bytes) else r
  }

  method EncodeDelta(encode: Encoder, frames: seq<Frame>) returns (r: Encoded)
    ensures r == FrameList(encode, frames)
  {
    if |frames| >= U32_LIMIT {
      return Panicked;
    }
    var payload := ToBE(|frames|, 4);
    assert frames[0..] == frames;
    for i := 0 to |frames|
      invariant Appended(payload, FramesBytes(encode, frames[i..])) == FrameList(encode, frames)
    {
      assert frames[i..][0] == frames[i] && frames[i..][1..] == frames[i + 1..];
      var bytes := encode(frames[i]);
      if bytes.Err? {
        return Failed(BadFrame(bytes.error));
      }
      if |bytes.value| >= U32_LIMIT {
        return Panicked;
      }
      var chunk := ToBE(|bytes.value|, 4) + bytes.value;
      AppendedOne(payload, chunk, FramesBytes(encode, frames[i + 1..]));
      payload := payload + chunk;
    }
    assert payload + [] == payload;
    return Bytes(payload);
  }

  lemma AppendedOne(done: seq<byte>, b: seq<byte>, r: Encoded)
    ensures Appended(done + b, r) == Appended(done, if r.Bytes? then Bytes(b + r.bytes) else r)
  {
    if r.Bytes? {
      assert done + b + r.bytes == done + (b + r.bytes);
    }
  }

  /** Where three parts lie in a payload that holds them at `off`. */
  lemma PartsAt<T>(payload: seq<T>, off: nat, a: seq<T>, b: seq<T>, c: seq<T>)
    requires off + |a| + |b| + |c| <= |payload|
    requires payload[off..off + |a + b + c|] == a + b + c
    ensures payload[off..off + |a|] == a && payload[off + |a|..off + |a| + |b|] == b
    ensures payload[off + |a| + |b|..off + |a| + |b| + |c|] == c
  {
    var whole := a + b + c;
    SubSlice(payload, off, whole, 0, |a|);
    SubSlice(payload, off, whole, |a|, |a| + |b|);
    SubSlice(payload, off, whole, |a| + |b|, |whole|);
    assert whole[0..|a|] == a && whole[|a|..|a| + |b|] == b && whole[|a| + |b|..|whole|] == c;
  }

  lemma LengthRoundTrip(n: nat)
    requires n < U32_LIMIT
    ensures |ToBE(n, 4)| == 4 && FromBE(ToBE(n, 4)) == n
  {
    Pow256Values();
    BigEndianRoundTrip(n, 4);
  }

  /** These frames survive the codec. */
  predicate Survives(encode: Encoder, decode: Decoder, f: Frame) {
    encode(f).Ok? ==> decode(encode(f).value) == Ok(f)
  }

  lemma {:induction false} FramesReadBack(encode: Encoder, decode: Decoder, payload: seq<byte>, off: nat,
                                          frames: seq<Frame>)
    requires (forall f :: f in frames ==> Survives(encode, decode, f)) && FramesBytes(encode, frames).Bytes?
    requires off + |FramesBytes(encode, frames).bytes| <= |payload|
    requires payload[off..off + |FramesBytes(encode, frames).bytes|] == FramesBytes(encode, frames).bytes
    ensures ReadFrames(decode, payload, off, |frames|) == Ok(frames)
    decreases |frames|
  {
    if frames != [] {
      var b, tail := encode(frames[0]).value, frames[1..];
      var rest := FramesBytes(encode, tail).bytes;
      assert Survives(encode, decode, frames[0]);
      PartsAt(payload, off, ToBE(|b|, 4), b, rest);
      FramesReadBack(encode, decode, payload, off + 4 + |b|, tail);
      FrameThenRest(decode, payload, off, b, frames[0], tail);
      assert [frames[0]] + tail == frames;
    }
  }

  lemma FrameThenRest(decode: Decoder, payload: seq<byte>, off: nat, b: seq<byte>, f: Frame, tail: seq<Frame>)
    requires |b| < U32_LIMIT && off + 4 + |b| <= |payload| && payload[off..off + 4] == ToBE(|b|, 4)
    requires payload[off + 4..off + 4 + |b|] == b && decode(b) == Ok(f)
    requires ReadFrames(decode, payload, off + 4 + |b|, |tail|) == Ok(tail)
    ensures ReadFrames(decode, payload, off, |tail| + 1) == Ok([f] + tail)
  {
    LengthRoundTrip(|b|);
  }

  lemma ListRoundTrip(encode: Encoder, decode: Decoder, frames: seq<Frame>, rest: seq<byte>)
    requires (forall f :: f in frames ==> Survives(encode, decode, f)) && FrameList(encode, frames).Bytes?
    ensures DecodeList(decode, FrameList(encode, frames).bytes + rest) == Ok(Delta(frames))
  {
    var payload := FrameList(encode, frames).bytes + rest;
    LengthRoundTrip(|frames|);
    assert payload[..4] == ToBE(|frames|, 4);
    assert payload[4..4 + |FramesBytes(encode, frames).bytes|] == FramesBytes(encode, frames).bytes;
    FramesReadBack(encode, decode, payload, 4, frames);
  }

  lemma DeltaRoundTrip(frames: seq<Frame>, rest: seq<byte>)
    requires (forall f :: f in frames ==> InRange(f)) && DeltaPayload(frames).Bytes?
    ensures DecodeDelta(DeltaPayload(frames).bytes + rest) == Ok(Delta(frames))
  {
    forall f | f in frames ensures Survives(Encode, Decode, f) {
      DecodeEncode(f, []);
      assert Encode(f).Ok? ==> Encode(f).value + [] == Encode(f).value;
    }
    ListRoundTrip(Encode, Decode, frames, rest);
  }

  /** A frame that passes the length check and whose encoding fits a 32-bit length. */
  predicate Fits(f: Frame) {
    LengthError(f.key, f.data).None? && EncodedLen(f) < U32_LIMIT
  }

  predicate AllFit(frames: seq<Frame>) {
    forall f :: f in frames ==> Fits(f)
  }

  lemma EncodeExactly(f: Frame)
    ensures Encode(f).Ok? <==> LengthError(f.key, f.data).None?
    ensures Encode(f).Ok? ==> |Encode(f).value| == EncodedLen(f)
    ensures Encode(f).Err? ==> LengthError(f.key, f.data) == Some(Encode(f).error)
  {
  }

  /** The first frame that does not fit. */
  predicate FirstUnfit(frames: seq<Frame>, k: nat) {
    k < |frames| && !Fits(frames[k]) && AllFit(frames[..k])
  }

  /** How the encoder stops at a frame that does not fit. */
  function Stopped(f: Frame): Encoded {
    match LengthError(f.key, f.data)
    case Some(e) => Failed(BadFrame(e))
    case None => Panicked
  }

  lemma {:induction false} FitFramesEncode(frames: seq<Frame>)
    requires AllFit(frames)
    ensures FramesBytes(Encode, frames).Bytes?
    decreases |frames|
  {
    if frames != [] {
      EncodeExactly(frames[0]);
      assert Fits(frames[0]);
      FitFramesEncode(frames[1..]);
    }
  }

  lemma {:induction false} FirstUnfitStops(frames: seq<Frame>, k: nat)
    requires FirstUnfit(frames, k)
    ensures FramesBytes(Encode, frames) == Stopped(frames[k])
    decreases |frames|
  {
    EncodeExactly(frames[0]);
    if k > 0 {
      assert frames[0] in frames[..k] && frames[1..][k - 1] == frames[k];
      assert frames[1..][..k - 1] == frames[..k][1..];
      FirstUnfitStops(frames[1..], k - 1);
    }
  }

  lemma {:induction false} SomeFirstUnfit(frames: seq<Frame>) returns (k: nat)
    requires !AllFit(frames)
    ensures FirstUnfit(frames, k)
  {
    var front := frames[..|frames| - 1];
    if AllFit(front) {
      k := |frames| - 1;
      assert frames == front + [frames[k]];
    } else {
      k := SomeFirstUnfit(front);
      assert front[..k] == frames[..k];
    }
  }

  lemma UnfitIsUnfit(frames: seq<Frame>, k: nat)
    requires FirstUnfit(frames, k)
    ensures !AllFit(frames)
  {
    assert frames[k] in frames;
  }

  /**
   * A delta is encoded exactly when the count fits 32 bits and every frame fits. Otherwise the count, or the first
   * frame that does not fit, decides: names or data over their limits are reported, everything else panics.
   */
  lemma DeltaExactly(frames: seq<Frame>)
    ensures DeltaPayload(frames).Bytes? <==> |frames| < U32_LIMIT && AllFit(frames)
    ensures DeltaPayload(frames).Panicked? <==>
      || |frames| >= U32_LIMIT
      || exists k: nat :: FirstUnfit(frames, k) && LengthError(frames[k].key, frames[k].data).None?
    ensures forall e :: DeltaPayload(frames) == Failed(BadFrame(e)) <==>
      && |frames| < U32_LIMIT
      && exists k: nat :: FirstUnfit(frames, k) && LengthError(frames[k].key, frames[k].data) == Some(e)
    ensures DeltaPayload(frames).Failed? ==> DeltaPayload(frames).error.BadFrame?
  {
    forall k: nat | FirstUnfit(frames, k) ensures FramesBytes(Encode, frames) == Stopped(frames[k]) && !AllFit(frames) {
      FirstUnfitStops(frames, k);
      UnfitIsUnfit(frames, k);
    }
    if AllFit(frames) {
      FitFramesEncode(frames);
    } else {
      var k := SomeFirstUnfit(frames);
      FirstUnfitStops(frames, k);
    }
  }

  /** The length check alone is not enough: the longest data it admits makes the encoder panic. */
  lemma LongFramePanics(f: Frame)
    requires LengthError(f.key, f.data).None? && |f.data| == U32_LIMIT - 1
    ensures DeltaPayload([f]) == Panicked
  {
    assert [f][..0] == [] && FirstUnfit([f], 0);
    DeltaExactly([f]);
  }

  // ---- messages on a stream ----------------------------------------------

  ghost predicate Sendable(m: Message, order: seq<PeerId>) {
    match m
    case Hello(_, cursors) => Enumerates(order, cursors.Keys) && forall p :: p in cursors ==> cursors[p] < U64_LIMIT
    case Delta(frames) => forall f :: f in frames ==> InRange(f)
  }

  function Payload(m: Message, order: seq<PeerId>): Encoded
    requires m.Hello? ==> forall p :: p in order ==> p in m.cursors
  {
    match m
    case Hello(sender, cursors) => HelloPayload(sender, cursors, order)
    case Delta(frames) => DeltaPayload(frames)
  }

  /** `write_message`: type, length, payload. */
  function Written(m: Message, order: seq<PeerId>): Encoded
    requires m.Hello? ==> forall p :: p in order ==> p in m.cursors
  {
    match Payload(m, order)
    case Bytes(payload) =>
      if |payload| >= U32_LIMIT then Failed(TooLarge(|payload|))
      else Bytes([if m.Hello? then MSG_HELLO else MSG_DELTA] + ToBE(|payload|, 4) + payload)
    case other => other
  }

  /** `read_message`: the message and what is left of the stream. */
  function ReadMessage(stream: seq<byte>): Result<(Message, seq<byte>), ProtocolError> {
    if |stream| < 5 then Err(Eof)
    else
      var len := FromBE(stream[1..5]);
      if len > MAX_MESSAGE_LEN then Err(TooLarge(len))
      else if |stream| < 5 + len then Err(Eof)
      else
        var payload := stream[5..5 + len];
        var m :- if stream[0] == MSG_HELLO then DecodeHello(payload)
                 else if stream[0] == MSG_DELTA then DecodeDelta(payload)
                 else Err(BadType(stream[0]));
        Ok((m, stream[5 + len..]))
  }

  lemma PayloadRoundTrip(m: Message, order: seq<PeerId>)
    requires Sendable(m, order) && Payload(m, order).Bytes?
    ensures var p := Payload(m, order).bytes; (if m.Hello? then DecodeHello(p) else DecodeDelta(p)) == Ok(m)
  {
    var p := Payload(m, order).bytes;
    assert p + [] == p;
    match m
    case Hello(sender, cursors) => HelloRoundTrip(sender, cursors, order, []);
    case Delta(frames) => DeltaRoundTrip(frames, []);
  }

  lemma HeadOfStream(kind: byte, payload: seq<byte>, rest: seq<byte>)
    requires |payload| < U32_LIMIT
    ensures var stream := [kind] + ToBE(|payload|, 4) + payload + rest;
      && |stream| == 5 + |payload| + |rest| && stream[0] == kind && FromBE(stream[1..5]) == |payload|
      && stream[5..5 + |payload|] == payload && stream[5 + |payload|..] == rest
  {
    var stream := [kind] + ToBE(|payload|, 4) + payload + rest;
    assert stream[1..5] == ToBE(|payload|, 4);
    Pow256Values();
    BigEndianRoundTrip(|payload|, 4);
  }

  /**
   * What the writer accepts, the reader takes back and leaves the rest of the stream, except that payloads
   * over 64 MiB, which the writer does send, are refused.
   */
  lemma MessageRoundTrip(m: Message, order: seq<PeerId>, rest: seq<byte>)
    requires Sendable(m, order) && Written(m, order).Bytes?
    ensures var len := |Payload(m, order).bytes|;
      ReadMessage(Written(m, order).bytes + rest) ==
      if len <= MAX_MESSAGE_LEN then Ok((m, rest)) else Err(TooLarge(len))
  {
    PayloadRoundTrip(m, order);
    HeadOfStream(if m.Hello? then MSG_HELLO else MSG_DELTA, Payload(m, order).bytes, rest);
  }

  lemma OneFramePayload(f: Frame)
    requires Fits(f)
    ensures DeltaPayload([f]).Bytes? && |DeltaPayload([f]).bytes| == 8 + EncodedLen(f)
  {
    EncodeExactly(f);
    assert [f][1..] == [];
    assert FramesBytes(Encode, [f]) == Bytes(ToBE(EncodedLen(f), 4) + Encode(f).value + []);
  }

  /** Such a payload: one frame with 64 MiB of data is written and then refused. */
  lemma LongMessageRefused(f: Frame, rest: seq<byte>)
    requires LengthError(f.key, f.data).None? && |f.data| == MAX_MESSAGE_LEN
    ensures Written(Delta([f]), []).Bytes?
    ensures ReadMessage(Written(Delta([f]), []).bytes + rest) == Err(TooLarge(8 + EncodedLen(f)))
  {
    OneFramePayload(f);
    HeadOfStream(MSG_DELTA, DeltaPayload([f]).bytes, rest);
  }

  function WrittenAll(ms: seq<Message>, orders: seq<seq<PeerId>>): seq<byte>
    requires |ms| == |orders| && forall i :: 0 <= i < |ms| ==> WithinLimit(ms[i], orders[i])
    decreases |ms|
  {
    if ms == [] then []
    else
      assert WithinLimit(ms[0], orders[0]);
      Written(ms[0], orders[0]).bytes + WrittenAll(ms[1..], orders[1..])
  }

  /** The writer accepts the message and the reader will too. */
  predicate WithinLimit(m: Message, order: seq<PeerId>) {
    && (m.Hello? ==> forall p :: p in order ==> p in m.cursors)
    && Written(m, order).Bytes? && |Payload(m, order).bytes| <= MAX_MESSAGE_LEN
  }

  function ReadAll(stream: seq<byte>, n: nat): Result<(seq<Message>, seq<byte>), ProtocolError> {
    if n == 0 then Ok(([], stream))
    else
      var first :- ReadMessage(stream);
      var more :- ReadAll(first.1, n - 1);
      Ok(([first.0] + more.0, more.1))
  }

  /** A run of messages within the limit reads back as the same list, and nothing of what follows is consumed. */
  lemma {:induction false} StreamRoundTrip(ms: seq<Message>, orders: seq<seq<PeerId>>, rest: seq<byte>)
    requires |ms| == |orders|
    requires forall i :: 0 <= i < |ms| ==> Sendable(ms[i], orders[i]) && WithinLimit(ms[i], orders[i])
    ensures ReadAll(WrittenAll(ms, orders) + rest, |ms|) == Ok((ms, rest))
    decreases |ms|
  {
    if ms == [] {
      assert WrittenAll(ms, orders) + rest == rest;
    } else {
      var tail := WrittenAll(ms[1..], orders[1..]);
      StreamRoundTrip(ms[1..], orders[1..], rest);
      FirstOfMany(ms[0], orders[0], tail, rest);
      ReadOneMore(WrittenAll(ms, orders) + rest, ms[0], tail + rest, ms[1..], rest);
      assert [ms[0]] + ms[1..] == ms;
    }
  }

  lemma FirstOfMany(m: Message, order: seq<PeerId>, tail: seq<byte>, rest: seq<byte>)
    requires Sendable(m, order) && WithinLimit(m, order)
    ensures ReadMessage(Written(m, order).bytes + tail + rest) == Ok((m, tail + rest))
  {
    var head := Written(m, order).bytes;
    assert head + tail + rest == head + (tail + rest);
    MessageRoundTrip(m, order, tail + rest);
  }

  lemma ReadOneMore(stream: seq<byte>, m: Message, after: seq<byte>, more: seq<Message>, rest: seq<byte>)
    requires ReadMessage(stream) == Ok((m, after)) && ReadAll(after, |more|) == Ok((more, rest))
    ensures ReadAll(stream, |more| + 1) == Ok(([m] + more, rest))
  {
  }
}
