/** STUN and TURN messages: header, attributes, integrity and fingerprint. */
module TurnMessage {
  import opened Bytes
  import opened Bits
  import Clock
  import opened Text
  import opened Wire
  import opened Tlv
  import opened Addresses
  import opened Attributes

  const MESSAGE_HEADER := 20
  const FINGERPRINT_XOR := 0x5354_554E

  datatype Class = Request | Indication | Success | Error

  datatype Message = Message(kind: nat, cls: Class, txn: TxnId, attributes: seq<Attribute>)

  /** HMAC-SHA1, CRC-32 and lossy UTF-8 conversion. */
  datatype Primitives = Primitives(
    hmac: (seq<byte>, seq<byte>) -> Mac,
    crc: seq<byte> -> Clock.u32,
    lossy: seq<byte> -> Text)

  // ---- message types -----------------------------------------------------

  function ClassBits(c: Class): nat {
    match c case Request => 0 case Indication => 1 case Success => 2 case Error => 3
  }

  function ClassFrom(bits: nat): Class {
    if bits % 4 == 0 then Request else if bits % 4 == 1 then Indication else if bits % 4 == 2 then Success else Error
  }

  /** The two class bits sit between bits 3 and 4 and between bits 6 and 7 of the method. */
  function TypeBits(kind: nat, c: Class): nat {
    var bits := ClassBits(c);
    (kind / 128 % 32) * 512 + (bits / 2) * 256 + (kind / 16 % 8) * 32 + (bits % 2) * 16 + kind % 16
  }

  function KindOf(raw: nat): nat {
    (raw / 512 % 32) * 128 + (raw / 32 % 8) * 16 + raw % 16
  }

  function ClassOf(raw: nat): Class {
    ClassFrom((raw / 256 % 2) * 2 + raw / 16 % 2)
  }

  /** Types round trip for twelve-bit methods, and never use the two bits that tell STUN from channel data. */
  lemma TypeRoundTrip(kind: nat, c: Class)
    requires kind < 0x1000
    ensures var raw := TypeBits(kind, c); raw < 0x4000 && KindOf(raw) == kind && ClassOf(raw) == c
  {
    var bits := ClassBits(c);
    var a, b, d := kind / 128, kind / 16 % 8, kind % 16;
    Parts(a, b, d, kind);
    Interleaved(a, bits / 2, b, bits % 2, d);
    ClassRoundTrip(c);
    assert TypeBits(kind, c) == a * 512 + bits / 2 * 256 + b * 32 + bits % 2 * 16 + d;
  }

  lemma ClassRoundTrip(c: Class)
    ensures ClassFrom(ClassBits(c) / 2 * 2 + ClassBits(c) % 2) == c
  {
  }

  lemma Parts(a: nat, b: nat, d: nat, kind: nat)
    requires kind < 0x1000 && a == kind / 128 && b == kind / 16 % 8 && d == kind % 16
    ensures a < 32 && a * 128 + b * 16 + d == kind
  {
    assert kind / 16 == a * 8 + b;
  }

  lemma Interleaved(a: nat, c1: nat, b: nat, c0: nat, d: nat)
    requires a < 32 && c1 < 2 && b < 8 && c0 < 2 && d < 16
    ensures var raw := a * 512 + c1 * 256 + b * 32 + c0 * 16 + d;
      && raw < 0x4000 && raw / 512 % 32 == a && raw / 256 % 2 == c1
      && raw / 32 % 8 == b && raw / 16 % 2 == c0 && raw % 16 == d
  {
    var raw := a * 512 + c1 * 256 + b * 32 + c0 * 16 + d;
    assert raw / 512 == a;
    assert raw / 256 == a * 2 + c1;
    assert raw / 32 == a * 16 + c1 * 8 + b;
    assert raw / 16 == a * 32 + c1 * 16 + b * 2 + c0;
  }

  // ---- encoding ----------------------------------------------------------

  function Head(m: Message, len: nat): (b: seq<byte>)
    ensures |b| == MESSAGE_HEADER
  {
    ToBE(TypeBits(m.kind, m.cls), 2) + ToBE(len % U16_LIMIT, 2) + COOKIE_BYTES + m.txn
  }

  predicate RepresentableAll(attributes: seq<Attribute>) {
    forall a :: a in attributes ==> Representable(a)
  }

  predicate WellFormedAll(attributes: seq<Attribute>) {
    forall a :: a in attributes ==> WellFormed(a)
  }

  function Raws(attributes: seq<Attribute>, txn: TxnId): (r: seq<Raw>)
    requires RepresentableAll(attributes)
    ensures |r| == |attributes| && forall i :: 0 <= i < |r| ==> r[i] == RawOf(attributes[i], txn)
  {
    if attributes == [] then []
    else Raws(attributes[..|attributes| - 1], txn) + [RawOf(attributes[|attributes| - 1], txn)]
  }

  /** The authenticator over everything before it, with the length already counting it. */
  function MacFor(p: Primitives, m: Message, key: seq<byte>, body: seq<byte>): Mac {
    p.hmac(key, Head(m, |body| + 24) + body)
  }

  function CrcFor(p: Primitives, m: Message, body: seq<byte>): (crc: nat)
    ensures crc < U32_LIMIT
  {
    var sum := p.crc(Head(m, |body| + 8) + body);
    Pow2Values();
    XorBound(sum, FINGERPRINT_XOR, 32);
    Xor(sum, FINGERPRINT_XOR)
  }

  /** The attributes that a keyed or fingerprinted encoding appends. */
  function Signed(p: Primitives, m: Message, key: Option<seq<byte>>): (r: seq<Attribute>)
    requires RepresentableAll(m.attributes)
    ensures RepresentableAll(r)
  {
    if key.None? then m.attributes
    else m.attributes + [MessageIntegrity(MacFor(p, m, key.value, Body(Raws(m.attributes, m.txn))))]
  }

  function Final(p: Primitives, m: Message, key: Option<seq<byte>>, fingerprint: bool): (r: seq<Attribute>)
    requires RepresentableAll(m.attributes)
    ensures RepresentableAll(r)
  {
    var signed := Signed(p, m, key);
    if fingerprint then signed + [Fingerprint(CrcFor(p, m, Body(Raws(signed, m.txn))))] else signed
  }

  function Encoded(p: Primitives, m: Message, key: Option<seq<byte>>, fingerprint: bool): seq<byte>
    requires RepresentableAll(m.attributes)
  {
    var body := Body(Raws(Final(p, m, key, fingerprint), m.txn));
    Head(m, |body|) + body
  }

  function SetLength(buf: seq<byte>, len: nat): seq<byte>
    requires |buf| >= 4
  {
    buf[..2] + ToBE(len % U16_LIMIT, 2) + buf[4..]
  }

  lemma LengthRewritten(m: Message, len: nat, body: seq<byte>, len': nat)
    ensures SetLength(Head(m, len) + body, len') == Head(m, len') + body
  {
    Rewrite(ToBE(TypeBits(m.kind, m.cls), 2), ToBE(len % U16_LIMIT, 2), COOKIE_BYTES + m.txn, body,
            ToBE(len' % U16_LIMIT, 2));
    assert Head(m, len) == ToBE(TypeBits(m.kind, m.cls), 2) + ToBE(len % U16_LIMIT, 2) + (COOKIE_BYTES + m.txn);
    assert Head(m, len') == ToBE(TypeBits(m.kind, m.cls), 2) + ToBE(len' % U16_LIMIT, 2) + (COOKIE_BYTES + m.txn);
  }

  lemma Rewrite<T>(a: seq<T>, b: seq<T>, c: seq<T>, d: seq<T>, b': seq<T>)
    requires |a| == 2 && |b| == 2
    ensures (a + b + c + d)[..2] + b' + (a + b + c + d)[4..] == a + b' + c + d
  {
  }

  lemma RawsSnoc(attributes: seq<Attribute>, a: Attribute, txn: TxnId)
    requires RepresentableAll(attributes) && Representable(a)
    ensures RepresentableAll(attributes + [a])
    ensures Body(Raws(attributes + [a], txn)) == Body(Raws(attributes, txn)) + Chunk(RawOf(a, txn))
  {
    assert (attributes + [a])[..|attributes|] == attributes;
    BodyConcat(Raws(attributes, txn), [RawOf(a, txn)]);
    BodyOne(RawOf(a, txn));
  }

  lemma PushOne(m: Message, len: nat, attributes: seq<Attribute>, a: Attribute)
    requires RepresentableAll(attributes) && Representable(a)
    ensures RepresentableAll(attributes + [a])
    ensures Head(m, len) + Body(Raws(attributes, m.txn)) + Chunk(RawOf(a, m.txn)) ==
      Head(m, len) + Body(Raws(attributes + [a], m.txn))
  {
    RawsSnoc(attributes, a, m.txn);
    Associate(Head(m, len), Body(Raws(attributes, m.txn)), Chunk(RawOf(a, m.txn)));
  }

  lemma Associate<T>(a: seq<T>, b: seq<T>, c: seq<T>)
    ensures a + b + c == a + (b + c)
  {
  }

  /** `encode`: the buffer grows attribute by attribute and its length field is rewritten before each digest. */
  method Encode(p: Primitives, m: Message, key: Option<seq<byte>>, fingerprint: bool) returns (buf: seq<byte>)
    requires RepresentableAll(m.attributes)
    ensures buf == Encoded(p, m, key, fingerprint)
  {
    buf := EncodeAttributes(m);
    ghost var done := m.attributes;
    if key.Some? {
      var through := |buf| - MESSAGE_HEADER + 24;
      LengthRewritten(m, 0, Body(Raws(done, m.txn)), through);
      buf := SetLength(buf, through);
      var mac := MessageIntegrity(p.hmac(key.value, buf));
      PushOne(m, through, done, mac);
      buf := buf + Chunk(RawOf(mac, m.txn));
      done := done + [mac];
    }
    ghost var len := if key.Some? then |Body(Raws(m.attributes, m.txn))| + 24 else 0;
    assert done == Signed(p, m, key) && buf == Head(m, len) + Body(Raws(done, m.txn));
    buf := Finish(p, m, buf, fingerprint, len, done);
  }

  method EncodeAttributes(m: Message) returns (buf: seq<byte>)
    requires RepresentableAll(m.attributes)
    ensures buf == Head(m, 0) + Body(Raws(m.attributes, m.txn))
  {
    buf := Head(m, 0);
    for i := 0 to |m.attributes|
      invariant buf == Head(m, 0) + Body(Raws(m.attributes[..i], m.txn))
    {
      PrefixSnoc(m.attributes, i);
      PushOne(m, 0, m.attributes[..i], m.attributes[i]);
      buf := buf + Chunk(RawOf(m.attributes[i], m.txn));
    }
    assert m.attributes[..|m.attributes|] == m.attributes;
  }

  /** The fingerprint, if asked for, and the final length. */
  method Finish(p: Primitives, m: Message, start: seq<byte>, fingerprint: bool, ghost len: nat,
                ghost done: seq<Attribute>)
    returns (buf: seq<byte>)
    requires RepresentableAll(done) && start == Head(m, len) + Body(Raws(done, m.txn))
    ensures var all := if fingerprint then done + [Fingerprint(CrcFor(p, m, Body(Raws(done, m.txn))))] else done;
      RepresentableAll(all) && buf == Head(m, |Body(Raws(all, m.txn))|) + Body(Raws(all, m.txn))
  {
    buf := start;
    ghost var all, l := done, len;
    if fingerprint {
      var through := |buf| - MESSAGE_HEADER + 8;
      LengthRewritten(m, len, Body(Raws(done, m.txn)), through);
      buf := SetLength(buf, through);
      Pow2Values();
      XorBound(p.crc(buf), FINGERPRINT_XOR, 32);
      var crc := Fingerprint(Xor(p.crc(buf), FINGERPRINT_XOR));
      PushOne(m, through, done, crc);
      buf := buf + Chunk(RawOf(crc, m.txn));
      all, l := done + [crc], through;
    }
    LengthRewritten(m, l, Body(Raws(all, m.txn)), |buf| - MESSAGE_HEADER);
    buf := SetLength(buf, |buf| - MESSAGE_HEADER);
  }

  // ---- decoding ----------------------------------------------------------

  type Parser = Raw -> Result<Attribute, TurnError>

  function ParserFor(txn: TxnId, lossy: seq<byte> -> Text): Parser {
    raw => AttributeFrom(raw, txn, lossy)
  }

  /** The attributes met on a walk over a body of `n` bytes. */
  function DecodeItems(scan: Scan, parse: Parser, n: nat): Result<seq<Attribute>, TurnError> {
    match scan
    case Stop(at) => if at == n then Ok([]) else Err(TrailingBytes)
    case Overrun => Err(AttributeExceedsMessage)
    case Item(_, raw, rest) =>
      var a :- parse(raw);
      var more :- DecodeItems(rest, parse, n);
      Ok([a] + more)
  }

  function Decoded(p: Primitives, buf: seq<byte>): Result<Message, TurnError> {
    if |buf| < MESSAGE_HEADER then Err(ShortMessage)
    else
      var raw, len := FromBE(buf[..2]), FromBE(buf[2..4]);
      if raw >= 0x4000 then Err(NotStun)
      else if buf[4..8] != COOKIE_BYTES then Err(BadCookie)
      else if MESSAGE_HEADER + len > |buf| then Err(LengthExceedsBuffer)
      else
        var txn, body := buf[8..20], buf[MESSAGE_HEADER..MESSAGE_HEADER + len];
        var attributes :- DecodeItems(ScanFrom(body, 0), ParserFor(txn, p.lossy), len);
        Ok(Message(KindOf(raw), ClassOf(raw), txn, attributes))
  }

  function After(done: seq<Attribute>, r: Result<seq<Attribute>, TurnError>): Result<seq<Attribute>, TurnError> {
    if r.Ok? then Ok(done + r.value) else r
  }

  lemma AfterOne(done: seq<Attribute>, a: Attribute, r: Result<seq<Attribute>, TurnError>)
    ensures After([], r) == r
    ensures After(done + [a], r) == After(done, After([a], r))
  {
    if r.Ok? {
      assert done + [a] + r.value == done + ([a] + r.value);
      assert [] + r.value == r.value;
    }
  }

  method DecodeAttributes(body: seq<byte>, parse: Parser) returns (r: Result<seq<Attribute>, TurnError>)
    ensures r == DecodeItems(ScanFrom(body, 0), parse, |body|)
  {
    var attributes: seq<Attribute> := [];
    var offset: nat := 0;
    ghost var all := DecodeItems(ScanFrom(body, 0), parse, |body|);
    AfterOne([], DontFragment, all);
    while offset + 4 <= |body|
      invariant offset <= |body| + 3
      invariant all == After(attributes, DecodeItems(ScanFrom(body, offset), parse, |body|))
      decreases |body| + 4 - offset
    {
      var typ, len := FromBE(body[offset..offset + 2]), FromBE(body[offset + 2..offset + 4]);
      offset := offset + 4;
      if offset + len > |body| {
        return Err(AttributeExceedsMessage);
      }
      var a := parse(Raw(typ, body[offset..offset + len]));
      if a.Err? {
        return Err(a.error);
      }
      offset := offset + len + Pad(len);
      AfterOne(attributes, a.value, DecodeItems(ScanFrom(body, offset), parse, |body|));
      attributes := attributes + [a.value];
    }
    if offset != |body| {
      return Err(TrailingBytes);
    }
    assert attributes + [] == attributes;
    return Ok(attributes);
  }

  method Decode(p: Primitives, buf: seq<byte>) returns (r: Result<Message, TurnError>)
    ensures r == Decoded(p, buf)
  {
    if |buf| < MESSAGE_HEADER {
      return Err(ShortMessage);
    }
    var raw := FromBE(buf[..2]);
    if raw >= 0x4000 {
      return Err(NotStun);
    }
    if buf[4..8] != COOKIE_BYTES {
      return Err(BadCookie);
    }
    var len := FromBE(buf[2..4]);
    if MESSAGE_HEADER + len > |buf| {
      return Err(LengthExceedsBuffer);
    }
    var attributes := DecodeAttributes(buf[MESSAGE_HEADER..MESSAGE_HEADER + len], ParserFor(buf[8..20], p.lossy));
    if attributes.Err? {
      return Err(attributes.error);
    }
    return Ok(Message(KindOf(raw), ClassOf(raw), buf[8..20], attributes.value));
  }

  predicate Parses(parse: Parser, raw: Raw, a: Attribute) {
    parse(raw) == Ok(a)
  }

  ghost predicate ParsesAll(parse: Parser, raws: seq<Raw>, attributes: seq<Attribute>) {
    |raws| == |attributes| && forall i :: 0 <= i < |raws| ==> Parses(parse, raws[i], attributes[i])
  }

  lemma ParsesCons(parse: Parser, raws: seq<Raw>, attributes: seq<Attribute>)
    requires |raws| == |attributes| > 0
    ensures ParsesAll(parse, raws, attributes) <==>
      Parses(parse, raws[0], attributes[0]) && ParsesAll(parse, raws[1..], attributes[1..])
  {
    if Parses(parse, raws[0], attributes[0]) && ParsesAll(parse, raws[1..], attributes[1..]) {
      forall i | 0 <= i < |raws| ensures Parses(parse, raws[i], attributes[i]) {
        if i > 0 {
          assert Parses(parse, raws[1..][i - 1], attributes[1..][i - 1]);
        }
      }
    }
  }

  lemma DecodeOne(at: nat, raw: Raw, rest: Scan, parse: Parser, n: nat, a: Attribute, more: seq<Attribute>)
    ensures DecodeItems(Item(at, raw, rest), parse, n) == Ok([a] + more) <==>
      Parses(parse, raw, a) && DecodeItems(rest, parse, n) == Ok(more)
  {
    if DecodeItems(Item(at, raw, rest), parse, n) == Ok([a] + more) {
      var b, others := parse(raw).value, DecodeItems(rest, parse, n).value;
      assert [b] + others == [a] + more;
      assert ([b] + others)[0] == b && ([b] + others)[1..] == others && ([a] + more)[1..] == more;
    }
  }

  /** A body decodes to these attributes exactly when each of its parts does. */
  lemma {:induction false} ItemsDecode(parse: Parser, raws: seq<Raw>, attributes: seq<Attribute>, at: nat, n: nat)
    requires |raws| == |attributes| && n == at + |Body(raws)|
    ensures DecodeItems(ItemsOf(raws, at), parse, n) == Ok(attributes) <==> ParsesAll(parse, raws, attributes)
    decreases |raws|
  {
    if raws != [] {
      var next := at + Size(raws[0]);
      ItemsDecode(parse, raws[1..], attributes[1..], next, n);
      DecodeOne(at, raws[0], ItemsOf(raws[1..], next), parse, n, attributes[0], attributes[1..]);
      ParsesCons(parse, raws, attributes);
      assert [attributes[0]] + attributes[1..] == attributes;
    }
  }

  /** Each attribute comes back as itself exactly when all are well formed. */
  lemma AllParse(attributes: seq<Attribute>, txn: TxnId, lossy: seq<byte> -> Text)
    requires RepresentableAll(attributes) && KeepsText(lossy)
    ensures ParsesAll(ParserFor(txn, lossy), Raws(attributes, txn), attributes) <==> WellFormedAll(attributes)
  {
    var parse, raws := ParserFor(txn, lossy), Raws(attributes, txn);
    forall i | 0 <= i < |attributes| ensures Parses(parse, raws[i], attributes[i]) <==> WellFormed(attributes[i]) {
      OneParses(attributes[i], txn, lossy);
    }
    if WellFormedAll(attributes) {
      forall i | 0 <= i < |attributes| ensures WellFormed(attributes[i]) {
      }
    } else {
      var a :| a in attributes && !WellFormed(a);
      var i :| 0 <= i < |attributes| && attributes[i] == a;
      assert !Parses(parse, raws[i], attributes[i]);
    }
  }

  lemma OneParses(a: Attribute, txn: TxnId, lossy: seq<byte> -> Text)
    requires Representable(a) && KeepsText(lossy)
    ensures Parses(ParserFor(txn, lossy), RawOf(a, txn), a) <==> WellFormed(a)
  {
    AttributeRoundTrip(a, txn, lossy);
  }

  lemma {:induction false} RawsFit(attributes: seq<Attribute>, txn: TxnId, i: nat)
    requires RepresentableAll(attributes) && i < |attributes| && |Body(Raws(attributes, txn))| < U16_LIMIT
    ensures Tlv.Valid(Raws(attributes, txn)[i])
  {
    var front, last := attributes[..|attributes| - 1], attributes[|attributes| - 1];
    assert front + [last] == attributes;
    RawsSnoc(front, last, txn);
    if i < |front| {
      RawsFit(front, txn, i);
    }
  }

  /** Where the fields of a message lie. */
  lemma HeadFields(m: Message, len: nat, body: seq<byte>)
    requires m.kind < 0x1000 && len < U16_LIMIT
    ensures var buf := Head(m, len) + body;
      && FromBE(buf[..2]) == TypeBits(m.kind, m.cls) && FromBE(buf[2..4]) == len
      && buf[4..8] == COOKIE_BYTES && buf[8..20] == m.txn && buf[MESSAGE_HEADER..] == body
  {
    TypeRoundTrip(m.kind, m.cls);
    HeadParts(TypeBits(m.kind, m.cls), len, m.txn, body);
  }

  lemma HeadParts(raw: nat, len: nat, txn: TxnId, body: seq<byte>)
    requires raw < U16_LIMIT && len < U16_LIMIT
    ensures var buf := ToBE(raw, 2) + ToBE(len % U16_LIMIT, 2) + COOKIE_BYTES + txn + body;
      && FromBE(buf[..2]) == raw && FromBE(buf[2..4]) == len
      && buf[4..8] == COOKIE_BYTES && buf[8..20] == txn && buf[MESSAGE_HEADER..] == body
  {
    ShortRoundTrip(raw);
    ShortRoundTrip(len);
    FiveParts(ToBE(raw, 2), ToBE(len % U16_LIMIT, 2), COOKIE_BYTES, txn, body);
  }

  lemma FiveParts<T>(a: seq<T>, b: seq<T>, c: seq<T>, d: seq<T>, e: seq<T>)
    requires |a| == 2 && |b| == 2 && |c| == 4 && |d| == 12
    ensures var s := a + b + c + d + e; s[..2] == a && s[2..4] == b && s[4..8] == c && s[8..20] == d && s[20..] == e
  {
  }

  /** A message that the format can carry: a twelve-bit method and a body under 64 KiB. */
  predicate Encodable(p: Primitives, m: Message, key: Option<seq<byte>>, fingerprint: bool) {
    && m.kind < 0x1000 && RepresentableAll(m.attributes)
    && |Body(Raws(Final(p, m, key, fingerprint), m.txn))| < U16_LIMIT
  }

  /** The body of an encoded message and the walk over it, whatever follows the message. */
  lemma EncodedFields(p: Primitives, m: Message, key: Option<seq<byte>>, fingerprint: bool, rest: seq<byte>)
    requires Encodable(p, m, key, fingerprint)
    ensures var buf, raws := Encoded(p, m, key, fingerprint) + rest, Raws(Final(p, m, key, fingerprint), m.txn);
      && |buf| == MESSAGE_HEADER + |Body(raws)| + |rest|
      && FromBE(buf[..2]) == TypeBits(m.kind, m.cls) && FromBE(buf[2..4]) == |Body(raws)|
      && buf[4..8] == COOKIE_BYTES && buf[8..20] == m.txn
      && buf[MESSAGE_HEADER..MESSAGE_HEADER + |Body(raws)|] == Body(raws)
      && ScanFrom(Body(raws), 0) == ItemsOf(raws, 0)
  {
    var attributes := Final(p, m, key, fingerprint);
    var raws := Raws(attributes, m.txn);
    var body := Body(raws);
    Associate(Head(m, |body|), body, rest);
    HeadFields(m, |body|, body + rest);
    SplitAt(Head(m, |body|) + (body + rest), MESSAGE_HEADER, body, rest);
    forall r | r in raws ensures Tlv.Valid(r) {
      var i :| 0 <= i < |raws| && raws[i] == r;
      RawsFit(attributes, m.txn, i);
    }
    ScanBody(body, 0, raws);
  }

  /** The attributes an encoding appends are well formed. */
  lemma AppendedAreWellFormed(p: Primitives, m: Message, key: Option<seq<byte>>, fingerprint: bool)
    requires RepresentableAll(m.attributes)
    ensures WellFormedAll(Final(p, m, key, fingerprint)) <==> WellFormedAll(m.attributes)
  {
    var all := Final(p, m, key, fingerprint);
    assert all[..|m.attributes|] == m.attributes;
    forall i | |m.attributes| <= i < |all| ensures WellFormed(all[i]) {
    }
    forall a | a in m.attributes ensures a in all {
      assert a in all[..|m.attributes|];
    }
  }

  /**
   * Decoding an encoded message gives its attributes, followed by the ones the encoding appended, exactly when
   * its attributes are well formed.
   */
  lemma DecodeEncode(p: Primitives, m: Message, key: Option<seq<byte>>, fingerprint: bool, rest: seq<byte>)
    requires Encodable(p, m, key, fingerprint) && KeepsText(p.lossy)
    ensures var back := m.(attributes := Final(p, m, key, fingerprint));
      Decoded(p, Encoded(p, m, key, fingerprint) + rest) == Ok(back) <==> WellFormedAll(m.attributes)
  {
    var all, raws := Final(p, m, key, fingerprint), Raws(Final(p, m, key, fingerprint), m.txn);
    EncodedFields(p, m, key, fingerprint, rest);
    AllDecode(all, m.txn, p.lossy);
    AppendedAreWellFormed(p, m, key, fingerprint);
    DecodedOf(p, Encoded(p, m, key, fingerprint) + rest, m, Body(raws), all);
  }

  lemma AllDecode(all: seq<Attribute>, txn: TxnId, lossy: seq<byte> -> Text)
    requires RepresentableAll(all) && KeepsText(lossy)
    ensures DecodeItems(ItemsOf(Raws(all, txn), 0), ParserFor(txn, lossy), |Body(Raws(all, txn))|) == Ok(all) <==>
      WellFormedAll(all)
  {
    AllParse(all, txn, lossy);
    ItemsDecode(ParserFor(txn, lossy), Raws(all, txn), all, 0, |Body(Raws(all, txn))|);
  }

  lemma DecodedOf(p: Primitives, buf: seq<byte>, m: Message, body: seq<byte>, all: seq<Attribute>)
    requires m.kind < 0x1000 && MESSAGE_HEADER + |body| <= |buf|
    requires FromBE(buf[..2]) == TypeBits(m.kind, m.cls) && FromBE(buf[2..4]) == |body|
    requires buf[4..8] == COOKIE_BYTES && buf[8..20] == m.txn && buf[MESSAGE_HEADER..MESSAGE_HEADER + |body|] == body
    ensures Decoded(p, buf) == Ok(m.(attributes := all)) <==>
      DecodeItems(ScanFrom(body, 0), ParserFor(m.txn, p.lossy), |body|) == Ok(all)
  {
    TypeRoundTrip(m.kind, m.cls);
  }
}
