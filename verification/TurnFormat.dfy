/** The numbers and bytes that RFC 5389 and RFC 5766 fix. */
module TurnFormat {
  import opened Bytes
  import opened Bits
  import opened Text
  import opened Wire
  import opened Tlv
  import opened Addresses
  import opened Attributes
  import opened TurnMessage

  /** The type of a binding message in each class. */
  lemma MessageTypes(c: Class)
    ensures TypeBits(0x001, c) == (match c case Request => 0x0001 case Indication => 0x0011 case Success => 0x0101
                                           case Error => 0x0111)
  {
  }

  /** The method keeps clear of the class: its low four, next three and high five bits. */
  lemma MethodBits(low: nat, middle: nat, high: nat)
    requires low < 16 && middle < 8 && high < 32
    ensures TypeBits(high * 128 + middle * 16 + low, Request) == high * 512 + middle * 32 + low
  {
    var kind := high * 128 + middle * 16 + low;
    assert kind / 16 == high * 8 + middle && kind / 128 == high;
  }

  /** The registered number of every attribute. */
  lemma AttributeNumbers(a: Attribute)
    ensures match a
      case MappedAddress(_) => TypeOf(a) == 0x0001
      case Username(_) => TypeOf(a) == 0x0006
      case MessageIntegrity(_) => TypeOf(a) == 0x0008
      case ErrorCode(_, _) => TypeOf(a) == 0x0009
      case ChannelNumber(_) => TypeOf(a) == 0x000C
      case Lifetime(_) => TypeOf(a) == 0x000D
      case XorPeerAddress(_) => TypeOf(a) == 0x0012
      case Data(_) => TypeOf(a) == 0x0013
      case Realm(_) => TypeOf(a) == 0x0014
      case Nonce(_) => TypeOf(a) == 0x0015
      case XorRelayedAddress(_) => TypeOf(a) == 0x0016
      case RequestedTransport(_) => TypeOf(a) == 0x0019
      case DontFragment => TypeOf(a) == 0x001A
      case XorMappedAddress(_) => TypeOf(a) == 0x0020
      case Software(_) => TypeOf(a) == 0x8022
      case Fingerprint(_) => TypeOf(a) == 0x8028
      case Unknown(typ, _) => TypeOf(a) == typ
  {
  }

  /** The values of the attributes that are not addresses: text and data as they are, numbers big-endian. */
  lemma AttributeValues(a: Attribute, txn: TxnId)
    requires Representable(a)
    ensures var v := ValueOf(a, txn);
      match a
      case Username(s) => v == s
      case Realm(s) => v == s
      case Nonce(s) => v == s
      case Software(s) => v == s
      case Data(d) => v == d
      case Unknown(_, u) => v == u
      case MessageIntegrity(mac) => v == mac
      case DontFragment => v == []
      case Fingerprint(n) => |v| == 4 && FromBE(v) == n
      case Lifetime(n) => |v| == 4 && FromBE(v) == n
      case ChannelNumber(n) => |v| == 4 && FromBE(v[..2]) == n && v[2..] == [0, 0]
      case RequestedTransport(proto) => v == [proto, 0, 0, 0]
      case ErrorCode(code, reason) =>
        |v| == 4 + |reason| && v[..2] == [0, 0] && v[2] == code / 100 % 256 && v[3] == code % 100 && v[4..] == reason
      case _ => true
  {
    match a
    case Fingerprint(n) => NumberRoundTrip(n);
    case Lifetime(n) => NumberRoundTrip(n);
    case ChannelNumber(n) =>
      NumberRoundTrip(n);
      assert (ToBE(n, 2) + [0, 0])[..2] == ToBE(n, 2);
    case _ =>
  }

  /** Which buffers are refused before their attributes are looked at, by their bytes. */
  lemma HeaderErrors(p: Primitives, buf: seq<byte>)
    ensures |buf| < 20 ==> Decoded(p, buf) == Err(ShortMessage)
    ensures |buf| >= 20 && buf[0] >= 64 ==> Decoded(p, buf) == Err(NotStun)
    ensures |buf| >= 20 && buf[0] < 64 && buf[4..8] != [0x21, 0x12, 0xA4, 0x42] ==> Decoded(p, buf) == Err(BadCookie)
    ensures |buf| >= 20 && buf[0] < 64 && buf[4..8] == [0x21, 0x12, 0xA4, 0x42] ==>
      (|buf| < 20 + 256 * (buf[2] as int) + buf[3] ==> Decoded(p, buf) == Err(LengthExceedsBuffer))
  {
    if |buf| >= 20 {
      TwoBytes(buf, 0);
      TwoBytes(buf, 2);
      assert buf[..2] == buf[0..2];
    }
  }

  /** Which values are refused for their length, whatever the type. */
  lemma ValueLengths(raw: Raw, txn: TxnId, lossy: seq<byte> -> Text)
    ensures AttributeFrom(raw, txn, lossy) == Err(BadLength(raw.typ)) <==>
      || (raw.typ == 0x0008 && |raw.value| != 20)
      || (raw.typ == 0x8028 && |raw.value| != 4)
      || ((raw.typ == 0x0009 || raw.typ == 0x000D) && |raw.value| < 4)
      || (raw.typ == 0x000C && |raw.value| < 2)
      || (raw.typ == 0x0019 && |raw.value| < 1)
  {
  }

  /** And which as text. */
  lemma ValueTexts(raw: Raw, txn: TxnId, lossy: seq<byte> -> Text)
    ensures AttributeFrom(raw, txn, lossy) == Err(NotUtf8) <==>
      && (raw.typ == 0x0006 || raw.typ == 0x0014 || raw.typ == 0x0015 || raw.typ == 0x8022)
      && !ValidUtf8(raw.value)
  {
  }

  /** Which address values are refused. */
  lemma AddressErrors(v: seq<byte>, txn: TxnId)
    ensures |v| < 8 ==> DecodePlain(v) == Err(TooShort) && DecodeXor(v, txn) == Err(TooShort)
    ensures |v| >= 8 && v[1] != 1 && v[1] != 2 ==>
      DecodePlain(v) == Err(UnknownFamily(v[1])) && DecodeXor(v, txn) == Err(UnknownFamily(v[1]))
    ensures 8 <= |v| < 20 && v[1] == 2 ==> DecodePlain(v) == Err(V6TooShort) && DecodeXor(v, txn) == Err(V6TooShort)
    ensures (|v| >= 8 && v[1] == 1) || (|v| >= 20 && v[1] == 2) ==> DecodePlain(v).Ok? && DecodeXor(v, txn).Ok?
  {
  }

  lemma TwoBytes(s: seq<byte>, at: nat)
    requires at + 2 <= |s|
    ensures FromBE(s[at..at + 2]) == 256 * (s[at] as int) + s[at + 1]
  {
    var t := s[at..at + 2];
    assert t[..1] == [s[at]] && [s[at]][..0] == [];
    assert FromBE([s[at]]) == s[at];
  }

  // ---- what the digests cover -------------------------------------------------

  lemma OneMoreLength(attributes: seq<Attribute>, a: Attribute, all: seq<Attribute>, txn: TxnId)
    requires RepresentableAll(attributes) && Representable(a) && all == attributes + [a]
    ensures RepresentableAll(all)
    ensures |Body(Raws(all, txn))| == |Body(Raws(attributes, txn))| + Size(RawOf(a, txn))
  {
    RawsSnoc(attributes, a, txn);
  }

  lemma DigestSizes(mac: Mac, crc: nat, txn: TxnId)
    requires crc < U32_LIMIT
    ensures Size(RawOf(MessageIntegrity(mac), txn)) == 24 && Size(RawOf(Fingerprint(crc), txn)) == 8
  {
  }

  lemma MacLength(attributes: seq<Attribute>, mac: Mac, all: seq<Attribute>, txn: TxnId)
    requires RepresentableAll(attributes) && all == attributes + [MessageIntegrity(mac)]
    ensures RepresentableAll(all) && |Body(Raws(all, txn))| == |Body(Raws(attributes, txn))| + 24
  {
    OneMoreLength(attributes, MessageIntegrity(mac), all, txn);
    DigestSizes(mac, 0, txn);
  }

  lemma CrcLength(attributes: seq<Attribute>, crc: nat, all: seq<Attribute>, txn: TxnId)
    requires RepresentableAll(attributes) && crc < U32_LIMIT && all == attributes + [Fingerprint(crc)]
    ensures RepresentableAll(all) && |Body(Raws(all, txn))| == |Body(Raws(attributes, txn))| + 8
  {
    OneMoreLength(attributes, Fingerprint(crc), all, txn);
    DigestSizes(seq(20, _ => 0), crc, txn);
  }

  /** The authenticator is over everything before it, with the length of the message as it ends with it. */
  lemma MacCovers(p: Primitives, m: Message, key: seq<byte>)
    requires RepresentableAll(m.attributes)
    ensures var own, signed := Body(Raws(m.attributes, m.txn)), Signed(p, m, Some(key));
      && |signed| == |m.attributes| + 1
      && signed[|m.attributes|] == MessageIntegrity(p.hmac(key, Head(m, |Body(Raws(signed, m.txn))|) + own))
  {
    MacLength(m.attributes, MacFor(p, m, key, Body(Raws(m.attributes, m.txn))), Signed(p, m, Some(key)), m.txn);
  }

  /** The fingerprint is over everything before it, the authenticator included. */
  lemma CrcCovers(p: Primitives, m: Message, key: Option<seq<byte>>)
    requires RepresentableAll(m.attributes)
    ensures var signed, all := Signed(p, m, key), Final(p, m, key, true);
      && |all| == |signed| + 1 && all[..|signed|] == signed
      && all[|signed|] == Fingerprint(
           Xor(p.crc(Head(m, |Body(Raws(all, m.txn))|) + Body(Raws(signed, m.txn))), 0x5354_554E))
  {
    var signed := Signed(p, m, key);
    CrcLength(signed, CrcFor(p, m, Body(Raws(signed, m.txn))), Final(p, m, key, true), m.txn);
  }

  // ---- masked addresses -----------------------------------------------------------

  lemma OneBit(x: nat, y: nat)
    requires x < 2 && y < 2
    ensures Xor(x, y) == if x == y then 0 else 1
  {
  }

  lemma LastBit(a: nat, x: nat, c: nat, y: nat)
    requires x < 2 && y < 2
    ensures Xor(2 * a + x, 2 * c + y) == 2 * Xor(a, c) + Xor(x, y)
  {
    Halves(2 * a + x, a, x);
    Halves(2 * c + y, c, y);
    XorStep(2 * a + x, 2 * c + y);
    OneBit(x, y);
  }

  predicate Splits(f: (nat, nat) -> nat, w: nat, a: nat, b: nat, c: nat, d: nat) {
    f(w * a + b, w * c + d) == w * f(a, c) + f(b, d)
  }

  /** The function works on the digits to base `w` one by one. */
  ghost predicate ByDigits(f: (nat, nat) -> nat, w: nat) {
    forall a: nat, b: nat, c: nat, d: nat :: b < w && d < w ==> Splits(f, w, a, b, c, d)
  }

  lemma Place(w: nat, a: nat, x: nat, y: nat)
    ensures w * (w * a + x) + y == (w * w) * a + (w * x + y)
  {
    assert w * (w * a + x) == w * (w * a) + w * x;
  }

  predicate Square(w: nat, v: nat) {
    (w == 2 && v == 4) || (w == 4 && v == 16) || (w == 16 && v == 256)
  }

  lemma TwoDigits(w: nat, v: nat, b: nat) returns (x: nat, y: nat)
    requires Square(w, v) && b < v
    ensures x < w && y < w && b == w * x + y
  {
    if w == 2 {
      x, y := b / 2, b % 2;
    } else if w == 4 {
      x, y := b / 4, b % 4;
    } else {
      x, y := b / 16, b % 16;
    }
  }

  lemma SplitsSquared(
      f: (nat, nat) -> nat, w: nat, v: nat, a: nat, b: nat, x: nat, x': nat, c: nat, d: nat, y: nat, y': nat)
    requires x < w && x' < w && b == w * x + x' && y < w && y' < w && d == w * y + y' && v == w * w && ByDigits(f, w)
    ensures Splits(f, v, a, b, c, d)
  {
    assert Splits(f, w, w * a + x, x', w * c + y, y') && Splits(f, w, a, x, c, y) && Splits(f, w, x, x', y, y');
    Place(w, a, x, x');
    Place(w, c, y, y');
    Place(w, f(a, c), f(x, y), f(x', y'));
  }

  lemma Squared(f: (nat, nat) -> nat, w: nat, v: nat)
    requires ByDigits(f, w) && Square(w, v)
    ensures ByDigits(f, v)
  {
    forall a: nat, b: nat, c: nat, d: nat | b < v && d < v ensures Splits(f, v, a, b, c, d) {
      var x, x' := TwoDigits(w, v, b);
      var y, y' := TwoDigits(w, v, d);
      SplitsSquared(f, w, v, a, b, x, x', c, d, y, y');
    }
  }

  function Bitwise(a: nat, b: nat): nat {
    Xor(a, b)
  }

  lemma XorByBits()
    ensures ByDigits(Bitwise, 2)
  {
    forall a: nat, b: nat, c: nat, d: nat | b < 2 && d < 2 ensures Splits(Bitwise, 2, a, b, c, d) {
      LastBit(a, b, c, d);
    }
  }

  /** Octets are combined one by one. */
  lemma LastOctet(a: nat, b: nat, c: nat, d: nat)
    requires b < 256 && d < 256
    ensures Xor(256 * a + b, 256 * c + d) == 256 * Xor(a, c) + Xor(b, d)
  {
    XorByBits();
    Squared(Bitwise, 2, 4);
    Squared(Bitwise, 4, 16);
    Squared(Bitwise, 16, 256);
    assert Splits(Bitwise, 256, a, b, c, d);
  }

  /** So the big-endian bytes of a masked number are the masked bytes. */
  lemma {:induction false} MaskedNumber(n: nat, mask: nat, k: nat, i: nat)
    requires i < k
    ensures ToBE(Xor(n, mask), k)[i] == XorByte(ToBE(n, k)[i], ToBE(mask, k)[i])
  {
    LastOctet(n / 256, n % 256, mask / 256, mask % 256);
    Pow2Values();
    XorBound(n % 256, mask % 256, 8);
    var x := Xor(n, mask);
    LastPart(Xor(n / 256, mask / 256), Xor(n % 256, mask % 256));
    assert x / 256 == Xor(n / 256, mask / 256) && x % 256 == Xor(n % 256, mask % 256);
    if i < k - 1 {
      MaskedNumber(n / 256, mask / 256, k - 1, i);
    }
  }

  lemma LastPart(a: nat, b: nat)
    requires b < 256
    ensures (256 * a + b) / 256 == a && (256 * a + b) % 256 == b
  {
  }

  lemma CookieBytes()
    ensures ToBE(COOKIE, 4) == [0x21, 0x12, 0xA4, 0x42] && ToBE(COOKIE_HIGH, 2) == [0x21, 0x12]
  {
    assert ToBE(0x21, 1) == [0x21] && ToBE(0x2112, 2) == [0x21, 0x12];
  }

  /** The third and fourth octets are the port against the first half of the cookie. */
  lemma MaskedPort(family: byte, port: nat, ip: seq<byte>, ip': seq<byte>, i: nat)
    requires 2 <= i < 4
    ensures Addresses.Encode(family, Xor(port, COOKIE_HIGH), ip')[i] ==
      XorByte(Addresses.Encode(family, port, ip)[i], [0x21, 0x12][i - 2])
  {
    CookieBytes();
    MaskedNumber(port, COOKIE_HIGH, 2, i - 2);
  }

  lemma MaskedV4(ip: nat, i: nat)
    requires i < 4
    ensures ToBE(Xor(ip, COOKIE), 4)[i] == XorByte(ToBE(ip, 4)[i], [0x21, 0x12, 0xA4, 0x42][i])
  {
    CookieBytes();
    MaskedNumber(ip, COOKIE, 4, i);
  }

  /**
   * A masked address is the plain one, each octet of the port against the first two octets of the cookie and each
   * octet of the address against the cookie and the transaction id (RFC 5389, section 15.2).
   */
  lemma MaskedOctetwise(a: Address, txn: TxnId, i: nat)
    requires Addresses.Valid(a) && i < |EncodePlain(a)|
    ensures var mask := [0x00, 0x00, 0x21, 0x12, 0x21, 0x12, 0xA4, 0x42] + txn;
      && |EncodeXor(a, txn)| == |EncodePlain(a)| <= |mask|
      && EncodeXor(a, txn)[i] == XorByte(EncodePlain(a)[i], mask[i])
  {
    if i < 2 {
      XorZeroRight(EncodePlain(a)[i]);
    } else if i < 4 {
      if a.V4? {
        MaskedPort(1, a.port, ToBE(a.ip, 4), ToBE(Xor(a.ip, COOKIE), 4), i);
      } else {
        MaskedPort(2, a.port, a.octets, Addresses.Masked(a.octets, txn), i);
      }
    } else if a.V4? {
      MaskedV4(a.ip, i - 4);
    }
  }

  lemma {:induction false} XorZeroRight(a: nat)
    ensures Xor(a, 0) == a
  {
    if a > 0 {
      XorZeroRight(a / 2);
    }
  }

  /** The plain form: a zero, the family, the port and the address (RFC 5389, section 15.1). */
  lemma PlainFields(a: Address)
    requires Addresses.Valid(a)
    ensures var v := EncodePlain(a);
      && |v| == (if a.V4? then 8 else 20) && v[0] == 0 && v[1] == (if a.V4? then 1 else 2)
      && FromBE(v[2..4]) == a.port
      && (if a.V4? then FromBE(v[4..8]) == a.ip else v[4..20] == a.octets)
  {
    NumberRoundTrip(a.port);
    if a.V4? {
      NumberRoundTrip(a.ip);
      EncodedParts(1, a.port, ToBE(a.ip, 4));
    } else {
      EncodedParts(2, a.port, a.octets);
    }
  }

  function Bit(n: nat, k: nat): nat {
    if k == 0 then n % 2 else Bit(n / 2, k - 1)
  }

  predicate Differ(x: nat, a: nat, b: nat, k: nat) {
    Bit(x, k) == if Bit(a, k) == Bit(b, k) then 0 else 1
  }

  lemma BitHigher(x: nat, h: nat, a: nat, b: nat, k: nat)
    requires k > 0 && x / 2 == h && Differ(h, a / 2, b / 2, k - 1)
    ensures Differ(x, a, b, k)
  {
  }

  lemma Halves(x: nat, h: nat, bit: nat)
    requires x == 2 * h + bit && bit < 2
    ensures x / 2 == h && x % 2 == bit
  {
  }

  /** A bit of the result is one exactly where the operands differ. */
  lemma {:induction false} XorBit(a: nat, b: nat, k: nat)
    ensures Differ(Xor(a, b), a, b, k)
  {
    var x, h := Xor(a, b), Xor(a / 2, b / 2);
    XorStep(a, b);
    Halves(x, h, if a % 2 == b % 2 then 0 else 1);
    if k > 0 {
      XorBit(a / 2, b / 2, k - 1);
      BitHigher(x, h, a, b, k);
    }
  }
}
