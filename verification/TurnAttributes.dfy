/** Bitwise operations on unsigned numbers, bit by bit. */
module Bits {
  function Pow2(k: nat): (p: nat)
    ensures p > 0
  {
    if k == 0 then 1 else 2 * Pow2(k - 1)
  }

  function Xor(a: nat, b: nat): nat {
    if a == 0 && b == 0 then 0 else 2 * Xor(a / 2, b / 2) + if a % 2 == b % 2 then 0 else 1
  }

  function Or(a: nat, b: nat): nat {
    if a == 0 && b == 0 then 0 else 2 * Or(a / 2, b / 2) + if a % 2 == 0 && b % 2 == 0 then 0 else 1
  }

  lemma {:induction false} XorBound(a: nat, b: nat, k: nat)
    requires a < Pow2(k) && b < Pow2(k)
    ensures Xor(a, b) < Pow2(k)
  {
    if k > 0 {
      XorBound(a / 2, b / 2, k - 1);
    }
  }

  lemma XorStep(a: nat, b: nat)
    ensures Xor(a, b) == 2 * Xor(a / 2, b / 2) + if a % 2 == b % 2 then 0 else 1
  {
  }

  lemma {:induction false} XorTwice(a: nat, b: nat)
    ensures Xor(Xor(a, b), b) == a
  {
    if !(a == 0 && b == 0) {
      XorTwice(a / 2, b / 2);
      var half, bit := Xor(a / 2, b / 2), if a % 2 == b % 2 then 0 else 1;
      assert Xor(a, b) == 2 * half + bit;
      assert (2 * half + bit) / 2 == half && (2 * half + bit) % 2 == bit;
    }
  }

  lemma {:induction false} XorZero(a: nat, b: nat)
    ensures Xor(a, b) == 0 <==> a == b
  {
    if !(a == 0 && b == 0) {
      XorZero(a / 2, b / 2);
    }
  }

  lemma {:induction false} OrZero(a: nat, b: nat)
    ensures Or(a, b) == 0 <==> a == 0 && b == 0
  {
    if !(a == 0 && b == 0) {
      OrZero(a / 2, b / 2);
    }
  }

  lemma Pow2Values()
    ensures Pow2(8) == 0x100 && Pow2(16) == 0x1_0000 && Pow2(32) == 0x1_0000_0000
  {
    assert Pow2(4) == 16 && Pow2(8) == 256 && Pow2(12) == 0x1000 && Pow2(16) == 0x1_0000;
    assert Pow2(20) == 0x10_0000 && Pow2(24) == 0x100_0000 && Pow2(28) == 0x1000_0000;
  }
}

/** Socket addresses as STUN attributes carry them, plain and masked. */
module Addresses {
  import opened Bytes
  import opened Bits
  import opened Wire

  /** An IPv4 address as its 32-bit number, an IPv6 address as its octets. */
  datatype Address = V4(port: nat, ip: nat) | V6(port: nat, octets: seq<byte>)

  predicate Valid(a: Address) {
    a.port < 0x1_0000 && match a case V4(_, ip) => ip < U32_LIMIT case V6(_, octets) => |octets| == 16
  }

  type TxnId = t: seq<byte> | |t| == 12 witness [0, 0, 0, 0, 0, 0, 0, 0, 0, 0, 0, 0]

  const COOKIE := 0x2112_A442
  const COOKIE_BYTES: seq<byte> := [0x21, 0x12, 0xA4, 0x42]
  const COOKIE_HIGH := 0x2112

  datatype AddressError = TooShort | V6TooShort | UnknownFamily(family: byte)

  function XorByte(a: byte, b: byte): byte {
    Pow2Values();
    XorBound(a, b, 8);
    Xor(a, b)
  }

  /** `xor_with_key`: every octet against the cookie followed by the transaction id. */
  function Masked(o: seq<byte>, txn: TxnId): (m: seq<byte>)
    requires |o| == 16
    ensures |m| == 16
  {
    seq(16, i requires 0 <= i < 16 => XorByte(o[i], (COOKIE_BYTES + txn)[i]))
  }

  function Encode(family: byte, port: nat, ip: seq<byte>): seq<byte> {
    [0, family] + ToBE(port, 2) + ip
  }

  function EncodePlain(a: Address): seq<byte> {
    match a
    case V4(port, ip) => Encode(1, port, ToBE(ip, 4))
    case V6(port, octets) => Encode(2, port, octets)
  }

  function EncodeXor(a: Address, txn: TxnId): seq<byte>
    requires Valid(a)
  {
    match a
    case V4(port, ip) => Encode(1, Xor(port, COOKIE_HIGH), ToBE(Xor(ip, COOKIE), 4))
    case V6(port, octets) => Encode(2, Xor(port, COOKIE_HIGH), Masked(octets, txn))
  }

  function DecodePlain(value: seq<byte>): Result<Address, AddressError> {
    if |value| < 8 then Err(TooShort)
    else
      var port := FromBE(value[2..4]);
      if value[1] == 1 then Ok(V4(port, FromBE(value[4..8])))
      else if value[1] == 2 then
        if |value| < 20 then Err(V6TooShort) else Ok(V6(port, value[4..20]))
      else Err(UnknownFamily(value[1]))
  }

  function DecodeXor(value: seq<byte>, txn: TxnId): Result<Address, AddressError> {
    if |value| < 8 then Err(TooShort)
    else
      var port := Xor(FromBE(value[2..4]), COOKIE_HIGH);
      if value[1] == 1 then Ok(V4(port, Xor(FromBE(value[4..8]), COOKIE)))
      else if value[1] == 2 then
        if |value| < 20 then Err(V6TooShort) else Ok(V6(port, Masked(value[4..20], txn)))
      else Err(UnknownFamily(value[1]))
  }

  lemma NumberRoundTrip(n: nat)
    ensures n < U32_LIMIT ==> FromBE(ToBE(n, 4)) == n
    ensures n < 0x1_0000 ==> FromBE(ToBE(n, 2)) == n
  {
    Pow256Values();
    if n < U32_LIMIT {
      BigEndianRoundTrip(n, 4);
    }
    if n < 0x1_0000 {
      BigEndianRoundTrip(n, 2);
    }
  }

  /** Masking undoes itself. */
  lemma MaskTwice(o: seq<byte>, txn: TxnId)
    requires |o| == 16
    ensures Masked(Masked(o, txn), txn) == o
  {
    forall i | 0 <= i < 16 ensures Masked(Masked(o, txn), txn)[i] == o[i] {
      XorTwice(o[i], (COOKIE_BYTES + txn)[i]);
    }
  }

  lemma EncodedParts(family: byte, port: nat, ip: seq<byte>)
    ensures var value := Encode(family, port, ip);
      && |value| == 4 + |ip| && value[1] == family && value[2..4] == ToBE(port, 2) && value[4..4 + |ip|] == ip
  {
  }

  lemma PlainRoundTrip(a: Address)
    requires Valid(a)
    ensures DecodePlain(EncodePlain(a)) == Ok(a)
  {
    NumberRoundTrip(a.port);
    match a
    case V4(port, ip) =>
      NumberRoundTrip(ip);
      EncodedParts(1, port, ToBE(ip, 4));
    case V6(port, octets) =>
      EncodedParts(2, port, octets);
  }

  lemma MaskInRange(n: nat, mask: nat, k: nat)
    requires n < Pow2(k) && mask < Pow2(k)
    ensures Xor(n, mask) < Pow2(k) && Xor(Xor(n, mask), mask) == n
  {
    XorBound(n, mask, k);
    XorTwice(n, mask);
  }

  lemma XorRoundTrip(a: Address, txn: TxnId)
    requires Valid(a)
    ensures DecodeXor(EncodeXor(a, txn), txn) == Ok(a)
  {
    Pow2Values();
    MaskInRange(a.port, COOKIE_HIGH, 16);
    NumberRoundTrip(Xor(a.port, COOKIE_HIGH));
    match a
    case V4(port, ip) =>
      MaskInRange(ip, COOKIE, 32);
      NumberRoundTrip(Xor(ip, COOKIE));
      EncodedParts(1, Xor(port, COOKIE_HIGH), ToBE(Xor(ip, COOKIE), 4));
    case V6(port, octets) =>
      EncodedParts(2, Xor(port, COOKIE_HIGH), Masked(octets, txn));
      MaskTwice(octets, txn);
  }
}

/** The attributes of a TURN message. */
module Attributes {
  import opened Bytes
  import opened Text
  import opened Wire
  import opened Tlv
  import opened Addresses

  type Mac = m: seq<byte> | |m| == 20 witness [0, 0, 0, 0, 0, 0, 0, 0, 0, 0, 0, 0, 0, 0, 0, 0, 0, 0, 0, 0]

  const MAPPED_ADDRESS := 0x0001
  const USERNAME := 0x0006
  const MESSAGE_INTEGRITY := 0x0008
  const ERROR_CODE := 0x0009
  const CHANNEL_NUMBER := 0x000C
  const LIFETIME := 0x000D
  const XOR_PEER_ADDRESS := 0x0012
  const DATA := 0x0013
  const REALM := 0x0014
  const NONCE := 0x0015
  const XOR_RELAYED_ADDRESS := 0x0016
  const REQUESTED_TRANSPORT := 0x0019
  const DONT_FRAGMENT := 0x001A
  const XOR_MAPPED_ADDRESS := 0x0020
  const SOFTWARE := 0x8022
  const FINGERPRINT := 0x8028

  datatype Attribute =
    | MappedAddress(addr: Address)
    | XorMappedAddress(addr: Address)
    | XorPeerAddress(addr: Address)
    | XorRelayedAddress(addr: Address)
    | Username(text: Text)
    | Realm(text: Text)
    | Nonce(text: Text)
    | Software(text: Text)
    | MessageIntegrity(mac: Mac)
    | Fingerprint(crc: nat)
    | ErrorCode(code: nat, reason: Text)
    | Lifetime(seconds: nat)
    | RequestedTransport(proto: byte)
    | ChannelNumber(number: nat)
    | Data(data: seq<byte>)
    | DontFragment
    | Unknown(typ: nat, value: seq<byte>)

  datatype TurnError =
    | ShortMessage | NotStun | BadCookie | LengthExceedsBuffer | AttributeExceedsMessage | TrailingBytes
    | BadAddress(error: AddressError) | NotUtf8 | BadLength(typ: nat)

  predicate Known(typ: nat) {
    || typ == MAPPED_ADDRESS || typ == USERNAME || typ == MESSAGE_INTEGRITY || typ == ERROR_CODE
    || typ == CHANNEL_NUMBER || typ == LIFETIME || typ == XOR_PEER_ADDRESS || typ == DATA || typ == REALM
    || typ == NONCE || typ == XOR_RELAYED_ADDRESS || typ == REQUESTED_TRANSPORT || typ == DONT_FRAGMENT
    || typ == XOR_MAPPED_ADDRESS || typ == SOFTWARE || typ == FINGERPRINT
  }

  /** Machine ranges and sixteen octets per IPv6 address. */
  predicate Representable(a: Attribute) {
    match a
    case MappedAddress(x) => Addresses.Valid(x)
    case XorMappedAddress(x) => Addresses.Valid(x)
    case XorPeerAddress(x) => Addresses.Valid(x)
    case XorRelayedAddress(x) => Addresses.Valid(x)
    case Fingerprint(crc) => crc < U32_LIMIT
    case ErrorCode(code, _) => code < U16_LIMIT
    case Lifetime(s) => s < U32_LIMIT
    case ChannelNumber(n) => n < U16_LIMIT
    case Unknown(typ, _) => typ < U16_LIMIT
    case _ => true
  }

  /** Also a class byte that does not wrap, and no unknown attribute under a known type. */
  predicate WellFormed(a: Attribute) {
    && Representable(a)
    && (a.ErrorCode? ==> a.code <= 25599)
    && (a.Unknown? ==> !Known(a.typ))
  }

  function TypeOf(a: Attribute): nat {
    match a
    case MappedAddress(_) => MAPPED_ADDRESS
    case XorMappedAddress(_) => XOR_MAPPED_ADDRESS
    case XorPeerAddress(_) => XOR_PEER_ADDRESS
    case XorRelayedAddress(_) => XOR_RELAYED_ADDRESS
    case Username(_) => USERNAME
    case Realm(_) => REALM
    case Nonce(_) => NONCE
    case Software(_) => SOFTWARE
    case MessageIntegrity(_) => MESSAGE_INTEGRITY
    case Fingerprint(_) => FINGERPRINT
    case ErrorCode(_, _) => ERROR_CODE
    case Lifetime(_) => LIFETIME
    case RequestedTransport(_) => REQUESTED_TRANSPORT
    case ChannelNumber(_) => CHANNEL_NUMBER
    case Data(_) => DATA
    case DontFragment => DONT_FRAGMENT
    case Unknown(typ, _) => typ
  }

  /** The class and number bytes of an error code; the class is cut to eight bits. */
  function ErrorBytes(code: nat): seq<byte> {
    [0, 0, (code / 100) % 256, code % 100]
  }

  function ErrorNumber(hundreds: nat, number: nat): nat {
    hundreds * 100 + number
  }

  function ValueOf(a: Attribute, txn: TxnId): seq<byte>
    requires Representable(a)
  {
    match a
    case MappedAddress(x) => EncodePlain(x)
    case XorMappedAddress(x) => EncodeXor(x, txn)
    case XorPeerAddress(x) => EncodeXor(x, txn)
    case XorRelayedAddress(x) => EncodeXor(x, txn)
    case Username(s) => s
    case Realm(s) => s
    case Nonce(s) => s
    case Software(s) => s
    case MessageIntegrity(mac) => mac
    case Fingerprint(crc) => ToBE(crc, 4)
    case ErrorCode(code, reason) => ErrorBytes(code) + reason
    case Lifetime(seconds) => ToBE(seconds, 4)
    case RequestedTransport(proto) => [proto, 0, 0, 0]
    case ChannelNumber(number) => ToBE(number, 2) + [0, 0]
    case Data(data) => data
    case DontFragment => []
    case Unknown(_, value) => value
  }

  function RawOf(a: Attribute, txn: TxnId): Raw
    requires Representable(a)
  {
    Raw(TypeOf(a), ValueOf(a, txn))
  }

  function Str(value: seq<byte>): Result<Text, TurnError> {
    if ValidUtf8(value) then Ok(value) else Err(NotUtf8)
  }

  function Plain(value: seq<byte>): Result<Address, TurnError> {
    match DecodePlain(value) case Ok(a) => Ok(a) case Err(e) => Err(BadAddress(e))
  }

  function Xored(value: seq<byte>, txn: TxnId): Result<Address, TurnError> {
    match DecodeXor(value, txn) case Ok(a) => Ok(a) case Err(e) => Err(BadAddress(e))
  }

  /** `decode_attribute`; `lossy` replaces what is not UTF-8. */
  function AttributeFrom(raw: Raw, txn: TxnId, lossy: seq<byte> -> Text): Result<Attribute, TurnError> {
    var (typ, v) := (raw.typ, raw.value);
    if typ == MAPPED_ADDRESS then var a :- Plain(v); Ok(MappedAddress(a))
    else if typ == XOR_MAPPED_ADDRESS then var a :- Xored(v, txn); Ok(XorMappedAddress(a))
    else if typ == XOR_PEER_ADDRESS then var a :- Xored(v, txn); Ok(XorPeerAddress(a))
    else if typ == XOR_RELAYED_ADDRESS then var a :- Xored(v, txn); Ok(XorRelayedAddress(a))
    else if typ == USERNAME then var s :- Str(v); Ok(Username(s))
    else if typ == REALM then var s :- Str(v); Ok(Realm(s))
    else if typ == NONCE then var s :- Str(v); Ok(Nonce(s))
    else if typ == SOFTWARE then var s :- Str(v); Ok(Software(s))
    else if typ == MESSAGE_INTEGRITY then
      if |v| != 20 then Err(BadLength(typ)) else Ok(MessageIntegrity(v))
    else if typ == FINGERPRINT then
      if |v| != 4 then Err(BadLength(typ)) else Ok(Fingerprint(FromBE(v)))
    else if typ == ERROR_CODE then
      if |v| < 4 then Err(BadLength(typ)) else Ok(ErrorCode(ErrorNumber(v[2], v[3]), lossy(v[4..])))
    else if typ == LIFETIME then
      if |v| < 4 then Err(BadLength(typ)) else Ok(Lifetime(FromBE(v[..4])))
    else if typ == REQUESTED_TRANSPORT then
      if v == [] then Err(BadLength(typ)) else Ok(RequestedTransport(v[0]))
    else if typ == CHANNEL_NUMBER then
      if |v| < 2 then Err(BadLength(typ)) else Ok(ChannelNumber(FromBE(v[..2])))
    else if typ == DATA then Ok(Data(v))
    else if typ == DONT_FRAGMENT then Ok(DontFragment)
    else Ok(Unknown(typ, v))
  }

  /** Text survives lossy conversion. */
  ghost predicate KeepsText(lossy: seq<byte> -> Text) {
    forall s :: ValidUtf8(s) ==> lossy(s) == s
  }

  lemma ErrorRoundTrip(code: nat, reason: Text, txn: TxnId, lossy: seq<byte> -> Text)
    requires KeepsText(lossy)
    ensures AttributeFrom(Raw(ERROR_CODE, ErrorBytes(code) + reason), txn, lossy) ==
      Ok(ErrorCode(ErrorNumber((code / 100) % 256, code % 100), reason))
  {
    var v := ErrorBytes(code) + reason;
    assert v[2] == (code / 100) % 256 && v[3] == code % 100 && v[4..] == reason;
  }

  /** Error codes survive exactly up to 25599; above that the class byte wraps. */
  lemma ErrorCodeSurvives(code: nat)
    requires code < U16_LIMIT
    ensures ErrorNumber((code / 100) % 256, code % 100) == code <==> code <= 25599
  {
  }

  lemma AddressesRoundTrip(a: Attribute, txn: TxnId, lossy: seq<byte> -> Text)
    requires WellFormed(a) && (a.MappedAddress? || a.XorMappedAddress? || a.XorPeerAddress? || a.XorRelayedAddress?)
    ensures AttributeFrom(RawOf(a, txn), txn, lossy) == Ok(a)
  {
    PlainRoundTrip(a.addr);
    XorRoundTrip(a.addr, txn);
  }

  lemma NumbersRoundTrip(a: Attribute, txn: TxnId, lossy: seq<byte> -> Text)
    requires WellFormed(a) && (a.Fingerprint? || a.Lifetime? || a.ChannelNumber?)
    ensures AttributeFrom(RawOf(a, txn), txn, lossy) == Ok(a)
  {
    match a
    case Fingerprint(n) => NumberRoundTrip(n);
    case Lifetime(n) =>
      NumberRoundTrip(n);
      assert ToBE(n, 4)[..4] == ToBE(n, 4);
    case ChannelNumber(n) =>
      NumberRoundTrip(n);
      assert (ToBE(n, 2) + [0, 0])[..2] == ToBE(n, 2);
  }

  lemma KnownIsNotUnknown(typ: nat, value: seq<byte>, txn: TxnId, lossy: seq<byte> -> Text)
    ensures AttributeFrom(Raw(typ, value), txn, lossy) == Ok(Unknown(typ, value)) <==> !Known(typ)
  {
  }

  /** An attribute survives encoding and decoding exactly when it is well formed. */
  lemma AttributeRoundTrip(a: Attribute, txn: TxnId, lossy: seq<byte> -> Text)
    requires Representable(a) && KeepsText(lossy)
    ensures AttributeFrom(RawOf(a, txn), txn, lossy) == Ok(a) <==> WellFormed(a)
  {
    match a
    case MappedAddress(_) => AddressesRoundTrip(a, txn, lossy);
    case XorMappedAddress(_) => AddressesRoundTrip(a, txn, lossy);
    case XorPeerAddress(_) => AddressesRoundTrip(a, txn, lossy);
    case XorRelayedAddress(_) => AddressesRoundTrip(a, txn, lossy);
    case Fingerprint(_) => NumbersRoundTrip(a, txn, lossy);
    case Lifetime(_) => NumbersRoundTrip(a, txn, lossy);
    case ChannelNumber(_) => NumbersRoundTrip(a, txn, lossy);
    case ErrorCode(code, reason) =>
      ErrorRoundTrip(code, reason, txn, lossy);
      ErrorCodeSurvives(code);
    case Unknown(typ, value) => KnownIsNotUnknown(typ, value, txn, lossy);
    case _ =>
  }
}
