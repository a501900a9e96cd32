/** Checking a message's integrity attribute. */
module Integrity {
  import opened Bytes
  import opened Bits
  import opened Tlv
  import opened Addresses
  import opened Attributes
  import opened TurnMessage

  /** Offset and value of the first integrity attribute. */
  function FirstMac(scan: Scan): Option<(nat, seq<byte>)> {
    match scan
    case Item(at, raw, rest) => if raw.typ == MESSAGE_INTEGRITY then Some((at, raw.value)) else FirstMac(rest)
    case _ => None
  }

  /** It must be the digest of what precedes it, with the length counting through it. */
  function Matches(p: Primitives, buf: seq<byte>, key: seq<byte>, found: Option<(nat, seq<byte>)>): bool {
    && found.Some? && MESSAGE_HEADER + found.value.0 <= |buf|
    && found.value.1 == p.hmac(key, SetLength(buf[..MESSAGE_HEADER + found.value.0], found.value.0 + 24))
  }

  function Verified(p: Primitives, buf: seq<byte>, key: seq<byte>): bool {
    |buf| >= MESSAGE_HEADER &&
    var len := FromBE(buf[2..4]);
    MESSAGE_HEADER + len <= |buf| &&
    Matches(p, buf, key, FirstMac(ScanFrom(buf[MESSAGE_HEADER..MESSAGE_HEADER + len], 0)))
  }

  /** Compare every octet, whatever the first difference. */
  method SameMac(expected: Mac, actual: seq<byte>) returns (same: bool)
    requires |actual| == 20
    ensures same <==> expected == actual
  {
    var diff: nat := 0;
    for i := 0 to |expected|
      invariant diff == 0 <==> expected[..i] == actual[..i]
    {
      XorZero(expected[i], actual[i]);
      OrZero(diff, Xor(expected[i], actual[i]));
      PrefixSnoc(expected, i);
      PrefixSnoc(actual, i);
      diff := Or(diff, Xor(expected[i], actual[i]));
    }
    assert expected[..|expected|] == expected && actual[..|expected|] == actual;
    same := diff == 0;
  }

  method VerifyIntegrity(p: Primitives, buf: seq<byte>, key: seq<byte>) returns (ok: bool)
    ensures ok == Verified(p, buf, key)
  {
    if |buf| < MESSAGE_HEADER {
      return false;
    }
    var len := FromBE(buf[2..4]);
    if MESSAGE_HEADER + len > |buf| {
      return false;
    }
    var found := Locate(buf[MESSAGE_HEADER..MESSAGE_HEADER + len]);
    if found.None? || |found.value.1| != 20 {
      return false;
    }
    var at := found.value.0;
    ok := SameMac(p.hmac(key, SetLength(buf[..MESSAGE_HEADER + at], at + 24)), found.value.1);
  }

  method Locate(body: seq<byte>) returns (found: Option<(nat, seq<byte>)>)
    ensures found == FirstMac(ScanFrom(body, 0))
    ensures found.Some? ==> found.value.0 <= |body|
  {
    var offset: nat := 0;
    while offset + 4 <= |body|
      invariant FirstMac(ScanFrom(body, 0)) == FirstMac(ScanFrom(body, offset))
      decreases |body| + 4 - offset
    {
      var typ, len := FromBE(body[offset..offset + 2]), FromBE(body[offset + 2..offset + 4]);
      var start := offset + 4;
      if start + len > |body| {
        return None;
      }
      if typ == MESSAGE_INTEGRITY {
        return Some((offset, body[start..start + len]));
      }
      offset := start + len + Pad(len);
    }
    return None;
  }

  /** The walk reaches the first integrity attribute. */
  lemma {:induction false} MacReached(raws: seq<Raw>, at: nat, mac: Raw, rest: seq<Raw>)
    requires (forall r :: r in raws ==> r.typ != MESSAGE_INTEGRITY) && mac.typ == MESSAGE_INTEGRITY
    ensures FirstMac(ItemsOf(raws + ([mac] + rest), at)) == Some((at + |Body(raws)|, mac.value))
    decreases |raws|
  {
    var all := raws + ([mac] + rest);
    if raws == [] {
      assert all == [mac] + rest;
    } else {
      assert all[0] == raws[0] && all[1..] == raws[1..] + ([mac] + rest);
      MacReached(raws[1..], at + Size(raws[0]), mac, rest);
    }
  }

  predicate NoIntegrity(attributes: seq<Attribute>) {
    forall a :: a in attributes ==> TypeOf(a) != MESSAGE_INTEGRITY
  }

  lemma NoIntegrityType(attributes: seq<Attribute>, txn: TxnId)
    requires RepresentableAll(attributes) && NoIntegrity(attributes)
    ensures forall r :: r in Raws(attributes, txn) ==> r.typ != MESSAGE_INTEGRITY
  {
    forall r | r in Raws(attributes, txn) ensures r.typ != MESSAGE_INTEGRITY {
      var i :| 0 <= i < |attributes| && Raws(attributes, txn)[i] == r;
      assert attributes[i] in attributes;
    }
  }

  /** The attributes of a keyed encoding: the message's own, the authenticator, perhaps the fingerprint. */
  lemma KeyedRaws(p: Primitives, m: Message, key: seq<byte>, fingerprint: bool) returns (rest: seq<Raw>)
    requires RepresentableAll(m.attributes)
    ensures var own := Raws(m.attributes, m.txn);
      Raws(Final(p, m, Some(key), fingerprint), m.txn) ==
        own + ([Raw(MESSAGE_INTEGRITY, MacFor(p, m, key, Body(own)))] + rest)
  {
    var own, signed := Raws(m.attributes, m.txn), Signed(p, m, Some(key));
    var mac := Raw(MESSAGE_INTEGRITY, MacFor(p, m, key, Body(own)));
    assert signed[..|m.attributes|] == m.attributes;
    assert Raws(signed, m.txn) == own + [mac];
    rest := [];
    if fingerprint {
      var all := Final(p, m, Some(key), fingerprint);
      assert all[..|signed|] == signed;
      rest := [RawOf(all[|signed|], m.txn)];
    }
    Associate(own, [mac], rest);
  }

  /** Verification of a keyed encoding looks at the authenticator that the encoding appended. */
  lemma KeyedLooksAt(p: Primitives, m: Message, key: seq<byte>, fingerprint: bool, rest: seq<byte>, other: seq<byte>)
    requires Encodable(p, m, Some(key), fingerprint) && NoIntegrity(m.attributes)
    ensures var buf, own := Encoded(p, m, Some(key), fingerprint) + rest, Body(Raws(m.attributes, m.txn));
      Verified(p, buf, other) <==> Matches(p, buf, other, Some((|own|, MacFor(p, m, key, own))))
  {
    var body := Body(Raws(Final(p, m, Some(key), fingerprint), m.txn));
    EncodedFields(p, m, Some(key), fingerprint, rest);
    AppendedMacFound(p, m, key, fingerprint);
    VerifiedOf(p, Encoded(p, m, Some(key), fingerprint) + rest, other, body);
  }

  lemma AppendedMacFound(p: Primitives, m: Message, key: seq<byte>, fingerprint: bool)
    requires RepresentableAll(m.attributes) && NoIntegrity(m.attributes)
    ensures var own := Body(Raws(m.attributes, m.txn));
      FirstMac(ItemsOf(Raws(Final(p, m, Some(key), fingerprint), m.txn), 0)) == Some((|own|, MacFor(p, m, key, own)))
  {
    var own := Raws(m.attributes, m.txn);
    var more := KeyedRaws(p, m, key, fingerprint);
    NoIntegrityType(m.attributes, m.txn);
    var all := Raws(Final(p, m, Some(key), fingerprint), m.txn);
    MacIn(own, Raw(MESSAGE_INTEGRITY, MacFor(p, m, key, Body(own))), more, all);
  }

  lemma MacIn(own: seq<Raw>, mac: Raw, more: seq<Raw>, all: seq<Raw>)
    requires (forall r :: r in own ==> r.typ != MESSAGE_INTEGRITY) && mac.typ == MESSAGE_INTEGRITY
    requires all == own + ([mac] + more)
    ensures FirstMac(ItemsOf(all, 0)) == Some((|Body(own)|, mac.value))
  {
    MacReached(own, 0, mac, more);
  }

  lemma VerifiedOf(p: Primitives, buf: seq<byte>, key: seq<byte>, body: seq<byte>)
    requires MESSAGE_HEADER + |body| <= |buf| && FromBE(buf[2..4]) == |body|
    requires buf[MESSAGE_HEADER..MESSAGE_HEADER + |body|] == body
    ensures Verified(p, buf, key) <==> Matches(p, buf, key, FirstMac(ScanFrom(body, 0)))
  {
  }

  /** What both sides digest. */
  lemma SameDigestInput(p: Primitives, m: Message, key: seq<byte>, fingerprint: bool, rest: seq<byte>)
    requires RepresentableAll(m.attributes)
    ensures var buf, own := Encoded(p, m, Some(key), fingerprint) + rest, Body(Raws(m.attributes, m.txn));
      && MESSAGE_HEADER + |own| <= |buf|
      && SetLength(buf[..MESSAGE_HEADER + |own|], |own| + 24) == Head(m, |own| + 24) + own
  {
    var own := Raws(m.attributes, m.txn);
    var more := KeyedRaws(p, m, key, fingerprint);
    var tail := [Raw(MESSAGE_INTEGRITY, MacFor(p, m, key, Body(own)))] + more;
    BodyConcat(own, tail);
    PrefixOfEncoded(m, Body(own), Body(tail), rest);
    LengthRewritten(m, |Body(own) + Body(tail)|, Body(own), |Body(own)| + 24);
  }

  /**
   * A message without an integrity attribute of its own, encoded under `key`, is accepted under another key
   * exactly when the two digests of what precedes the authenticator coincide; so always under `key` itself.
   */
  lemma KeyedVerifies(p: Primitives, m: Message, key: seq<byte>, fingerprint: bool, rest: seq<byte>, other: seq<byte>)
    requires Encodable(p, m, Some(key), fingerprint) && NoIntegrity(m.attributes)
    ensures var own := Body(Raws(m.attributes, m.txn));
      Verified(p, Encoded(p, m, Some(key), fingerprint) + rest, other) <==>
      p.hmac(key, Head(m, |own| + 24) + own) == p.hmac(other, Head(m, |own| + 24) + own)
  {
    var buf, own := Encoded(p, m, Some(key), fingerprint) + rest, Body(Raws(m.attributes, m.txn));
    KeyedLooksAt(p, m, key, fingerprint, rest, other);
    SameDigestInput(p, m, key, fingerprint, rest);
    DigestDecides(p, buf, other, |own|, MacFor(p, m, key, own), Head(m, |own| + 24) + own);
  }

  lemma DigestDecides(p: Primitives, buf: seq<byte>, key: seq<byte>, at: nat, value: seq<byte>, input: seq<byte>)
    requires MESSAGE_HEADER + at <= |buf| && SetLength(buf[..MESSAGE_HEADER + at], at + 24) == input
    ensures Matches(p, buf, key, Some((at, value))) <==> value == p.hmac(key, input)
  {
  }

  lemma PrefixOfEncoded(m: Message, own: seq<byte>, tail: seq<byte>, rest: seq<byte>)
    ensures var body := own + tail;
      (Head(m, |body|) + body + rest)[..MESSAGE_HEADER + |own|] == Head(m, |body|) + own
  {
    var head := Head(m, |own + tail|);
    FrontPart(head, own, tail, rest);
  }

  lemma FrontPart<T>(a: seq<T>, b: seq<T>, c: seq<T>, d: seq<T>)
    ensures (a + (b + c) + d)[..|a| + |b|] == a + b
  {
  }
}

/** The second reader of the format: binding responses. */
module Stun {
  import opened Bytes
  import opened Wire
  import opened Tlv
  import opened Addresses
  import opened Attributes
  import opened TurnMessage

  const BINDING_RESPONSE := 0x0101

  datatype StunError = ShortResponse | UnexpectedType(typ: nat) | TransactionMismatch | NoMappedAddress

  function Optional<T, E>(r: Result<T, E>): Option<T> {
    match r case Ok(v) => Some(v) case Err(_) => None
  }

  /** A plain mapped address is read only for IPv4. */
  function MappedV4(value: seq<byte>): Option<Address> {
    if |value| >= 8 && value[1] == 1 then Some(V4(FromBE(value[2..4]), FromBE(value[4..8]))) else None
  }

  datatype Found = Found(xored: Option<Address>, plain: Option<Address>)

  /** An address attribute replaces what was found before it, even when it does not parse. */
  function Seen(f: Found, raw: Raw, txn: TxnId): Found {
    if raw.typ == XOR_MAPPED_ADDRESS then f.(xored := Optional(DecodeXor(raw.value, txn)))
    else if raw.typ == MAPPED_ADDRESS then f.(plain := MappedV4(raw.value))
    else f
  }

  function Fold(scan: Scan, txn: TxnId, f: Found): Found {
    if scan.Item? then Fold(scan.rest, txn, Seen(f, scan.raw, txn)) else f
  }

  function Best(f: Found): Result<Address, StunError> {
    if f.xored.Some? then Ok(f.xored.value) else if f.plain.Some? then Ok(f.plain.value) else Err(NoMappedAddress)
  }

  function Response(buf: seq<byte>, txn: TxnId): Result<Address, StunError> {
    if |buf| < MESSAGE_HEADER then Err(ShortResponse)
    else
      var typ, len := FromBE(buf[..2]), FromBE(buf[2..4]);
      if typ != BINDING_RESPONSE then Err(UnexpectedType(typ))
      else if buf[8..20] != txn then Err(TransactionMismatch)
      else
        var end := if MESSAGE_HEADER + len <= |buf| then MESSAGE_HEADER + len else |buf|;
        Best(Fold(ScanFrom(buf[MESSAGE_HEADER..end], 0), txn, Found(None, None)))
  }

  method ParseBindingResponse(buf: seq<byte>, txn: TxnId) returns (r: Result<Address, StunError>)
    ensures r == Response(buf, txn)
  {
    if |buf| < MESSAGE_HEADER {
      return Err(ShortResponse);
    }
    var typ := FromBE(buf[..2]);
    if typ != BINDING_RESPONSE {
      return Err(UnexpectedType(typ));
    }
    if buf[8..20] != txn {
      return Err(TransactionMismatch);
    }
    var len := FromBE(buf[2..4]);
    var attrs := buf[MESSAGE_HEADER..if MESSAGE_HEADER + len <= |buf| then MESSAGE_HEADER + len else |buf|];
    r := Search(attrs, txn);
  }

  method Search(attrs: seq<byte>, txn: TxnId) returns (r: Result<Address, StunError>)
    ensures r == Best(Fold(ScanFrom(attrs, 0), txn, Found(None, None)))
  {
    var offset: nat := 0;
    var xored: Option<Address>, plain: Option<Address> := None, None;
    while offset + 4 <= |attrs|
      invariant Fold(ScanFrom(attrs, 0), txn, Found(None, None)) ==
        Fold(ScanFrom(attrs, offset), txn, Found(xored, plain))
      decreases |attrs| + 4 - offset
    {
      var typ, len := FromBE(attrs[offset..offset + 2]), FromBE(attrs[offset + 2..offset + 4]);
      offset := offset + 4;
      if offset + len > |attrs| {
        break;
      }
      var value := attrs[offset..offset + len];
      ghost var before := Found(xored, plain);
      if typ == XOR_MAPPED_ADDRESS {
        xored := ParseXorMapped(value, txn);
      } else if typ == MAPPED_ADDRESS {
        plain := MappedV4(value);
      }
      assert Found(xored, plain) == Seen(before, Raw(typ, value), txn);
      offset := offset + len + Pad(len);
    }
    r := Best(Found(xored, plain));
  }

  /** The masked address, unmasked octet by octet in place. */
  method ParseXorMapped(value: seq<byte>, txn: TxnId) returns (r: Option<Address>)
    ensures r == Optional(DecodeXor(value, txn))
  {
    if |value| < 8 {
      return None;
    }
    var port := Bits.Xor(FromBE(value[2..4]), COOKIE_HIGH);
    if value[1] == 1 {
      return Some(V4(port, Bits.Xor(FromBE(value[4..8]), COOKIE)));
    }
    if value[1] != 2 || |value| < 20 {
      return None;
    }
    var octets := new byte[16](i requires 0 <= i < 16 => value[4 + i]);
    var key := COOKIE_BYTES + txn;
    for i := 0 to 16
      invariant forall j :: 0 <= j < 16 ==> octets[j] == if j < i then XorByte(value[4 + j], key[j]) else value[4 + j]
    {
      octets[i] := XorByte(octets[i], key[i]);
    }
    assert octets[..] == Masked(value[4..20], txn);
    return Some(V6(port, octets[..]));
  }

  // ---- agreement with the attribute decoder ------------------------------

  /** The last masked address, and the last plain one unless it is IPv6. */
  function SeenAttribute(f: Found, a: Attribute): Found {
    match a
    case XorMappedAddress(x) => f.(xored := Some(x))
    case MappedAddress(x) => f.(plain := if x.V4? then Some(x) else None)
    case _ => f
  }

  function FoldAttributes(attributes: seq<Attribute>, f: Found): Found
    decreases |attributes|
  {
    if attributes == [] then f else FoldAttributes(attributes[1..], SeenAttribute(f, attributes[0]))
  }

  /** `xor_mapped_address` of a decoded message: the first one. */
  function FirstXored(attributes: seq<Attribute>): Option<Address>
    decreases |attributes|
  {
    if attributes == [] then None
    else if attributes[0].XorMappedAddress? then Some(attributes[0].addr)
    else FirstXored(attributes[1..])
  }

  lemma MappedV4Reads(a: Address)
    requires Addresses.Valid(a)
    ensures MappedV4(EncodePlain(a)) == if a.V4? then Some(a) else None
  {
    PlainRoundTrip(a);
  }

  lemma SeenAgrees(f: Found, a: Attribute, txn: TxnId)
    requires WellFormed(a)
    ensures Seen(f, RawOf(a, txn), txn) == SeenAttribute(f, a)
  {
    match a
    case XorMappedAddress(x) => XorRoundTrip(x, txn);
    case MappedAddress(x) => MappedV4Reads(x);
    case _ =>
  }

  lemma {:induction false} FoldAgrees(attributes: seq<Attribute>, raws: seq<Raw>, txn: TxnId, at: nat, f: Found)
    requires |raws| == |attributes|
    requires forall i, g :: 0 <= i < |raws| ==> Seen(g, raws[i], txn) == SeenAttribute(g, attributes[i])
    ensures Fold(ItemsOf(raws, at), txn, f) == FoldAttributes(attributes, f)
    decreases |attributes|
  {
    if attributes != [] {
      assert Seen(f, raws[0], txn) == SeenAttribute(f, attributes[0]);
      FoldAgrees(attributes[1..], raws[1..], txn, at + Size(raws[0]), SeenAttribute(f, attributes[0]));
    }
  }

  lemma ResponseOf(buf: seq<byte>, txn: TxnId, body: seq<byte>)
    requires |buf| >= MESSAGE_HEADER + |body| && FromBE(buf[..2]) == BINDING_RESPONSE && FromBE(buf[2..4]) == |body|
    requires buf[8..20] == txn && buf[MESSAGE_HEADER..MESSAGE_HEADER + |body|] == body
    ensures Response(buf, txn) == Best(Fold(ScanFrom(body, 0), txn, Found(None, None)))
  {
  }

  lemma BindingType()
    ensures TypeBits(1, Success) == BINDING_RESPONSE
  {
  }

  /** What the second reader makes of an encoded binding success, for every list of attributes. */
  lemma ResponseToEncoded(p: Primitives, m: Message, key: Option<seq<byte>>, fingerprint: bool, rest: seq<byte>)
    requires Encodable(p, m, key, fingerprint) && WellFormedAll(m.attributes) && m.kind == 1 && m.cls == Success
    ensures Response(Encoded(p, m, key, fingerprint) + rest, m.txn) ==
            Best(FoldAttributes(Final(p, m, key, fingerprint), Found(None, None)))
  {
    var all := Final(p, m, key, fingerprint);
    var raws := Raws(all, m.txn);
    EncodedFields(p, m, key, fingerprint, rest);
    AppendedAreWellFormed(p, m, key, fingerprint);
    BindingType();
    ResponseOf(Encoded(p, m, key, fingerprint) + rest, m.txn, Body(raws));
    forall i, g | 0 <= i < |raws| ensures Seen(g, raws[i], m.txn) == SeenAttribute(g, all[i]) {
      SeenAgrees(g, all[i], m.txn);
    }
    FoldAgrees(all, raws, m.txn, 0, Found(None, None));
  }

  predicate NoneXored(attributes: seq<Attribute>) {
    forall a :: a in attributes ==> !a.XorMappedAddress?
  }

  lemma {:induction false} SkipOthers(attributes: seq<Attribute>, more: seq<Attribute>, f: Found)
    requires NoneXored(attributes)
    ensures exists plain :: FoldAttributes(attributes + more, f) == FoldAttributes(more, Found(f.xored, plain))
    ensures FirstXored(attributes + more) == FirstXored(more)
    decreases |attributes|
  {
    if attributes == [] {
      assert attributes + more == more && f == Found(f.xored, f.plain);
    } else {
      assert (attributes + more)[1..] == attributes[1..] + more;
      SkipOthers(attributes[1..], more, SeenAttribute(f, attributes[0]));
    }
  }

  /** With exactly one masked address, at any place, both readers find it. */
  lemma ReadersAgree(p: Primitives, m: Message, key: Option<seq<byte>>, fingerprint: bool, rest: seq<byte>,
                     before: seq<Attribute>, addr: Address, behind: seq<Attribute>)
    requires Encodable(p, m, key, fingerprint) && WellFormedAll(m.attributes) && m.kind == 1 && m.cls == Success
    requires m.attributes == before + [XorMappedAddress(addr)] + behind && NoneXored(before) && NoneXored(behind)
    ensures Response(Encoded(p, m, key, fingerprint) + rest, m.txn) == Ok(addr)
    ensures FirstXored(Final(p, m, key, fingerprint)) == Some(addr)
  {
    ResponseToEncoded(p, m, key, fingerprint, rest);
    var appended := Appended(p, m, key, fingerprint);
    Regroup(before, [XorMappedAddress(addr)], behind, appended);
    OneXored(before, addr, behind + appended);
  }

  lemma Appended(p: Primitives, m: Message, key: Option<seq<byte>>, fingerprint: bool)
    returns (appended: seq<Attribute>)
    requires RepresentableAll(m.attributes)
    ensures Final(p, m, key, fingerprint) == m.attributes + appended && NoneXored(appended)
  {
    var signed, all := Signed(p, m, key), Final(p, m, key, fingerprint);
    appended := signed[|m.attributes|..] + all[|signed|..];
  }

  lemma Regroup<T>(a: seq<T>, b: seq<T>, c: seq<T>, d: seq<T>)
    ensures a + b + c + d == a + (b + (c + d))
  {
  }

  lemma OneXored(before: seq<Attribute>, addr: Address, tail: seq<Attribute>)
    requires NoneXored(before) && NoneXored(tail)
    ensures var all := before + ([XorMappedAddress(addr)] + tail);
      Best(FoldAttributes(all, Found(None, None))) == Ok(addr) && FirstXored(all) == Some(addr)
  {
    var rest := [XorMappedAddress(addr)] + tail;
    SkipOthers(before, rest, Found(None, None));
    assert rest[1..] == tail && tail + [] == tail;
    var plain :| FoldAttributes(before + rest, Found(None, None)) == FoldAttributes(rest, Found(None, plain));
    SkipOthers(tail, [], Found(Some(addr), plain));
  }

  // ---- which address is reported ----------------------------------------------

  /** Position `i` holds the last masked address. */
  predicate LastMasked(attributes: seq<Attribute>, i: nat) {
    && i < |attributes| && attributes[i].XorMappedAddress?
    && forall j :: i < j < |attributes| ==> !attributes[j].XorMappedAddress?
  }

  predicate LastPlain(attributes: seq<Attribute>, i: nat) {
    && i < |attributes| && attributes[i].MappedAddress?
    && forall j :: i < j < |attributes| ==> !attributes[j].MappedAddress?
  }

  lemma {:induction false} MaskedStays(attributes: seq<Attribute>, f: Found)
    requires forall j :: 0 <= j < |attributes| ==> !attributes[j].XorMappedAddress?
    ensures FoldAttributes(attributes, f).xored == f.xored
    decreases |attributes|
  {
    if attributes != [] {
      MaskedStays(attributes[1..], SeenAttribute(f, attributes[0]));
    }
  }

  lemma {:induction false} PlainStays(attributes: seq<Attribute>, f: Found)
    requires forall j :: 0 <= j < |attributes| ==> !attributes[j].MappedAddress?
    ensures FoldAttributes(attributes, f).plain == f.plain
    decreases |attributes|
  {
    if attributes != [] {
      PlainStays(attributes[1..], SeenAttribute(f, attributes[0]));
    }
  }

  lemma {:induction false} LastMaskedIsFound(attributes: seq<Attribute>, f: Found, i: nat)
    requires LastMasked(attributes, i)
    ensures FoldAttributes(attributes, f).xored == Some(attributes[i].addr)
    decreases |attributes|
  {
    var rest, g := attributes[1..], SeenAttribute(f, attributes[0]);
    if i == 0 {
      MaskedStays(rest, g);
    } else {
      assert LastMasked(rest, i - 1);
      LastMaskedIsFound(rest, g, i - 1);
    }
  }

  lemma {:induction false} LastPlainIsFound(attributes: seq<Attribute>, f: Found, i: nat)
    requires LastPlain(attributes, i)
    ensures FoldAttributes(attributes, f).plain == if attributes[i].addr.V4? then Some(attributes[i].addr) else None
    decreases |attributes|
  {
    var rest, g := attributes[1..], SeenAttribute(f, attributes[0]);
    if i == 0 {
      PlainStays(rest, g);
    } else {
      assert LastPlain(rest, i - 1);
      LastPlainIsFound(rest, g, i - 1);
    }
  }

  /** A response to an encoded binding success reports its last masked address. */
  lemma MaskedIsReported(p: Primitives, m: Message, key: Option<seq<byte>>, fingerprint: bool, rest: seq<byte>, i: nat)
    requires Encodable(p, m, key, fingerprint) && WellFormedAll(m.attributes) && m.kind == 1 && m.cls == Success
    requires LastMasked(Final(p, m, key, fingerprint), i)
    ensures Response(Encoded(p, m, key, fingerprint) + rest, m.txn) == Ok(Final(p, m, key, fingerprint)[i].addr)
  {
    ResponseToEncoded(p, m, key, fingerprint, rest);
    LastMaskedIsFound(Final(p, m, key, fingerprint), Found(None, None), i);
  }

  /** Without one it reports the last plain address, if that is IPv4. */
  lemma PlainIsReported(p: Primitives, m: Message, key: Option<seq<byte>>, fingerprint: bool, rest: seq<byte>, i: nat)
    requires Encodable(p, m, key, fingerprint) && WellFormedAll(m.attributes) && m.kind == 1 && m.cls == Success
    requires LastPlain(Final(p, m, key, fingerprint), i) && NoneXored(Final(p, m, key, fingerprint))
    ensures var addr := Final(p, m, key, fingerprint)[i].addr;
      Response(Encoded(p, m, key, fingerprint) + rest, m.txn) == if addr.V4? then Ok(addr) else Err(NoMappedAddress)
  {
    var all := Final(p, m, key, fingerprint);
    ResponseToEncoded(p, m, key, fingerprint, rest);
    LastPlainIsFound(all, Found(None, None), i);
    MaskedStays(all, Found(None, None));
  }

  /** Anything that is not a binding success for the transaction is refused, by its bytes. */
  lemma ResponseErrors(buf: seq<byte>, txn: TxnId)
    ensures |buf| < 20 ==> Response(buf, txn) == Err(ShortResponse)
    ensures |buf| >= 20 && FromBE(buf[..2]) != 0x0101 ==> Response(buf, txn) == Err(UnexpectedType(FromBE(buf[..2])))
    ensures |buf| >= 20 && FromBE(buf[..2]) == 0x0101 && buf[8..20] != txn ==>
      Response(buf, txn) == Err(TransactionMismatch)
  {
  }
}
