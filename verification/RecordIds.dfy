/** Membership record ids: a peer id in hexadecimal. */
module RecordIds {
  import opened Bytes
  import opened Text
  import opened Clock

  /** What reading an id back does; slicing inside a multi-byte character panics. */
  datatype Parsed = Peer(bytes: seq<byte>) | NotAPeer | Panics

  predicate Ascii(s: seq<byte>) {
    forall i :: 0 <= i < |s| ==> s[i] < 0x80
  }

  lemma {:induction false} AsciiIsText(s: seq<byte>)
    requires Ascii(s)
    ensures ValidUtf8(s)
    decreases |s|
  {
    if s != [] {
      assert CharLength(s) == 1;
      AsciiIsText(s[1..]);
    }
  }

  function HexDigit(n: nat): (b: byte)
    requires n < 16
    ensures b < 0x80
  {
    if n < 10 then 0x30 + n else 0x57 + n
  }

  /** Two lower-case digits per byte. */
  function Hex(s: seq<byte>): (h: seq<byte>)
    ensures |h| == 2 * |s| && Ascii(h)
  {
    if s == [] then [] else Hex(s[..|s| - 1]) + [HexDigit(s[|s| - 1] / 16), HexDigit(s[|s| - 1] % 16)]
  }

  function RecordId(peer: PeerId): (id: Text)
    ensures |id| == 64 && Ascii(id)
  {
    AsciiIsText(Hex(peer));
    Hex(peer)
  }

  method MemberRecordId(peer: PeerId) returns (id: Text)
    ensures id == RecordId(peer)
  {
    var s: seq<byte> := [];
    for i := 0 to |peer|
      invariant s == Hex(peer[..i])
    {
      s := s + [HexDigit(peer[i] / 16), HexDigit(peer[i] % 16)];
      PrefixSnoc(peer, i);
    }
    assert peer[..|peer|] == peer;
    AsciiIsText(s);
    id := s;
  }

  /** A digit of either case. */
  function DigitValue(b: byte): (v: Option<nat>)
    ensures v.Some? ==> v.value < 16
  {
    if 0x30 <= b <= 0x39 then Some(b - 0x30)
    else if 0x41 <= b <= 0x46 then Some(b - 0x37)
    else if 0x61 <= b <= 0x66 then Some(b - 0x57)
    else None
  }

  /** Rust's `u8::from_str_radix(_, 16)` on two bytes; a leading plus sign is accepted. */
  function PairValue(a: byte, b: byte): Option<byte> {
    if DigitValue(b).None? then None
    else if a == 0x2B then Some(DigitValue(b).value)
    else if DigitValue(a).None? then None
    else Some(16 * DigitValue(a).value + DigitValue(b).value)
  }

  predicate Boundary(s: seq<byte>, i: nat)
    requires i <= |s|
  {
    i == |s| || !Continuation(s[i])
  }

  /** The first `n` pairs; the first one that fails decides. */
  function ParsePairs(id: seq<byte>, n: nat): (r: Parsed)
    requires 2 * n <= |id|
    ensures r.Peer? ==> |r.bytes| == n
  {
    if n == 0 then Peer([])
    else
      var r := ParsePairs(id, n - 1);
      if !r.Peer? then r
      else if !Boundary(id, 2 * n - 2) || !Boundary(id, 2 * n) then Panics
      else
        var v := PairValue(id[2 * n - 2], id[2 * n - 1]);
        if v.None? then NotAPeer else Peer(r.bytes + [v.value])
  }

  function ParseId(id: Text): (r: Parsed)
    ensures r.Peer? ==> |r.bytes| == PEER_ID_LEN
  {
    if |id| != 64 then NotAPeer else ParsePairs(id, |id| / 2)
  }

  method PeerFromRecordId(id: Text) returns (r: Parsed)
    ensures r == ParseId(id)
  {
    if |id| != 64 {
      return NotAPeer;
    }
    var peer: seq<byte> := [];
    for i := 0 to |id| / 2
      invariant ParsePairs(id, i) == Peer(peer)
    {
      if !Boundary(id, 2 * i) || !Boundary(id, 2 * i + 2) {
        FailureStays(id, i + 1, |id| / 2);
        return Panics;
      }
      var slot := PairValue(id[2 * i], id[2 * i + 1]);
      if slot.None? {
        FailureStays(id, i + 1, |id| / 2);
        return NotAPeer;
      }
      peer := peer + [slot.value];
    }
    return Peer(peer);
  }

  lemma {:induction false} FailureStays(id: seq<byte>, i: nat, n: nat)
    requires i <= n && 2 * n <= |id| && !ParsePairs(id, i).Peer?
    ensures ParsePairs(id, n) == ParsePairs(id, i)
  {
    if i < n {
      FailureStays(id, i, n - 1);
    }
  }

  /** Pair `k` lies between two character boundaries. */
  predicate Aligned(id: seq<byte>, k: nat)
    requires 2 * k + 2 <= |id|
  {
    Boundary(id, 2 * k) && Boundary(id, 2 * k + 2)
  }

  predicate Reads(id: seq<byte>, k: nat)
    requires 2 * k + 2 <= |id|
  {
    Aligned(id, k) && PairValue(id[2 * k], id[2 * k + 1]).Some?
  }

  /** Pair `k` cuts a character in two and everything before it was read. */
  predicate CutsAt(id: seq<byte>, k: nat)
    requires 2 * k + 2 <= |id|
  {
    !Aligned(id, k) && forall j :: 0 <= j < k ==> Reads(id, j)
  }

  lemma LastPair(id: seq<byte>, n: nat)
    requires n > 0 && 2 * n <= |id| && ParsePairs(id, n - 1).Peer?
    ensures ParsePairs(id, n).Panics? <==> !Aligned(id, n - 1)
    ensures ParsePairs(id, n).Peer? <==> Reads(id, n - 1)
  {
    assert 2 * (n - 1) == 2 * n - 2;
  }

  lemma {:induction false} PairsDecide(id: seq<byte>, n: nat)
    requires 2 * n <= |id|
    ensures ParsePairs(id, n).Peer? <==> forall j :: 0 <= j < n ==> Reads(id, j)
    ensures ParsePairs(id, n).Panics? <==> exists k :: 0 <= k < n && CutsAt(id, k)
  {
    if n > 0 {
      PairsDecide(id, n - 1);
      if ParsePairs(id, n - 1).Peer? {
        LastPair(id, n);
        assert CutsAt(id, n - 1) <==> !Aligned(id, n - 1);
        assert forall k :: 0 <= k < n - 1 ==> Reads(id, k) && !CutsAt(id, k);
      } else {
        var j :| 0 <= j < n - 1 && !Reads(id, j);
        assert forall k :: j < k < n ==> !CutsAt(id, k);
      }
    }
  }

  /**
   * What an id's bytes decide: it names a peer when it has 64 bytes and all 32 pairs read; it panics when it
   * has 64 bytes and some pair cuts a character after every earlier pair has read; otherwise it names nobody.
   */
  lemma ParsesExactly(id: Text)
    ensures ParseId(id).Peer? <==> |id| == 64 && forall j :: 0 <= j < 32 ==> Reads(id, j)
    ensures ParseId(id).Panics? <==> |id| == 64 && exists k :: 0 <= k < 32 && CutsAt(id, k)
  {
    if |id| == 64 {
      PairsDecide(id, |id| / 2);
    }
  }

  /**
   * An id that panics: a digit, a two-byte character across the end of the first pair, and any 61 more bytes
   * of ASCII.
   */
  lemma CutIdPanics(rest: seq<byte>)
    requires |rest| == 61 && Ascii(rest)
    ensures var id := [0x30, 0xC3, 0xA9] + rest; ValidUtf8(id) && ParseId(id) == Panics
  {
    var id: seq<byte> := [0x30, 0xC3, 0xA9] + rest;
    AsciiIsText(rest);
    assert id[1..][2..] == rest && CharLength(id) == 1 && CharLength(id[1..]) == 2;
    assert ValidUtf8(id[1..]);
    assert CutsAt(id, 0);
    ParsesExactly(id);
  }

  lemma DigitRoundTrip(n: nat)
    requires n < 16
    ensures DigitValue(HexDigit(n)) == Some(n) && HexDigit(n) != 0x2B
  {
  }

  lemma HexPair(s: seq<byte>, k: nat)
    requires k < |s|
    ensures Hex(s)[2 * k] == HexDigit(s[k] / 16) && Hex(s)[2 * k + 1] == HexDigit(s[k] % 16)
  {
    if k < |s| - 1 {
      HexPair(s[..|s| - 1], k);
    }
  }

  lemma {:induction false} PairsRoundTrip(s: seq<byte>, n: nat)
    requires n <= |s|
    ensures ParsePairs(Hex(s), n) == Peer(s[..n])
  {
    if n > 0 {
      PairsRoundTrip(s, n - 1);
      HexPair(s, n - 1);
      DigitRoundTrip(s[n - 1] / 16);
      DigitRoundTrip(s[n - 1] % 16);
      assert s[..n] == s[..n - 1] + [s[n - 1]];
    }
  }

  /** Every peer's own record id reads back as that peer, so no two peers share one. */
  lemma RecordIdRoundTrip(peer: PeerId)
    ensures ParseId(RecordId(peer)) == Peer(peer)
  {
    PairsRoundTrip(peer, |peer|);
    assert peer[..|peer|] == peer;
  }

  lemma RecordIdInjective(a: PeerId, b: PeerId)
    requires RecordId(a) == RecordId(b)
    ensures a == b
  {
    RecordIdRoundTrip(a);
    RecordIdRoundTrip(b);
  }

  /** Ids are written with lower-case digits. */
  lemma RecordIdIsLowerCase(peer: PeerId, i: nat)
    requires i < 64
    ensures RecordId(peer)[i] in OfAscii("0123456789abcdef")
  {
    HexPair(peer, i / 2);
    if i % 2 == 0 {
      LowerCase(peer[i / 2] / 16);
    } else {
      LowerCase(peer[i / 2] % 16);
    }
  }

  lemma LowerCase(n: nat)
    requires n < 16
    ensures HexDigit(n) == OfAscii("0123456789abcdef")[n]
  {
  }

  /** A digit is read in either case, and nothing else is. */
  lemma DigitsExactly(b: byte, v: nat)
    requires v < 16
    ensures DigitValue(b) == Some(v) <==> b == OfAscii("0123456789abcdef")[v] || b == OfAscii("0123456789ABCDEF")[v]
  {
  }

  /** A pair is two digits, most significant first, or a plus sign and one digit. */
  lemma PairsExactly(a: byte, b: byte, v: byte)
    ensures PairValue(a, b) == Some(v) <==>
      || (DigitValue(a) == Some(v / 16) && DigitValue(b) == Some(v % 16))
      || (a == OfAscii("+")[0] && v < 16 && DigitValue(b) == Some(v))
  {
    if DigitValue(a).Some? && DigitValue(b).Some? {
      var x, y := DigitValue(a).value, DigitValue(b).value;
      assert (16 * x + y) / 16 == x && (16 * x + y) % 16 == y;
    }
  }
}
