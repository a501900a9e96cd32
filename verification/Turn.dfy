/** Type-length-value attributes: the body of every STUN and TURN message. */
module Tlv {
  import opened Bytes
  import opened Wire

  const U16_LIMIT := 0x1_0000

  datatype Raw = Raw(typ: nat, value: seq<byte>)

  predicate Valid(r: Raw) {
    r.typ < U16_LIMIT && |r.value| < U16_LIMIT
  }

  function Pad(n: nat): (p: nat)
    ensures p < 4 && (n + p) % 4 == 0
  {
    (4 - n % 4) % 4
  }

  function Zeros(n: nat): (z: seq<byte>)
    ensures |z| == n
  {
    seq(n, _ => 0)
  }

  function Size(r: Raw): nat {
    4 + |r.value| + Pad(|r.value|)
  }

  /** Type, length (cut to 16 bits), value, and zeros up to a multiple of four. */
  function Chunk(r: Raw): (b: seq<byte>)
    ensures |b| == Size(r)
  {
    ToBE(r.typ, 2) + ToBE(|r.value| % U16_LIMIT, 2) + r.value + Zeros(Pad(|r.value|))
  }

  function Body(raws: seq<Raw>): seq<byte>
    decreases |raws|
  {
    if raws == [] then [] else Chunk(raws[0]) + Body(raws[1..])
  }

  lemma {:induction false} BodyConcat(a: seq<Raw>, b: seq<Raw>)
    ensures Body(a + b) == Body(a) + Body(b)
    decreases |a|
  {
    if a == [] {
      assert a + b == b;
    } else {
      assert (a + b)[1..] == a[1..] + b;
      BodyConcat(a[1..], b);
    }
  }

  lemma BodyOne(r: Raw)
    ensures Body([r]) == Chunk(r)
  {
    assert [r][1..] == [];
  }

  /**
   * What walking a body meets: an attribute that runs past the end, or the offset where fewer than four bytes
   * are left.
   */
  datatype Scan =
    | Stop(at: nat)
    | Overrun
    | Item(at: nat, raw: Raw, rest: Scan)

  function ScanFrom(body: seq<byte>, at: nat): Scan
    decreases |body| + 4 - at
  {
    if at + 4 > |body| then Stop(at)
    else
      var len := FromBE(body[at + 2..at + 4]);
      var start := at + 4;
      if start + len > |body| then Overrun
      else Item(at, Raw(FromBE(body[at..at + 2]), body[start..start + len]),
                ScanFrom(body, start + len + Pad(len)))
  }

  function ItemsOf(raws: seq<Raw>, at: nat): Scan
    decreases |raws|
  {
    if raws == [] then Stop(at) else Item(at, raws[0], ItemsOf(raws[1..], at + Size(raws[0])))
  }

  lemma ShortRoundTrip(n: nat)
    requires n < U16_LIMIT
    ensures FromBE(ToBE(n, 2)) == n
  {
    Pow256Values();
    BigEndianRoundTrip(n, 2);
  }

  /** The fields of one attribute's bytes. */
  predicate Fields(chunk: seq<byte>, r: Raw) {
    && |chunk| == Size(r)
    && FromBE(chunk[..2]) == r.typ && FromBE(chunk[2..4]) == |r.value| && chunk[4..4 + |r.value|] == r.value
  }

  lemma ChunkFields(r: Raw)
    requires Valid(r)
    ensures Fields(Chunk(r), r)
  {
    var typ, len, pad := ToBE(r.typ, 2), ToBE(|r.value| % U16_LIMIT, 2), Zeros(Pad(|r.value|));
    FourParts(typ, len, r.value, pad);
    ShortRoundTrip(r.typ);
    ShortRoundTrip(|r.value|);
  }

  lemma FourParts<T>(a: seq<T>, b: seq<T>, c: seq<T>, d: seq<T>)
    ensures var s, n, m := a + b + c + d, |a| + |b|, |a| + |b| + |c|;
      s[..|a|] == a && s[|a|..n] == b && s[n..m] == c
  {
  }

  lemma ScanOne(body: seq<byte>, at: nat, r: Raw, next: nat)
    requires next == at + Size(r) <= |body|
    requires FromBE(body[at..at + 2]) == r.typ && FromBE(body[at + 2..at + 4]) == |r.value|
    requires body[at + 4..at + 4 + |r.value|] == r.value
    ensures ScanFrom(body, at) == Item(at, r, ScanFrom(body, next))
  {
  }

  /** Scanning at the start of an attribute yields it and moves past it. */
  lemma ScanFirst(body: seq<byte>, at: nat, chunk: seq<byte>, r: Raw)
    requires Fields(chunk, r) && at + |chunk| <= |body| && body[at..at + |chunk|] == chunk
    ensures ScanFrom(body, at) == Item(at, r, ScanFrom(body, at + |chunk|))
  {
    SubSlice(body, at, chunk, 0, 2);
    SubSlice(body, at, chunk, 2, 4);
    SubSlice(body, at, chunk, 4, 4 + |r.value|);
    ScanOne(body, at, r, at + |chunk|);
  }

  /** Scanning a body that was built from attributes gives those attributes back. */
  lemma {:induction false} ScanBody(body: seq<byte>, at: nat, raws: seq<Raw>)
    requires (forall r :: r in raws ==> Valid(r)) && at <= |body| && body[at..] == Body(raws)
    ensures ScanFrom(body, at) == ItemsOf(raws, at)
    decreases |raws|
  {
    if raws != [] {
      var r, rest := raws[0], Body(raws[1..]);
      assert Valid(r);
      ChunkFields(r);
      SplitAt(body, at, Chunk(r), rest);
      ScanFirst(body, at, Chunk(r), r);
      ScanBody(body, at + Size(r), raws[1..]);
    }
  }

  lemma SplitAt<T>(s: seq<T>, at: nat, a: seq<T>, b: seq<T>)
    requires at <= |s| && s[at..] == a + b
    ensures at + |a| <= |s| && s[at..at + |a|] == a && s[at + |a|..] == b
  {
    assert s[at..][..|a|] == s[at..at + |a|];
    assert s[at..][|a|..] == s[at + |a|..];
  }
}
