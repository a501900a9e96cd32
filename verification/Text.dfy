/** Rust strings, as their UTF-8 bytes. */
module Text {
  import opened Bytes

  predicate Continuation(b: byte) {
    0x80 <= b < 0xC0
  }

  /** Length of the well-formed character that starts `s`, or 0 if there is none. */
  function CharLength(s: seq<byte>): (n: nat)
    ensures n <= |s| && n <= 4
  {
    if s == [] then 0
    else if s[0] < 0x80 then 1
    else if |s| >= 2 && 0xC2 <= s[0] < 0xE0 && Continuation(s[1]) then 2
    else if |s| >= 3 && 0xE0 <= s[0] < 0xF0 && Continuation(s[1]) && Continuation(s[2])
            && (s[0] == 0xE0 ==> s[1] >= 0xA0) && (s[0] == 0xED ==> s[1] < 0xA0) then 3
    else if |s| >= 4 && 0xF0 <= s[0] < 0xF5
            && Continuation(s[1]) && Continuation(s[2]) && Continuation(s[3])
            && (s[0] == 0xF0 ==> s[1] >= 0x90) && (s[0] == 0xF4 ==> s[1] < 0x90) then 4
    else 0
  }

  predicate ValidUtf8(s: seq<byte>) {
    s == [] || (CharLength(s) > 0 && ValidUtf8(s[CharLength(s)..]))
  }

  type Text = s: seq<byte> | ValidUtf8(s) witness []

  /** The bytes of an ASCII string. */
  function OfAscii(s: string): (b: seq<byte>)
    requires forall i :: 0 <= i < |s| ==> s[i] < '\U{80}'
    ensures |b| == |s|
  {
    seq(|s|, i requires 0 <= i < |s| => s[i] as int)
  }

  // ---- against the definition of UTF-8 --------------------------------------

  /** A Unicode scalar value: any code point but the surrogates. */
  predicate Scalar(c: nat) {
    c < 0xD800 || 0xE000 <= c < 0x11_0000
  }

  /** The shortest form of a scalar value, six bits to each continuation byte. */
  function CharBytes(c: nat): (b: seq<byte>)
    requires Scalar(c)
  {
    if c < 0x80 then [c]
    else if c < 0x800 then [0xC0 + c / 64, 0x80 + c % 64]
    else if c < 0x1_0000 then [0xE0 + c / 4096, 0x80 + c / 64 % 64, 0x80 + c % 64]
    else [0xF0 + c / 262144, 0x80 + c / 4096 % 64, 0x80 + c / 64 % 64, 0x80 + c % 64]
  }

  predicate AllScalar(cs: seq<nat>) {
    forall i :: 0 <= i < |cs| ==> Scalar(cs[i])
  }

  function Utf8(cs: seq<nat>): seq<byte>
    requires AllScalar(cs)
  {
    if cs == [] then [] else CharBytes(cs[0]) + Utf8(cs[1..])
  }

  /** The scalar value that a well-formed character spells. */
  function CharValue(s: seq<byte>): nat
    requires CharLength(s) > 0
  {
    var n, a: int := CharLength(s), s[0];
    if n == 1 then a
    else
      var b: int := s[1];
      if n == 2 then (a - 0xC0) * 64 + (b - 0x80)
      else
        var d: int := s[2];
        if n == 3 then (a - 0xE0) * 4096 + (b - 0x80) * 64 + (d - 0x80)
        else (a - 0xF0) * 262144 + (b - 0x80) * 4096 + (d - 0x80) * 64 + (s[3] - 0x80)
  }

  lemma TwoDigits(a: nat, b: nat)
    requires b < 64
    ensures (a * 64 + b) / 64 == a && (a * 64 + b) % 64 == b
  {
  }

  lemma ThreeDigits(a: nat, b: nat, d: nat)
    requires b < 64 && d < 64
    ensures var n := a * 4096 + b * 64 + d; n / 4096 == a && n / 64 % 64 == b && n % 64 == d
  {
    var n := a * 4096 + b * 64 + d;
    TwoDigits(a * 64 + b, d);
    TwoDigits(a, b);
    assert n == (a * 64 + b) * 64 + d && n / 4096 == n / 64 / 64;
  }

  lemma FourDigits(a: nat, b: nat, d: nat, e: nat)
    requires b < 64 && d < 64 && e < 64
    ensures var n := a * 262144 + b * 4096 + d * 64 + e;
      n / 262144 == a && n / 4096 % 64 == b && n / 64 % 64 == d && n % 64 == e
  {
    var n := a * 262144 + b * 4096 + d * 64 + e;
    var m := a * 4096 + b * 64 + d;
    TwoDigits(m, e);
    ThreeDigits(a, b, d);
    assert n == m * 64 + e;
    assert n / 4096 == n / 64 / 64 && n / 262144 == n / 64 / 4096;
  }

  /** A well-formed character is the shortest form of its value. */
  lemma CharIsShortest(s: seq<byte>)
    requires CharLength(s) > 0
    ensures Scalar(CharValue(s)) && CharBytes(CharValue(s)) == s[..CharLength(s)]
  {
    match CharLength(s)
    case 1 =>
    case 2 => TwoDigits(s[0] - 0xC0, s[1] - 0x80);
    case 3 => ThreeDigits(s[0] - 0xE0, s[1] - 0x80, s[2] - 0x80);
    case 4 => FourDigits(s[0] - 0xF0, s[1] - 0x80, s[2] - 0x80, s[3] - 0x80);
  }

  /** And the shortest form of every scalar value is well formed. */
  lemma ShortestIsChar(c: nat, rest: seq<byte>)
    requires Scalar(c)
    ensures CharLength(CharBytes(c) + rest) == |CharBytes(c)| > 0
  {
    var s := CharBytes(c) + rest;
    assert s[..|CharBytes(c)|] == CharBytes(c);
  }

  lemma {:induction false} ScalarsAreText(cs: seq<nat>)
    requires AllScalar(cs)
    ensures ValidUtf8(Utf8(cs))
  {
    if cs != [] {
      ScalarsAreText(cs[1..]);
      ShortestIsChar(cs[0], Utf8(cs[1..]));
      assert Utf8(cs)[|CharBytes(cs[0])|..] == Utf8(cs[1..]);
    }
  }

  lemma {:induction false} TextIsScalars(s: seq<byte>) returns (cs: seq<nat>)
    requires ValidUtf8(s)
    ensures AllScalar(cs) && Utf8(cs) == s
    decreases |s|
  {
    cs := [];
    if s != [] {
      var n := CharLength(s);
      var rest := TextIsScalars(s[n..]);
      CharIsShortest(s);
      cs := [CharValue(s)] + rest;
      assert cs[1..] == rest && s == s[..n] + s[n..];
    }
  }

  /** Text is exactly what encoding scalar values gives: no surrogates, nothing overlong, nothing out of range. */
  lemma TextExactly(s: seq<byte>)
    ensures ValidUtf8(s) <==> exists cs :: AllScalar(cs) && Utf8(cs) == s
  {
    if ValidUtf8(s) {
      var cs := TextIsScalars(s);
    }
    if cs :| AllScalar(cs) && Utf8(cs) == s {
      ScalarsAreText(cs);
    }
  }
}
