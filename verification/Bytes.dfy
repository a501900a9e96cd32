/** Octets, big-endian integers and the byte order that Rust derives for `[u8]`. */
module Bytes {

  type byte = x: int | 0 <= x < 256

  datatype Option<+T> = None | Some(value: T)

  lemma PrefixSnoc<T>(s: seq<T>, i: nat)
    requires i < |s|
    ensures s[..i + 1] == s[..i] + [s[i]] && s[..i + 1][..i] == s[..i] && s[..i + 1][i] == s[i]
    ensures s[..|s|] == s
  {
  }

  lemma SubSlice<T>(s: seq<T>, off: nat, part: seq<T>, i: nat, j: nat)
    requires off + |part| <= |s| && s[off..off + |part|] == part && i <= j <= |part|
    ensures s[off + i..off + j] == part[i..j]
  {
    var a, b := s[off + i..off + j], part[i..j];
    forall k | 0 <= k < |b| ensures a[k] == b[k] {
      assert s[off..off + |part|][i + k] == s[off + i + k];
    }
  }

  function Pow256(k: nat): (p: nat)
    ensures p > 0
  {
    if k == 0 then 1 else 256 * Pow256(k - 1)
  }

  /** The `k` low-order bytes of `n`, most significant first (`to_be_bytes`). */
  function ToBE(n: nat, k: nat): (s: seq<byte>)
    ensures |s| == k
  {
    if k == 0 then [] else ToBE(n / 256, k - 1) + [n % 256]
  }

  /** `from_be_bytes`. */
  function FromBE(s: seq<byte>): (n: nat)
    ensures n < Pow256(|s|)
  {
    if s == [] then 0 else 256 * FromBE(s[..|s| - 1]) + s[|s| - 1]
  }

  lemma FromBESnoc(a: seq<byte>, x: byte)
    ensures FromBE(a + [x]) == 256 * FromBE(a) + x
  {
    assert (a + [x])[..|a|] == a;
  }

  lemma {:induction false} BigEndianRoundTrip(n: nat, k: nat)
    requires n < Pow256(k)
    ensures FromBE(ToBE(n, k)) == n
  {
    if k > 0 {
      FromBESnoc(ToBE(n / 256, k - 1), n % 256);
      BigEndianRoundTrip(n / 256, k - 1);
    }
  }

  lemma {:induction false} BigEndianInverse(s: seq<byte>)
    ensures ToBE(FromBE(s), |s|) == s
  {
    if s != [] {
      BigEndianInverse(s[..|s| - 1]);
      assert s == s[..|s| - 1] + [s[|s| - 1]];
    }
  }

  /** Lexicographic order, as derived by `Ord` on byte arrays. */
  predicate LexLess(a: seq<byte>, b: seq<byte>) {
    if a == [] then b != []
    else b != [] && (a[0] < b[0] || (a[0] == b[0] && LexLess(a[1..], b[1..])))
  }

  lemma {:induction false} LexTotal(a: seq<byte>, b: seq<byte>)
    ensures LexLess(a, b) || a == b || LexLess(b, a)
    ensures !(LexLess(a, b) && LexLess(b, a))
    ensures !LexLess(a, a)
  {
    if a != [] {
      LexTotal(a[1..], a[1..]);
      if b != [] && a[0] == b[0] {
        LexTotal(a[1..], b[1..]);
        assert a == [a[0]] + a[1..] && b == [b[0]] + b[1..];
      }
    }
  }

  lemma {:induction false} LexTransitive(a: seq<byte>, b: seq<byte>, c: seq<byte>)
    requires LexLess(a, b) && LexLess(b, c)
    ensures LexLess(a, c)
  {
    if a != [] && a[0] == b[0] && b[0] == c[0] {
      LexTransitive(a[1..], b[1..], c[1..]);
    }
  }

  /** Equal-length prefixes are compared first. */
  lemma {:induction false} LexConcat(a: seq<byte>, b: seq<byte>, a': seq<byte>, b': seq<byte>)
    requires |a| == |a'|
    ensures LexLess(a + b, a' + b') <==> LexLess(a, a') || (a == a' && LexLess(b, b'))
  {
    if a == [] {
      assert a + b == b && a' + b' == b';
    } else {
      assert (a + b)[1..] == a[1..] + b && (a' + b')[1..] == a'[1..] + b';
      assert a == [a[0]] + a[1..] && a' == [a'[0]] + a'[1..];
      LexConcat(a[1..], b, a'[1..], b');
    }
  }

  /** Big-endian keys sort as the numbers they encode. */
  lemma {:induction false} BigEndianOrder(m: nat, n: nat, k: nat)
    requires m < Pow256(k) && n < Pow256(k)
    ensures LexLess(ToBE(m, k), ToBE(n, k)) <==> m < n
    ensures ToBE(m, k) == ToBE(n, k) <==> m == n
  {
    if k > 0 {
      BigEndianOrder(m / 256, n / 256, k - 1);
      LexConcat(ToBE(m / 256, k - 1), [m % 256], ToBE(n / 256, k - 1), [n % 256]);
      assert ToBE(m, k)[..k - 1] == ToBE(m / 256, k - 1) && ToBE(m, k)[k - 1] == m % 256;
      assert ToBE(n, k)[..k - 1] == ToBE(n / 256, k - 1) && ToBE(n, k)[k - 1] == n % 256;
    }
  }

  /** On arrays of one length the byte order is the order of the numbers they spell. */
  lemma LexIsNumeric(a: seq<byte>, b: seq<byte>)
    requires |a| == |b|
    ensures LexLess(a, b) <==> FromBE(a) < FromBE(b)
    ensures a == b <==> FromBE(a) == FromBE(b)
  {
    BigEndianInverse(a);
    BigEndianInverse(b);
    BigEndianOrder(FromBE(a), FromBE(b), |a|);
  }
}
