/** The part of UTF-8 (section 3 of RFC 3629) that chunking and screen diffs rely on. */
module Utf8 {

  type Byte = b: int | 0 <= b < 0x100

  /** A Unicode scalar value: any code point outside the surrogate range. */
  type Scalar = c: int | 0 <= c < 0xD800 || 0xE000 <= c < 0x11_0000

  /** `byte & 0xc0 == 0x80`: every byte of a character but its first. */
  predicate IsContinuation(b: Byte) {
    0x80 <= b < 0xC0
  }

  function EncodeScalar(c: Scalar): (r: seq<Byte>)
    ensures 1 <= |r| <= 4
    ensures !IsContinuation(r[0])
    ensures forall i | 1 <= i < |r| :: IsContinuation(r[i])
  {
    if c < 0x80 then [c]
    else if c < 0x800 then [0xC0 + c / 0x40, 0x80 + c % 0x40]
    else if c < 0x1_0000 then [0xE0 + c / 0x1000, 0x80 + c / 0x40 % 0x40, 0x80 + c % 0x40]
    else [0xF0 + c / 0x4_0000, 0x80 + c / 0x1000 % 0x40, 0x80 + c / 0x40 % 0x40, 0x80 + c % 0x40]
  }

  function Encode(s: seq<Scalar>): seq<Byte> {
    if s == [] then [] else EncodeScalar(s[0]) + Encode(s[1..])
  }

  /** `str::is_char_boundary` on the bytes of a string. */
  predicate IsBoundary(bytes: seq<Byte>, i: nat) {
    i == 0 || i == |bytes| || (i < |bytes| && !IsContinuation(bytes[i]))
  }

  /** The length of the longest common prefix. */
  function CommonPrefix<T(==)>(a: seq<T>, b: seq<T>): (n: nat)
    ensures n <= |a| && n <= |b| && a[..n] == b[..n]
    ensures n < |a| && n < |b| ==> a[n] != b[n]
  {
    if a != [] && b != [] && a[0] == b[0] then
      var n := 1 + CommonPrefix(a[1..], b[1..]);
      assert a[..n] == [a[0]] + a[1..][..n - 1] && b[..n] == [b[0]] + b[1..][..n - 1];
      n
    else
      0
  }

  lemma {:induction false} EncodeConcat(s: seq<Scalar>, t: seq<Scalar>)
    ensures Encode(s + t) == Encode(s) + Encode(t)
  {
    if s == [] {
      assert s + t == t;
    } else {
      assert (s + t)[1..] == s[1..] + t;
      EncodeConcat(s[1..], t);
    }
  }

  lemma EncodeSplit(s: seq<Scalar>, k: nat)
    requires k <= |s|
    ensures Encode(s) == Encode(s[..k]) + Encode(s[k..])
  {
    assert s == s[..k] + s[k..];
    EncodeConcat(s[..k], s[k..]);
  }

  lemma {:induction false} EncodeIsEmpty(s: seq<Scalar>)
    ensures |Encode(s)| >= |s|
  {
    if s != [] {
      EncodeIsEmpty(s[1..]);
    }
  }

  /** Reading the payload bits back out of one encoded character. */
  function DecodeScalar(r: seq<Byte>): int
    requires 1 <= |r| <= 4
  {
    if |r| == 1 then r[0]
    else if |r| == 2 then (r[0] as int - 0xC0) * 0x40 + (r[1] as int - 0x80)
    else if |r| == 3 then (r[0] as int - 0xE0) * 0x1000 + (r[1] as int - 0x80) * 0x40 + (r[2] as int - 0x80)
    else
      (r[0] as int - 0xF0) * 0x4_0000 + (r[1] as int - 0x80) * 0x1000
      + (r[2] as int - 0x80) * 0x40 + (r[3] as int - 0x80)
  }

  lemma DecodeEncodeScalar(c: Scalar)
    ensures DecodeScalar(EncodeScalar(c)) == c
  {
    var q := c / 0x40;
    assert c == q * 0x40 + c % 0x40;
    var h := q / 0x40;
    assert q == h * 0x40 + q % 0x40;
    assert h == c / 0x1000;
    var t := h / 0x40;
    assert h == t * 0x40 + h % 0x40;
    assert t == c / 0x4_0000;
  }

  /** The first byte tells how many bytes there are, and code points take no more bytes than they need (the table of
      section 3 of RFC 3629). */
  lemma LeadByteTellsLength(c: Scalar)
    ensures var r := EncodeScalar(c);
            && (|r| == 1 <==> c < 128) && (|r| <= 2 <==> c < 2048) && (|r| <= 3 <==> c < 65536)
            && (|r| == 1 <==> r[0] < 128) && (|r| == 2 <==> 192 <= r[0] < 224)
            && (|r| == 3 <==> 224 <= r[0] < 240) && (|r| == 4 <==> 240 <= r[0] < 248)
  {
  }

  lemma LeadByteFixesLength(c: Scalar, d: Scalar)
    requires EncodeScalar(c)[0] == EncodeScalar(d)[0]
    ensures |EncodeScalar(c)| == |EncodeScalar(d)|
  {
  }

  /** No character's encoding is a prefix of another's. */
  lemma EncodeScalarPrefixFree(c: Scalar, d: Scalar)
    requires EncodeScalar(c) <= EncodeScalar(d)
    ensures c == d
  {
    LeadByteFixesLength(c, d);
    DecodeEncodeScalar(c);
    DecodeEncodeScalar(d);
    assert EncodeScalar(c) == EncodeScalar(d);
  }

  /** In valid UTF-8 the boundaries are exactly the ends of whole-character prefixes. */
  lemma {:induction false} BoundaryIsScalarEdge(s: seq<Scalar>, i: nat)
    requires i <= |Encode(s)|
    ensures IsBoundary(Encode(s), i) <==> exists k :: 0 <= k <= |s| && i == |Encode(s[..k])|
  {
    if s == [] {
      assert |Encode(s[..0])| == 0;
    } else {
      var head := EncodeScalar(s[0]);
      if i == 0 {
        assert |Encode(s[..0])| == 0;
      } else if i < |head| {
        assert IsContinuation(Encode(s)[i]);
        forall k | 0 <= k <= |s|
          ensures i != |Encode(s[..k])|
        {
          if k > 0 {
            assert s[..k][0] == s[0];
          }
        }
      } else {
        BoundaryIsScalarEdge(s[1..], i - |head|);
        assert i < |Encode(s)| ==> Encode(s)[i] == Encode(s[1..])[i - |head|];
        assert IsBoundary(Encode(s), i) <==> IsBoundary(Encode(s[1..]), i - |head|) by {
          if i == |head| && s[1..] != [] {
            assert Encode(s[1..])[0] == EncodeScalar(s[1])[0];
          }
        }
        forall k | 0 <= k < |s|
          ensures |Encode(s[..k + 1])| == |head| + |Encode(s[1..][..k])|
        {
          assert s[..k + 1][1..] == s[1..][..k];
        }
        if k :| 0 <= k <= |s[1..]| && i - |head| == |Encode(s[1..][..k])| {
          assert i == |Encode(s[..k + 1])|;
        }
        if k :| 0 <= k <= |s| && i == |Encode(s[..k])| {
          assert k > 0;
          assert i - |head| == |Encode(s[1..][..k - 1])|;
        }
      }
    }
  }
}
