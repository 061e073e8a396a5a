/** The base64 codec of logged event data: `base64_bytes` in crates/tttt-log/src/event.rs. */
module Base64 {
  import opened Wrappers
  import opened Utf8

  type Sextet = v: int | 0 <= v < 64

  const PAD: Byte := '=' as int

  /** The alphabet of section 4 of RFC 4648. */
  function Symbol(v: Sextet): Byte {
    if v < 26 then 'A' as int + v
    else if v < 52 then 'a' as int + (v - 26)
    else if v < 62 then '0' as int + (v - 52)
    else if v == 62 then '+' as int
    else '/' as int
  }

  /** The reader's table; padding reads as zero bits. */
  function Val(c: Byte): Result<Sextet, Byte> {
    if 'A' as int <= c <= 'Z' as int then Ok(c - 'A' as int)
    else if 'a' as int <= c <= 'z' as int then Ok(c - 'a' as int + 26)
    else if '0' as int <= c <= '9' as int then Ok(c - '0' as int + 52)
    else if c == '+' as int then Ok(62)
    else if c == '/' as int then Ok(63)
    else if c == PAD then Ok(0)
    else Err(c)
  }

  /** Section 4 of RFC 4648, in order. */
  const ALPHABET: string := "ABCDEFGHIJKLMNOPQRSTUVWXYZ" + "abcdefghijklmnopqrstuvwxyz" + "0123456789" + "+/"

  lemma UpperCase(v: nat)
    requires v < 26
    ensures "ABCDEFGHIJKLMNOPQRSTUVWXYZ"[v] as int == 'A' as int + v
  {
  }

  lemma LowerCase(v: nat)
    requires v < 26
    ensures "abcdefghijklmnopqrstuvwxyz"[v] as int == 'a' as int + v
  {
  }

  lemma Digits(v: nat)
    requires v < 10
    ensures "0123456789"[v] as int == '0' as int + v
  {
  }

  /** Every value is written as its symbol of the alphabet. */
  lemma AlphabetIsRfc4648(v: Sextet)
    ensures |ALPHABET| == 64 && Symbol(v) == ALPHABET[v] as int
  {
    if v < 26 {
      UpperCase(v);
    } else if v < 52 {
      LowerCase(v - 26);
      assert ALPHABET[v] == "abcdefghijklmnopqrstuvwxyz"[v - 26];
    } else if v < 62 {
      Digits(v - 52);
      assert ALPHABET[v] == "0123456789"[v - 52];
    }
  }

  /** A byte is read as a value exactly when it is that value's symbol, padding standing for zero too. */
  lemma ReadsAlphabet(c: Byte, v: Sextet)
    ensures |ALPHABET| == 64 && (Val(c) == Ok(v) <==> c == ALPHABET[v] as int || (c == 61 && v == 0))
  {
    AlphabetIsRfc4648(v);
  }

  lemma SymbolVal(c: Byte)
    requires Val(c).Ok? && c != PAD
    ensures Symbol(Val(c).value) == c
  {
  }

  // ----- one group: three bytes against four symbols, bits taken most significant first

  function Sextets(x: Byte, y: Byte, z: Byte): (Sextet, Sextet, Sextet, Sextet) {
    (x / 4, x % 4 * 16 + y / 16, y % 16 * 4 + z / 64, z % 64)
  }

  function Octets(a: Sextet, b: Sextet, c: Sextet, d: Sextet): (Byte, Byte, Byte) {
    (a * 4 + b / 16, b % 16 * 16 + c / 4, c % 4 * 64 + d)
  }

  lemma OctetsOfSextets(x: Byte, y: Byte, z: Byte)
    ensures var (a, b, c, d) := Sextets(x, y, z); Octets(a, b, c, d) == (x, y, z)
  {
  }

  lemma SextetsOfOctets(a: Sextet, b: Sextet, c: Sextet, d: Sextet)
    ensures var (x, y, z) := Octets(a, b, c, d); Sextets(x, y, z) == (a, b, c, d)
  {
    DigitsOf(a, b / 16, 4);
    DigitsOf(b % 16, c / 4, 16);
    DigitsOf(c % 4, d, 64);
  }

  lemma DigitsOf(hi: nat, lo: nat, m: nat)
    requires m > 0 && lo < m
    ensures (hi * m + lo) / m == hi && (hi * m + lo) % m == lo
  {
    var x := hi * m + lo;
    var k: int := x / m - hi;
    assert x == (x / m) * m + x % m;
    assert k * m == (x / m) * m - hi * m;
    MultipleIsFar(k, m);
  }

  lemma MultipleIsFar(k: int, m: nat)
    ensures k >= 1 ==> k * m >= m
    ensures k <= -1 ==> k * m + m <= 0
  {
    if k >= 1 {
      assert k * m == (k - 1) * m + m;
    } else if k <= -1 {
      assert k * m == (k + 1) * m - m;
    }
  }

  /** Shifting and masking the packed 24-bit word picks out the sextets. */
  lemma TripleSextets(x: Byte, y: Byte, z: Byte)
    ensures var t := x * 0x1_0000 + y * 0x100 + z;
            (t / 0x4_0000 % 64, t / 0x1000 % 64, t / 64 % 64, t % 64) == Sextets(x, y, z)
  {
    var (a, b, c, d) := Sextets(x, y, z);
    var t: nat := x * 0x1_0000 + y * 0x100 + z;
    assert t == a * 0x4_0000 + b * 0x1000 + c * 64 + d;
    QuadDigits(a, b, c, d);
  }

  lemma QuadDigits(a: Sextet, b: Sextet, c: Sextet, d: Sextet)
    ensures var t := a * 0x4_0000 + b * 0x1000 + c * 64 + d;
            (t / 0x4_0000 % 64, t / 0x1000 % 64, t / 64 % 64, t % 64) == (a, b, c, d)
  {
    DigitsOf(a * 0x1000 + b * 64 + c, d, 64);
    DigitsOf(a * 64 + b, c, 64);
    DigitsOf(a * 64 + b, c * 64 + d, 0x1000);
    DigitsOf(a, b, 64);
    DigitsOf(a, b * 0x1000 + c * 64 + d, 0x4_0000);
  }

  lemma TripleDigits(x: Byte, y: Byte, z: Byte)
    ensures var t := x * 0x1_0000 + y * 0x100 + z;
            (t / 0x1_0000 % 0x100, t / 0x100 % 0x100, t % 0x100) == (x, y, z)
  {
    DigitsOf(x * 0x100 + y, z, 0x100);
    DigitsOf(x, y, 0x100);
    DigitsOf(x, y * 0x100 + z, 0x1_0000);
  }

  lemma QuadOctets(a: Sextet, b: Sextet, c: Sextet, d: Sextet)
    ensures var t := a * 0x4_0000 + b * 0x1000 + c * 64 + d;
            (t / 0x1_0000 % 0x100, t / 0x100 % 0x100, t % 0x100) == Octets(a, b, c, d)
  {
    var (x, y, z) := Octets(a, b, c, d);
    TripleDigits(x, y, z);
    assert x * 0x1_0000 + y * 0x100 + z == a * 0x4_0000 + b * 0x1000 + c * 64 + d;
  }

  // ----- encode

  function EncodeGroup(chunk: seq<Byte>): (r: seq<Byte>)
    requires 1 <= |chunk| <= 3
    ensures |r| == 4
  {
    var b1 := if |chunk| > 1 then chunk[1] else 0;
    var b2 := if |chunk| > 2 then chunk[2] else 0;
    var (a, b, c, d) := Sextets(chunk[0], b1, b2);
    [Symbol(a), Symbol(b), if |chunk| > 1 then Symbol(c) else PAD, if |chunk| > 2 then Symbol(d) else PAD]
  }

  function Encoded(data: seq<Byte>): seq<Byte> {
    if data == [] then []
    else
      var n := if |data| < 3 then |data| else 3;
      EncodeGroup(data[..n]) + Encoded(data[n..])
  }

  /** One round of the loop: pack, then push four symbols. */
  method EncodeChunk(chunk: seq<Byte>) returns (result: seq<Byte>)
    requires 1 <= |chunk| <= 3
    ensures result == EncodeGroup(chunk)
  {
    var b0: int := chunk[0];
    var b1: int := if |chunk| > 1 then chunk[1] else 0;
    var b2: int := if |chunk| > 2 then chunk[2] else 0;
    TripleSextets(b0, b1, b2);
    var triple: int := b0 * 0x1_0000 + b1 * 0x100 + b2;
    result := [Symbol(triple / 0x4_0000 % 64)];
    result := result + [Symbol(triple / 0x1000 % 64)];
    if |chunk| > 1 {
      result := result + [Symbol(triple / 64 % 64)];
    } else {
      result := result + [PAD];
    }
    if |chunk| > 2 {
      result := result + [Symbol(triple % 64)];
    } else {
      result := result + [PAD];
    }
  }

  method Encode(data: seq<Byte>) returns (result: seq<Byte>)
    ensures result == Encoded(data)
  {
    result := [];
    var i := 0;
    while i < |data|
      invariant 0 <= i <= |data|
      invariant result + Encoded(data[i..]) == Encoded(data)
    {
      var n := if |data| - i < 3 then |data| - i else 3;
      EncodedStep(result, data, i);
      var symbols := EncodeChunk(data[i..i + n]);
      result := result + symbols;
      i := i + n;
    }
  }

  lemma SliceOfSlice(data: seq<Byte>, i: nat, n: nat)
    requires i + n <= |data|
    ensures data[i..][..n] == data[i..i + n] && data[i..][n..] == data[i + n..]
  {
  }

  lemma Reassociate(a: seq<Byte>, b: seq<Byte>, c: seq<Byte>)
    ensures a + (b + c) == a + b + c
  {
  }

  lemma EncodedStep(before: seq<Byte>, data: seq<Byte>, i: nat)
    requires i < |data|
    ensures var n := if |data| - i < 3 then |data| - i else 3;
            before + Encoded(data[i..]) == before + EncodeGroup(data[i..i + n]) + Encoded(data[i + n..])
  {
    var n := if |data| - i < 3 then |data| - i else 3;
    SliceOfSlice(data, i, n);
    Reassociate(before, EncodeGroup(data[i..i + n]), Encoded(data[i + n..]));
  }

  // ----- decode

  function DecodeGroup(chunk: seq<Byte>): Result<seq<Byte>, Byte>
    requires |chunk| == 4
  {
    var a :- Val(chunk[0]);
    var b :- Val(chunk[1]);
    var c :- Val(chunk[2]);
    var d :- Val(chunk[3]);
    var (x, y, z) := Octets(a, b, c, d);
    Ok([x] + (if chunk[2] != PAD then [y] else []) + (if chunk[3] != PAD then [z] else []))
  }

  /** A trailing group of fewer than four symbols is dropped. */
  function Decoded(s: seq<Byte>): Result<seq<Byte>, Byte> {
    if |s| < 4 then Ok([])
    else
      var head :- DecodeGroup(s[..4]);
      var tail :- Decoded(s[4..]);
      Ok(head + tail)
  }

  function Prepend(x: seq<Byte>, r: Result<seq<Byte>, Byte>): Result<seq<Byte>, Byte> {
    if r.Ok? then Ok(x + r.value) else r
  }

  /** One round of the loop: look up, pack, then push the bytes that are not padding. */
  method DecodeChunk(chunk: seq<Byte>) returns (r: Result<seq<Byte>, Byte>)
    requires |chunk| == 4
    ensures r == DecodeGroup(chunk)
  {
    var a :- Val(chunk[0]);
    var b :- Val(chunk[1]);
    var c :- Val(chunk[2]);
    var d :- Val(chunk[3]);
    QuadOctets(a, b, c, d);
    var triple: int := (a as int) * 0x4_0000 + (b as int) * 0x1000 + (c as int) * 64 + d as int;
    var result := [triple / 0x1_0000 % 0x100];
    if chunk[2] != PAD {
      result := result + [triple / 0x100 % 0x100];
    }
    if chunk[3] != PAD {
      result := result + [triple % 0x100];
    }
    ghost var (x, y, z) := Octets(a, b, c, d);
    assert result == [x] + (if chunk[2] != PAD then [y] else []) + (if chunk[3] != PAD then [z] else []);
    return Ok(result);
  }

  method Decode(s: seq<Byte>) returns (r: Result<seq<Byte>, Byte>)
    ensures r == Decoded(s)
  {
    var result: seq<Byte> := [];
    var i := 0;
    assert s[0..] == s;
    PrependNothing(Decoded(s));
    while i < |s|
      invariant 0 <= i <= |s|
      invariant Decoded(s) == Prepend(result, Decoded(s[i..]))
    {
      var chunk := s[i..if i + 4 <= |s| then i + 4 else |s|];
      if |chunk| < 4 {
        break;
      }
      assert s[i..][..4] == chunk && s[i..][4..] == s[i + 4..];
      DecodedStep(result, s[i..]);
      var bytes :- DecodeChunk(chunk);
      result := result + bytes;
      i := i + 4;
    }
    assert result + [] == result;
    r := Ok(result);
  }

  lemma PrependNothing(r: Result<seq<Byte>, Byte>)
    ensures Prepend([], r) == r
  {
    if r.Ok? {
      assert [] + r.value == r.value;
    }
  }

  lemma DecodedStep(before: seq<Byte>, s: seq<Byte>)
    requires |s| >= 4
    ensures Prepend(before, Decoded(s))
            == match DecodeGroup(s[..4])
               case Ok(bytes) => Prepend(before + bytes, Decoded(s[4..]))
               case Err(e) => Err(e)
  {
    var tail := Decoded(s[4..]);
    if DecodeGroup(s[..4]).Ok? && tail.Ok? {
      assert before + (DecodeGroup(s[..4]).value + tail.value) == before + DecodeGroup(s[..4]).value + tail.value;
    }
  }

  // ----- round trips

  lemma GroupVals(a: Sextet, b: Sextet, c: Sextet, d: Sextet)
    ensures Val(Symbol(a)) == Ok(a) && Val(Symbol(b)) == Ok(b) && Val(Symbol(c)) == Ok(c) && Val(Symbol(d)) == Ok(d)
    ensures Val(PAD) == Ok(0)
    ensures PAD !in [Symbol(a), Symbol(b), Symbol(c), Symbol(d)]
  {
  }

  lemma GroupRoundTrip(chunk: seq<Byte>)
    requires 1 <= |chunk| <= 3
    ensures DecodeGroup(EncodeGroup(chunk)) == Ok(chunk)
  {
    var x := chunk[0];
    var y := if |chunk| > 1 then chunk[1] else 0;
    var z := if |chunk| > 2 then chunk[2] else 0;
    OctetsOfSextets(x, y, z);
    var (a, b, c, d) := Sextets(x, y, z);
    GroupVals(a, b, c, d);
    if |chunk| == 1 {
      assert c == 0 && d == 0;
      assert [x] + [] + [] == chunk;
    } else if |chunk| == 2 {
      assert d == 0;
      assert [x] + [y] + [] == chunk;
    } else {
      assert [x] + [y] + [z] == chunk;
    }
  }

  lemma DecodedGroup(q: seq<Byte>, rest: seq<Byte>, chunk: seq<Byte>, tail: seq<Byte>)
    requires |q| == 4 && DecodeGroup(q) == Ok(chunk) && Decoded(rest) == Ok(tail)
    ensures Decoded(q + rest) == Ok(chunk + tail)
  {
    assert (q + rest)[..4] == q && (q + rest)[4..] == rest;
  }

  /** What a byte stands for in a text: its place in the alphabet, or nothing but zero bits. */
  predicate Reads(c: Byte, v: Sextet) {
    AlphabetIsRfc4648(v);
    c == ALPHABET[v] as int || (c == 61 && v == 0)
  }

  /** A group of four, whether or not it is well padded: its 24 bits give three bytes, of which the second is left out
      when the third symbol is padding, and the third when the fourth is. */
  lemma GroupReads(q: seq<Byte>, a: Sextet, b: Sextet, c: Sextet, d: Sextet)
    requires |q| == 4 && Reads(q[0], a) && Reads(q[1], b) && Reads(q[2], c) && Reads(q[3], d)
    ensures var bits := a * 262144 + b * 4096 + c * 64 + d;
            Decoded(q) == Ok([bits / 65536 % 256] + (if q[2] == 61 then [] else [bits / 256 % 256])
                             + if q[3] == 61 then [] else [bits % 256])
  {
    ReadsAlphabet(q[0], a);
    ReadsAlphabet(q[1], b);
    ReadsAlphabet(q[2], c);
    ReadsAlphabet(q[3], d);
    QuadOctets(a, b, c, d);
    OneGroupReads(q);
  }

  lemma OneGroupReads(q: seq<Byte>)
    requires |q| == 4
    ensures Decoded(q) == DecodeGroup(q)
  {
    assert q[..4] == q && q[4..] == [];
    PrependNothing(DecodeGroup(q));
    if DecodeGroup(q).Ok? {
      assert DecodeGroup(q).value + [] == DecodeGroup(q).value;
    }
  }

  /** A longer text reads as its first group and then the rest; what is left of fewer than four bytes reads as
      nothing. */
  lemma TextReadsByGroups(q: seq<Byte>, rest: seq<Byte>)
    requires |q| == 4
    ensures match (Decoded(q), Decoded(rest))
            case (Ok(x), Ok(y)) => Decoded(q + rest) == Ok(x + y)
            case (Err(_), _) => Decoded(q + rest) == Decoded(q)
            case (_, Err(_)) => Decoded(q + rest) == Decoded(rest)
    ensures |rest| < 4 ==> Decoded(rest) == Ok([])
  {
    OneGroupReads(q);
    assert (q + rest)[..4] == q && (q + rest)[4..] == rest;
  }

  /** Every byte sequence survives encoding. */
  lemma {:induction false} RoundTrip(data: seq<Byte>)
    ensures Decoded(Encoded(data)) == Ok(data)
  {
    if data != [] {
      var n := if |data| < 3 then |data| else 3;
      GroupRoundTrip(data[..n]);
      RoundTrip(data[n..]);
      assert Encoded(data) == EncodeGroup(data[..n]) + Encoded(data[n..]);
      DecodedGroup(EncodeGroup(data[..n]), Encoded(data[n..]), data[..n], data[n..]);
      assert data == data[..n] + data[n..];
    }
  }

  /** Four symbols for every started group of three bytes. */
  lemma {:induction false} EncodedLength(data: seq<Byte>)
    ensures |Encoded(data)| == 4 * ((|data| + 2) / 3)
  {
    if data != [] {
      var n := if |data| < 3 then |data| else 3;
      EncodedLength(data[n..]);
      var k := |data[n..]|;
      assert (k + 3 + 2) / 3 == (k + 2) / 3 + 1;
    }
  }

  lemma GroupPadding(chunk: seq<Byte>, i: nat)
    requires 1 <= |chunk| <= 3 && i < 4
    ensures EncodeGroup(chunk)[i] == PAD <==> i > |chunk|
  {
    var (a, b, c, d) := Sextets(chunk[0], if |chunk| > 1 then chunk[1] else 0, if |chunk| > 2 then chunk[2] else 0);
    GroupVals(a, b, c, d);
  }

  /** How many padding symbols follow `n` bytes. */
  function PadCount(n: nat): nat {
    if n % 3 == 0 then 0 else 3 - n % 3
  }

  /** Padding stands only at the end: none, one or two symbols as the length is 0, 2 or 1 modulo 3. */
  lemma OneGroupPadding(data: seq<Byte>, i: nat)
    requires 1 <= |data| <= 3 && i < |Encoded(data)|
    ensures |Encoded(data)| == 4 && (Encoded(data)[i] == PAD <==> i > |data|)
  {
    assert Encoded(data[|data|..]) == [];
    assert data[..|data|] == data;
    GroupPadding(data, i);
  }

  lemma FirstGroupApart(data: seq<Byte>)
    requires |data| > 3
    ensures Encoded(data) == EncodeGroup(data[..3]) + Encoded(data[3..])
    ensures |Encoded(data)| == 4 + |Encoded(data[3..])|
  {
  }

  lemma PadCountRepeats(n: nat)
    ensures PadCount(n + 3) == PadCount(n) <= 2
    ensures 1 <= n <= 3 ==> PadCount(n) == 3 - n
  {
    assert (n + 3) % 3 == n % 3;
  }

  lemma {:induction false} EncodedPadding(data: seq<Byte>, i: nat)
    requires i < |Encoded(data)|
    ensures Encoded(data)[i] == PAD <==> i >= |Encoded(data)| - PadCount(|data|)
  {
    if 1 <= |data| <= 3 {
      OneGroupPadding(data, i);
      PadCountRepeats(|data|);
    } else if |data| > 3 {
      FirstGroupApart(data);
      PadCountRepeats(|data| - 3);
      if i < 4 {
        GroupPadding(data[..3], i);
        EncodedLength(data[3..]);
      } else {
        EncodedPadding(data[3..], i - 4);
      }
    }
  }

  predicate CanonicalGroup(q: seq<Byte>, last: bool)
    requires |q| == 4
  {
    && (forall i | 0 <= i < 4 :: Val(q[i]).Ok?)
    && q[0] != PAD && q[1] != PAD
    && (q[2] == PAD ==> q[3] == PAD && Val(q[1]).value % 16 == 0)
    && (q[2] != PAD && q[3] == PAD ==> Val(q[2]).value % 4 == 0)
    && (q[3] == PAD ==> last)
  }

  /** Whole groups over the alphabet, padding only in the last one and its unused bits zero. */
  predicate Canonical(s: seq<Byte>) {
    s == [] || (|s| >= 4 && CanonicalGroup(s[..4], |s| == 4) && Canonical(s[4..]))
  }

  lemma EncodeGroupIsCanonical(chunk: seq<Byte>, last: bool)
    requires 1 <= |chunk| <= 3 && (|chunk| < 3 ==> last)
    ensures CanonicalGroup(EncodeGroup(chunk), last)
  {
    var (a, b, c, d) := Sextets(chunk[0], if |chunk| > 1 then chunk[1] else 0, if |chunk| > 2 then chunk[2] else 0);
    GroupVals(a, b, c, d);
    assert |chunk| == 1 ==> b % 16 == 0;
    assert |chunk| == 2 ==> c % 4 == 0;
  }

  lemma CanonicalGroupRoundTrip(q: seq<Byte>, last: bool)
    requires |q| == 4 && CanonicalGroup(q, last)
    ensures DecodeGroup(q).Ok? && 1 <= |DecodeGroup(q).value| <= 3
    ensures |DecodeGroup(q).value| < 3 ==> last
    ensures EncodeGroup(DecodeGroup(q).value) == q
  {
    var a, b, c, d := Val(q[0]).value, Val(q[1]).value, Val(q[2]).value, Val(q[3]).value;
    var (x, y, z) := Octets(a, b, c, d);
    SextetsOfOctets(a, b, c, d);
    SymbolVal(q[0]);
    SymbolVal(q[1]);
    if q[2] != PAD { SymbolVal(q[2]); }
    if q[3] != PAD { SymbolVal(q[3]); }
    var data := DecodeGroup(q).value;
    if q[2] == PAD {
      assert y == 0 && z == 0;
      assert data == [x];
    } else if q[3] == PAD {
      assert z == 0;
      assert data == [x, y];
    } else {
      assert data == [x, y, z];
    }
  }

  lemma {:induction false} EncodedIsCanonical(data: seq<Byte>)
    ensures Canonical(Encoded(data))
  {
    if data != [] {
      var n := if |data| < 3 then |data| else 3;
      EncodedIsCanonical(data[n..]);
      EncodedLength(data[n..]);
      var s := Encoded(data);
      assert s[..4] == EncodeGroup(data[..n]) && s[4..] == Encoded(data[n..]);
      EncodeGroupIsCanonical(data[..n], |s| == 4);
    }
  }

  lemma {:induction false} CanonicalReencodes(s: seq<Byte>)
    requires Canonical(s)
    ensures Decoded(s).Ok? && Encoded(Decoded(s).value) == s
  {
    if s != [] {
      CanonicalGroupRoundTrip(s[..4], |s| == 4);
      CanonicalReencodes(s[4..]);
      var head, tail := DecodeGroup(s[..4]).value, Decoded(s[4..]).value;
      var data := head + tail;
      if |s| == 4 {
        assert data == head;
        assert data[|head|..] == [];
        assert data[..|head|] == head;
      } else {
        assert data[..3] == head && data[3..] == tail;
      }
      assert s == s[..4] + s[4..];
    }
  }

  /** Decoding then encoding gives the text back exactly for the canonical texts; the decoder accepts more. */
  lemma ReencodesIffCanonical(s: seq<Byte>)
    ensures Decoded(s).Ok? && Encoded(Decoded(s).value) == s <==> Canonical(s)
  {
    if Canonical(s) {
      CanonicalReencodes(s);
    }
    if Decoded(s).Ok? {
      EncodedIsCanonical(Decoded(s).value);
    }
  }

  predicate FirstBad(s: seq<Byte>, i: nat) {
    i < |s| && Val(s[i]).Err? && forall j | 0 <= j < i :: Val(s[j]).Ok?
  }

  lemma GroupErrorIsFirstBad(q: seq<Byte>)
    requires |q| == 4
    ensures DecodeGroup(q).Ok? <==> forall i | 0 <= i < 4 :: Val(q[i]).Ok?
    ensures DecodeGroup(q).Err? ==> exists i: nat :: FirstBad(q, i) && Val(q[i]) == Err(DecodeGroup(q).error)
  {
    var i: nat := if Val(q[0]).Err? then 0 else if Val(q[1]).Err? then 1 else if Val(q[2]).Err? then 2 else 3;
    if DecodeGroup(q).Err? {
      assert FirstBad(q, i);
    }
  }

  lemma FirstBadInHead(q: seq<Byte>, tail: seq<Byte>, i: nat)
    requires FirstBad(q, i)
    ensures FirstBad(q + tail, i) && (q + tail)[i] == q[i]
  {
  }

  lemma FirstBadInTail(q: seq<Byte>, tail: seq<Byte>, i: nat)
    requires FirstBad(tail, i) && forall j | 0 <= j < |q| :: Val(q[j]).Ok?
    ensures FirstBad(q + tail, |q| + i) && (q + tail)[|q| + i] == tail[i]
  {
  }

  /** What decoding says about the symbols of whole groups: all good, or the first bad one. */
  ghost predicate Reports(whole: seq<Byte>, r: Result<seq<Byte>, Byte>) {
    match r
    case Ok(_) => forall i | 0 <= i < |whole| :: Val(whole[i]).Ok?
    case Err(e) => exists i: nat :: FirstBad(whole, i) && Val(whole[i]) == Err(e)
  }

  lemma ReportsStep(q: seq<Byte>, tail: seq<Byte>, r: Result<seq<Byte>, Byte>, all: Result<seq<Byte>, Byte>)
    requires |q| == 4 && Reports(tail, r)
    requires match DecodeGroup(q)
             case Err(e) => all == Err(e)
             case Ok(_) => all.Ok? == r.Ok? && (r.Err? ==> all == r)
    ensures Reports(q + tail, all)
  {
    GroupErrorIsFirstBad(q);
    if DecodeGroup(q).Err? {
      var i: nat :| FirstBad(q, i) && Val(q[i]) == Err(DecodeGroup(q).error);
      FirstBadInHead(q, tail, i);
    } else if r.Err? {
      var i: nat :| FirstBad(tail, i) && Val(tail[i]) == Err(r.error);
      FirstBadInTail(q, tail, i);
    }
  }

  lemma WholeGroups(s: seq<Byte>)
    requires |s| >= 4
    ensures s[..|s| - |s| % 4] == s[..4] + s[4..][..|s[4..]| - |s[4..]| % 4]
  {
    assert |s[4..]| % 4 == |s| % 4;
  }

  /** Decoding fails exactly when some whole group holds a byte outside the alphabet, and names the first such byte. */
  lemma {:induction false} DecodeErrorIsFirstBadByte(s: seq<Byte>)
    ensures Reports(s[..|s| - |s| % 4], Decoded(s))
  {
    if |s| >= 4 {
      var q, rest := s[..4], s[4..];
      DecodeErrorIsFirstBadByte(rest);
      var tail := rest[..|rest| - |rest| % 4];
      WholeGroups(s);
      ReportsStep(q, tail, Decoded(rest), Decoded(s));
    }
  }
}
