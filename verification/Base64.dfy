/** Base64 as section 4 of RFC 4648 defines it, and the encoder and decoder loops. */
module Base64 {
  import opened Basics

  datatype Result<T> = Ok(value: T) | Error

  const PAD: Byte := 61
  const INVALID: Byte := 128

  /** The alphabet A-Z a-z 0-9 + /. */
  function Letter(k: int): (c: Byte)
    requires 0 <= k < 64
  {
    if k < 26 then 65 + k
    else if k < 52 then 97 + (k - 26)
    else if k < 62 then 48 + (k - 52)
    else if k == 62 then 43 else 47
  }

  /** The decoder's table: the padding sign reads as zero. */
  function Value(c: Byte): (v: Byte)
    ensures v < 64 || v == INVALID
  {
    if 65 <= c <= 90 then c - 65
    else if 97 <= c <= 122 then c - 97 + 26
    else if 48 <= c <= 57 then c - 48 + 52
    else if c == 43 then 62
    else if c == 47 then 63
    else if c == PAD then 0
    else INVALID
  }

  /** The two tables are inverse to each other on the alphabet. */
  lemma TablesAreInverse(k: int, c: Byte)
    ensures 0 <= k < 64 ==> IsLetter(Letter(k)) && Value(Letter(k)) == k
    ensures IsLetter(c) ==> Letter(Value(c)) == c
  {
  }

  predicate IsLetter(c: Byte) {
    c != PAD && Value(c) < 64
  }

  /** Table 1 of section 4 of RFC 4648. */
  const UPPER := "ABCDEFGHIJKLMNOPQRSTUVWXYZ"
  const LOWER := "abcdefghijklmnopqrstuvwxyz"
  const DIGITS := "0123456789"

  function Alphabet(): (r: string) {
    UPPER + LOWER + DIGITS + "+/"
  }

  lemma UpperAt(k: nat)
    requires k < 26
    ensures UPPER[k] as int == 65 + k
  {
  }

  lemma LowerAt(k: nat)
    requires k < 26
    ensures LOWER[k] as int == 97 + k
  {
  }

  lemma DigitAt(k: nat)
    requires k < 10
    ensures DIGITS[k] as int == 48 + k
  {
  }

  /** The table of letters is the alphabet of the standard... */
  lemma LettersAreTheAlphabet(k: nat)
    requires k < 64
    ensures |Alphabet()| == 64 && Letter(k) == Alphabet()[k] as int
  {
    if k < 26 {
      UpperAt(k);
    } else if k < 52 {
      LowerAt(k - 26);
    } else if k < 62 {
      DigitAt(k - 52);
    }
  }

  /** ...and a character has the value of its place in it, the padding sign zero; any other is
      invalid. */
  lemma ValueIsThePlace(c: Byte)
    ensures |Alphabet()| == 64
    ensures forall k :: 0 <= k < 64 && c == Alphabet()[k] as int ==> Value(c) == k
    ensures c == '=' as int ==> Value(c) == 0
    ensures c != '=' as int && (forall k :: 0 <= k < 64 ==> c != Alphabet()[k] as int) ==> Value(c) == 128
  {
    forall k | 0 <= k < 64
      ensures |Alphabet()| == 64 && (c == Alphabet()[k] as int ==> Value(c) == k)
    {
      LettersAreTheAlphabet(k);
      TablesAreInverse(k, 0);
    }
    LettersAreTheAlphabet(if Value(c) < 64 then Value(c) else 0);
    TablesAreInverse(0, c);
  }

  // ---------------------------------------------------------------- Encoding

  function ByteAt(s: seq<Byte>, i: nat): Byte {
    if i < |s| then s[i] else 0
  }

  /** The 24 bits of the group at s[i], missing bytes being zero. */
  function Bits(s: seq<Byte>, i: nat): (n: nat)
    requires i < |s|
    ensures n < 0x100_0000
  {
    var a: int, b: int, c: int := s[i], ByteAt(s, i + 1), ByteAt(s, i + 2);
    a * 65536 + b * 256 + c
  }

  /** The letters the loop pushes for the group at s[i]. */
  function Group(s: seq<Byte>, i: nat): (r: seq<Byte>)
    requires i < |s|
  {
    var n := Bits(s, i);
    [Letter(n / 262144), Letter(n / 4096 % 64)]
    + (if i + 1 < |s| then [Letter(n / 64 % 64)] else [])
    + (if i + 2 < |s| then [Letter(n % 64)] else [])
  }

  function Letters(s: seq<Byte>, i: nat): (r: seq<Byte>)
    decreases |s| - i
  {
    if i >= |s| then [] else Group(s, i) + Letters(s, i + 3)
  }

  function Padding(n: nat): (r: seq<Byte>)
    ensures |r| == (3 - n % 3) % 3
  {
    seq((3 - n % 3) % 3, _ => PAD)
  }

  /** The reference: every group of up to three bytes becomes four characters. */
  function Quartet(s: seq<Byte>, i: nat): (q: seq<Byte>)
    requires i < |s|
    ensures |q| == 4
  {
    var n := Bits(s, i);
    [Letter(n / 262144), Letter(n / 4096 % 64),
     if i + 1 < |s| then Letter(n / 64 % 64) else PAD,
     if i + 2 < |s| then Letter(n % 64) else PAD]
  }

  function Encode(s: seq<Byte>, i: nat): (r: seq<Byte>)
    decreases |s| - i
  {
    if i >= |s| then [] else Quartet(s, i) + Encode(s, i + 3)
  }

  /** Padding at the very end is padding of the last group. */
  lemma {:induction false} PaddingClosesTheLastGroup(s: seq<Byte>, i: nat)
    requires i <= |s|
    ensures Letters(s, i) + Padding(|s| - i) == Encode(s, i)
    decreases |s| - i
  {
    if i + 3 <= |s| {
      PaddingClosesTheLastGroup(s, i + 3);
      assert Group(s, i) == Quartet(s, i);
      assert Padding(|s| - i) == Padding(|s| - (i + 3));
      Associate(Group(s, i), Letters(s, i + 3), Padding(|s| - i));
    } else if i < |s| {
      PaddedGroup(s, i);
    }
  }

  lemma PaddedGroup(s: seq<Byte>, i: nat)
    requires i < |s| < i + 3
    ensures Letters(s, i) + Padding(|s| - i) == Encode(s, i)
  {
    assert Letters(s, i) == Group(s, i) && Encode(s, i) == Quartet(s, i);
    if i + 1 == |s| {
      assert Padding(1) == [PAD, PAD];
    } else {
      assert Padding(2) == [PAD];
    }
  }

  lemma {:induction false} EncodedLength(s: seq<Byte>, i: nat)
    requires i <= |s|
    ensures |Encode(s, i)| == (|s| - i + 2) / 3 * 4
    decreases |s| - i
  {
    if i + 3 <= |s| {
      EncodedLength(s, i + 3);
    }
  }

  /** The text has four characters per started group and fits what is reserved. */
  lemma EncodingFits(s: seq<Byte>)
    ensures |Encode(s, 0)| == (|s| + 2) / 3 * 4
    ensures |Encode(s, 0)| <= |s| * 4 / 3 + 3
  {
    EncodedLength(s, 0);
  }

  /** Four characters as digits in base 64, and three bytes as digits in base 256. */
  function Digits64(q: seq<Byte>): (n: nat)
    requires |q| == 4
  {
    var a: int, b: int, c: int, d: int := Value(q[0]), Value(q[1]), Value(q[2]), Value(q[3]);
    ((a * 64 + b) * 64 + c) * 64 + d
  }

  function Base256(x: int, y: int, z: int): (n: int) {
    (x * 256 + y) * 256 + z
  }

  lemma QuartetSpellsItsBytes(s: seq<Byte>, i: nat)
    requires i < |s|
    ensures var q := Quartet(s, i);
            && Digits64(q) == Base256(s[i], ByteAt(s, i + 1), ByteAt(s, i + 2))
            && IsLetter(q[0]) && IsLetter(q[1])
            && (if i + 1 < |s| then IsLetter(q[2]) else q[2] == PAD)
            && (if i + 2 < |s| then IsLetter(q[3]) else q[3] == PAD)
  {
    var n := Bits(s, i);
    SixBits(n);
    TablesAreInverse(n / 262144, 0);
    TablesAreInverse(n / 4096 % 64, 0);
    TablesAreInverse(n / 64 % 64, 0);
    TablesAreInverse(n % 64, 0);
    if i + 2 >= |s| {
      EmptySixBits(256 * s[i] as int + ByteAt(s, i + 1) as int);
    }
    if i + 1 >= |s| {
      EmptySixBits(s[i]);
    }
  }

  lemma {:induction false} QuartetStandsAt(s: seq<Byte>, i: nat, g: nat)
    requires i + 3 * g < |s|
    ensures 4 * g + 4 <= |Encode(s, i)| && Encode(s, i)[4 * g..4 * g + 4] == Quartet(s, i + 3 * g)
    decreases g
  {
    var q, rest := Quartet(s, i), Encode(s, i + 3);
    if g > 0 {
      QuartetStandsAt(s, i + 3, g - 1);
      assert (q + rest)[4 * g..4 * g + 4] == rest[4 * (g - 1)..4 * (g - 1) + 4];
    } else {
      assert (q + rest)[..4] == q;
    }
  }

  /** The four characters of group g and its bytes are the same number, in base 64 and in base
      256, missing bytes counting as zero; characters without a byte are padding. */
  lemma EncodingSpellsTheBytes(s: seq<Byte>, g: nat)
    requires 3 * g < |s|
    ensures 4 * g + 4 <= |Encode(s, 0)|
    ensures var q, i := Encode(s, 0)[4 * g..4 * g + 4], 3 * g;
            && Digits64(q) == Base256(s[i], if i + 1 < |s| then s[i + 1] else 0, if i + 2 < |s| then s[i + 2] else 0)
            && q[0] != PAD && q[1] != PAD && (q[2] == PAD <==> i + 1 >= |s|) && (q[3] == PAD <==> i + 2 >= |s|)
  {
    QuartetStandsAt(s, 0, g);
    QuartetSpellsItsBytes(s, 3 * g);
  }

  // ---------------------------------------------------------------- Decoding

  predicate Readable(t: seq<Byte>, i: nat)
    requires i + 4 <= |t|
  {
    Value(t[i]) < 64 && Value(t[i + 1]) < 64 && Value(t[i + 2]) < 64 && Value(t[i + 3]) < 64
  }

  /** The bytes the loop pushes for the quartet at t[i]. */
  function Unpack(t: seq<Byte>, i: nat): (r: seq<Byte>)
    requires i + 4 <= |t| && Readable(t, i)
  {
    var n := Value(t[i]) * 262144 + Value(t[i + 1]) * 4096 + Value(t[i + 2]) * 64 + Value(t[i + 3]);
    [n / 65536]
    + (if t[i + 2] != PAD then [n / 256 % 256] else [])
    + (if t[i + 3] != PAD then [n % 256] else [])
  }

  function Decode(t: seq<Byte>, i: nat): (r: Result<seq<Byte>>)
    decreases |t| - i
  {
    if i + 4 > |t| then if i == |t| then Ok([]) else Error
    else if !Readable(t, i) then Error
    else
      match Decode(t, i + 4)
      case Ok(rest) => Ok(Unpack(t, i) + rest)
      case Error => Error
  }

  /** A padding sign reads as the letter A... */
  function Unpadded(c: Byte): Byte {
    if c == PAD then 'A' as int else c
  }

  /** ...and the byte that its place stands for is left out. The three bytes of the unpadded
      quartet are its four values, as one number. */
  lemma QuartetDecodes(t: seq<Byte>, i: nat)
    requires i + 4 <= |t| && Readable(t, i)
    ensures var q := [Unpadded(t[i]), Unpadded(t[i + 1]), Unpadded(t[i + 2]), Unpadded(t[i + 3])];
            && Readable(q, 0) && |Unpack(q, 0)| == 3
            && var b := Unpack(q, 0);
               && Base256(b[0], b[1], b[2]) == Digits64(q)
               && Unpack(t, i) ==
                  [b[0]] + (if t[i + 2] == PAD then [] else [b[1]]) + (if t[i + 3] == PAD then [] else [b[2]])
  {
    var q := [Unpadded(t[i]), Unpadded(t[i + 1]), Unpadded(t[i + 2]), Unpadded(t[i + 3])];
    Bytes24(Digits64(q));
  }

  lemma QuartetUnpacks(s: seq<Byte>, j: nat, t: seq<Byte>, i: nat)
    requires j < |s| && i + 4 <= |t| && t[i..i + 4] == Quartet(s, j)
    ensures Readable(t, i)
    ensures Unpack(t, i) == s[j..if j + 3 <= |s| then j + 3 else |s|]
  {
    var n := Bits(s, j);
    var q := Quartet(s, j);
    assert t[i] == q[0] && t[i + 1] == q[1] && t[i + 2] == q[2] && t[i + 3] == q[3];
    SixBits(n);
    TablesAreInverse(n / 262144, 0);
    TablesAreInverse(n / 4096 % 64, 0);
    TablesAreInverse(n / 64 % 64, 0);
    TablesAreInverse(n % 64, 0);
    EightBits(s[j], ByteAt(s, j + 1), ByteAt(s, j + 2));
    if j + 2 >= |s| {
      EmptySixBits(256 * s[j] as int + ByteAt(s, j + 1) as int);
    }
    if j + 1 >= |s| {
      EmptySixBits(s[j]);
    }
  }

  lemma SixBits(n: nat)
    requires n < 0x100_0000
    ensures n / 262144 < 64
    ensures n == n / 262144 * 262144 + n / 4096 % 64 * 4096 + n / 64 % 64 * 64 + n % 64
  {
    var q := n / 64;
    var p := q / 64;
    assert p == n / 4096;
    assert p / 64 == n / 262144;
  }

  lemma EmptySixBits(k: nat)
    ensures (256 * k) % 64 == 0
    ensures (65536 * k) / 64 % 64 == 0 && (65536 * k) % 64 == 0
  {
    assert 256 * k == 64 * (4 * k);
    assert 65536 * k == 64 * (1024 * k);
    assert 1024 * k == 64 * (16 * k);
  }

  lemma EightBits(a: Byte, b: Byte, c: Byte)
    ensures var n: int := a * 65536 + b * 256 + c; n / 65536 == a && n / 256 % 256 == b && n % 256 == c
  {
  }

  lemma {:induction false} DecodesFrom(s: seq<Byte>, j: nat, t: seq<Byte>, i: nat)
    requires j <= |s| && i <= |t| && t[i..] == Encode(s, j)
    ensures Decode(t, i) == Ok(s[j..])
    decreases |s| - j
  {
    if j < |s| {
      var next := if j + 3 <= |s| then j + 3 else |s|;
      var q, rest := Quartet(s, j), Encode(s, next);
      assert Encode(s, j + 3) == rest;
      assert t[i..][..4] == q && t[i..][4..] == rest;
      assert t[i..i + 4] == q && t[i + 4..] == rest;
      QuartetUnpacks(s, j, t, i);
      DecodesFrom(s, next, t, i + 4);
      assert s[j..next] + s[next..] == s[j..];
    } else {
      assert |t[i..]| == 0 && s[j..] == [];
    }
  }

  /** Round trip: every byte string survives. */
  lemma RoundTrip(s: seq<Byte>)
    ensures Decode(Encode(s, 0), 0) == Ok(s)
  {
    var t := Encode(s, 0);
    assert t[0..] == t && s[0..] == s;
    DecodesFrom(s, 0, t, 0);
  }

  // ----------------------------------------- Which texts are encodings at all

  predicate FullQuartet(t: seq<Byte>, i: nat)
    requires i + 4 <= |t|
  {
    IsLetter(t[i]) && IsLetter(t[i + 1]) && IsLetter(t[i + 2]) && IsLetter(t[i + 3])
  }

  /** A last quartet that stands for one or two bytes, its unused bits clear. */
  predicate PaddedQuartet(t: seq<Byte>, i: nat)
    requires i + 4 <= |t|
  {
    && IsLetter(t[i]) && IsLetter(t[i + 1]) && t[i + 3] == PAD
    && if t[i + 2] == PAD then Value(t[i + 1]) % 16 == 0 else IsLetter(t[i + 2]) && Value(t[i + 2]) % 4 == 0
  }

  predicate Canonical(t: seq<Byte>, i: nat)
    decreases |t| - i
  {
    || i == |t|
    || (i + 4 <= |t| && FullQuartet(t, i) && Canonical(t, i + 4))
    || (i + 4 == |t| && PaddedQuartet(t, i))
  }

  lemma QuartetIsCanonical(s: seq<Byte>, j: nat, t: seq<Byte>, i: nat)
    requires j < |s| && i + 4 <= |t| && t[i..i + 4] == Quartet(s, j)
    ensures j + 3 <= |s| ==> FullQuartet(t, i)
    ensures j + 3 > |s| ==> PaddedQuartet(t, i)
  {
    var n, q := Bits(s, j), Quartet(s, j);
    assert t[i] == q[0] && t[i + 1] == q[1] && t[i + 2] == q[2] && t[i + 3] == q[3];
    SixBits(n);
    TablesAreInverse(n / 262144, 0);
    TablesAreInverse(n / 4096 % 64, 0);
    TablesAreInverse(n / 64 % 64, 0);
    TablesAreInverse(n % 64, 0);
    if j + 3 > |s| {
      SpareBits(s[j], ByteAt(s, j + 1));
    }
  }

  lemma SpareBits(a: Byte, b: Byte)
    ensures var n: int := a * 65536 + b * 256; n / 64 % 64 % 4 == 0
    ensures var n: int := a * 65536; n / 4096 % 64 % 16 == 0
  {
    var x: int, y: int := a, b;
    assert (x * 65536 + y * 256) / 64 == 4 * (256 * x + y);
    assert x * 65536 / 4096 == 16 * x;
  }

  lemma {:induction false} EncodingIsCanonical(s: seq<Byte>, j: nat, t: seq<Byte>, i: nat)
    requires j <= |s| && i <= |t| && t[i..] == Encode(s, j)
    ensures Canonical(t, i)
    decreases |s| - j
  {
    if j < |s| {
      var q, rest := Quartet(s, j), Encode(s, j + 3);
      assert t[i..][..4] == q && t[i..][4..] == rest;
      assert t[i..i + 4] == q && t[i + 4..] == rest;
      QuartetIsCanonical(s, j, t, i);
      if j + 3 <= |s| {
        EncodingIsCanonical(s, j + 3, t, i + 4);
      } else {
        assert |t[i + 4..]| == 0;
      }
    } else {
      assert |t[i..]| == 0;
    }
  }

  lemma {:induction false} EncodeShifts(before: seq<Byte>, s: seq<Byte>, j: nat)
    ensures Encode(before + s, |before| + j) == Encode(s, j)
    decreases |s| - j
  {
    if j < |s| {
      EncodeShifts(before, s, j + 3);
      assert Quartet(before + s, |before| + j) == Quartet(s, j);
    }
  }

  lemma ThreeBytesPack(t: seq<Byte>, i: nat)
    requires i + 4 <= |t| && FullQuartet(t, i)
    ensures |Unpack(t, i)| == 3 && Quartet(Unpack(t, i), 0) == t[i..i + 4]
  {
    var v0: int, v1: int, v2: int, v3: int := Value(t[i]), Value(t[i + 1]), Value(t[i + 2]), Value(t[i + 3]);
    var n := v0 * 262144 + v1 * 4096 + v2 * 64 + v3;
    Bytes24(n);
    Repack(v0, v1, v2, v3);
    assert Bits(Unpack(t, i), 0) == n;
    TablesAreInverse(0, t[i]);
    TablesAreInverse(0, t[i + 1]);
    TablesAreInverse(0, t[i + 2]);
    TablesAreInverse(0, t[i + 3]);
  }

  lemma Bytes24(n: nat)
    requires n < 0x100_0000
    ensures n / 65536 < 256 && n == n / 65536 * 65536 + n / 256 % 256 * 256 + n % 256
  {
    assert n / 256 / 256 == n / 65536;
  }

  lemma Repack(v0: int, v1: int, v2: int, v3: int)
    requires 0 <= v0 < 64 && 0 <= v1 < 64 && 0 <= v2 < 64 && 0 <= v3 < 64
    ensures var n := v0 * 262144 + v1 * 4096 + v2 * 64 + v3;
            n / 262144 == v0 && n / 4096 % 64 == v1 && n / 64 % 64 == v2 && n % 64 == v3
  {
    var n := v0 * 262144 + v1 * 4096 + v2 * 64 + v3;
    assert n / 64 == v0 * 4096 + v1 * 64 + v2;
    assert n / 4096 == v0 * 64 + v1;
  }

  lemma OneBytePacks(t: seq<Byte>, i: nat)
    requires i + 4 <= |t| && PaddedQuartet(t, i) && t[i + 2] == PAD
    ensures |Unpack(t, i)| == 1 && Quartet(Unpack(t, i), 0) == t[i..i + 4]
  {
    var v0: int, v1: int := Value(t[i]), Value(t[i + 1]);
    var a := v0 * 4 + v1 / 16;
    var n := v0 * 262144 + v1 * 4096;
    assert n == 65536 * a;
    Repack(v0, v1, 0, 0);
    assert Unpack(t, i) == [a];
    assert Bits([a], 0) == n;
    TablesAreInverse(0, t[i]);
    TablesAreInverse(0, t[i + 1]);
  }

  lemma TwoBytesPack(t: seq<Byte>, i: nat)
    requires i + 4 <= |t| && PaddedQuartet(t, i) && t[i + 2] != PAD
    ensures |Unpack(t, i)| == 2 && Quartet(Unpack(t, i), 0) == t[i..i + 4]
  {
    var v0: int, v1: int, v2: int := Value(t[i]), Value(t[i + 1]), Value(t[i + 2]);
    var m := v0 * 1024 + v1 * 16 + v2 / 4;
    var n := v0 * 262144 + v1 * 4096 + v2 * 64;
    assert n == 256 * m;
    Repack(v0, v1, v2, 0);
    assert n / 65536 == m / 256 && n / 256 % 256 == m % 256;
    assert Unpack(t, i) == [m / 256, m % 256];
    assert Bits([m / 256, m % 256], 0) == n;
    TablesAreInverse(0, t[i]);
    TablesAreInverse(0, t[i + 1]);
    TablesAreInverse(0, t[i + 2]);
  }

  lemma FullReencodes(t: seq<Byte>, i: nat, rest: seq<Byte>)
    requires i + 4 <= |t| && FullQuartet(t, i) && Encode(rest, 0) == t[i + 4..]
    ensures Encode(Unpack(t, i) + rest, 0) == t[i..]
  {
    var u := Unpack(t, i);
    ThreeBytesPack(t, i);
    EncodeShifts(u, rest, 0);
    assert Quartet(u + rest, 0) == Quartet(u, 0);
    assert t[i..] == t[i..i + 4] + t[i + 4..];
  }

  lemma PaddedReencodes(t: seq<Byte>, i: nat)
    requires i + 4 == |t| && PaddedQuartet(t, i)
    ensures Encode(Unpack(t, i) + [], 0) == t[i..]
  {
    var u := Unpack(t, i);
    if t[i + 2] == PAD {
      OneBytePacks(t, i);
    } else {
      TwoBytesPack(t, i);
    }
    assert u + [] == u;
    assert t[i..] == t[i..i + 4];
  }

  lemma {:induction false} CanonicalReencodes(t: seq<Byte>, i: nat)
    requires i <= |t| && Canonical(t, i)
    ensures Decode(t, i).Ok? && Encode(Decode(t, i).value, 0) == t[i..]
    decreases |t| - i
  {
    if i == |t| {
      assert t[i..] == [];
    } else if FullQuartet(t, i) && Canonical(t, i + 4) {
      CanonicalReencodes(t, i + 4);
      FullReencodes(t, i, Decode(t, i + 4).value);
    } else {
      PaddedReencodes(t, i);
      assert Decode(t, i + 4) == Ok([]);
    }
  }

  /** The converse of the round trip, exactly: a text is what re-encoding its
      decoding gives if and only if it is canonical. */
  lemma ReencodesIffCanonical(t: seq<Byte>)
    ensures Canonical(t, 0) <==> Decode(t, 0).Ok? && Encode(Decode(t, 0).value, 0) == t
  {
    assert t[0..] == t;
    if Canonical(t, 0) {
      CanonicalReencodes(t, 0);
    }
    if Decode(t, 0).Ok? && Encode(Decode(t, 0).value, 0) == t {
      EncodingIsCanonical(Decode(t, 0).value, 0, t, 0);
    }
  }

  /** The decoder is more generous: it takes padding signs anywhere, as zero. */
  lemma PaddingAloneIsAccepted()
    ensures Decode([PAD, PAD, PAD, PAD], 0) == Ok([0]) && !Canonical([PAD, PAD, PAD, PAD], 0)
  {
    var t := [PAD, PAD, PAD, PAD];
    assert Decode(t, 4) == Ok([]);
    assert Unpack(t, 0) == [0];
    assert Unpack(t, 0) + [] == [0];
  }

  // ---------------------------------------------------------------- The code

  /** The letters of one group are pushed one by one. */
  method PushGroup(s: seq<Byte>, i: nat, text: seq<Byte>) returns (r: seq<Byte>)
    requires i < |s|
    ensures r == text + Group(s, i)
  {
    var n: int := s[i] as int * 65536;
    if i + 1 < |s| {
      n := n + s[i + 1] as int * 256;
    }
    if i + 2 < |s| {
      n := n + s[i + 2];
    }
    r := text + [Letter(n / 262144), Letter(n / 4096 % 64)];
    if i + 1 < |s| {
      r := r + [Letter(n / 64 % 64)];
    }
    if i + 2 < |s| {
      r := r + [Letter(n % 64)];
    }
  }

  method B64Encode(s: seq<Byte>) returns (r: seq<Byte>)
    ensures r == Encode(s, 0)
    ensures |r| == (|s| + 2) / 3 * 4 <= |s| * 4 / 3 + 3
  {
    EncodingFits(s);
    PaddingClosesTheLastGroup(s, 0);
    r := [];
    var i := 0;
    while i < |s|
      invariant 0 <= i
      invariant Letters(s, 0) == r + Letters(s, i)
    {
      Associate(r, Group(s, i), Letters(s, i + 3));
      r := PushGroup(s, i, r);
      i := i + 3;
    }
    ghost var letters := r;
    for k := 0 to (3 - |s| % 3) % 3
      invariant r == letters + Padding(|s|)[..k]
    {
      r := r + [PAD];
    }
    assert Padding(|s|)[..|Padding(|s|)|] == Padding(|s|);
  }

  /** The bytes of one quartet are pushed one by one. */
  method PushQuartet(t: seq<Byte>, i: nat, bytes: seq<Byte>) returns (r: seq<Byte>)
    requires i + 4 <= |t| && Readable(t, i)
    ensures r == bytes + Unpack(t, i)
  {
    var v0: int, v1: int, v2: int, v3: int := Value(t[i]), Value(t[i + 1]), Value(t[i + 2]), Value(t[i + 3]);
    var n := v0 * 262144 + v1 * 4096 + v2 * 64 + v3;
    r := bytes + [n / 65536];
    if t[i + 2] != PAD {
      r := r + [n / 256 % 256];
    }
    if t[i + 3] != PAD {
      r := r + [n % 256];
    }
  }

  method B64Decode(t: seq<Byte>) returns (r: Result<seq<Byte>>)
    ensures r == Decode(t, 0)
  {
    if |t| == 0 {
      return Ok([]);
    }
    if |t| % 4 != 0 {
      BadSizeFails(t, 0);
      return Error;
    }
    var bytes: seq<Byte> := [];
    var i := 0;
    ghost var k := 0;
    PrependNothing(Decode(t, 0));
    while i < |t|
      invariant 0 <= i <= |t| && i == 4 * k && |t| == 4 * (|t| / 4)
      invariant Decode(t, 0) == Prepend(bytes, Decode(t, i))
    {
      if !Readable(t, i) {
        return Error;
      }
      PrependStep(bytes, t, i);
      bytes := PushQuartet(t, i, bytes);
      i, k := i + 4, k + 1;
    }
    assert bytes + [] == bytes;
    return Ok(bytes);
  }

  function Prepend(b: seq<Byte>, r: Result<seq<Byte>>): Result<seq<Byte>> {
    match r
    case Ok(rest) => Ok(b + rest)
    case Error => Error
  }

  lemma PrependNothing(r: Result<seq<Byte>>)
    ensures Prepend([], r) == r
  {
    if r.Ok? {
      assert [] + r.value == r.value;
    }
  }

  lemma PrependStep(b: seq<Byte>, t: seq<Byte>, i: nat)
    requires i + 4 <= |t| && Readable(t, i)
    ensures Prepend(b, Decode(t, i)) == Prepend(b + Unpack(t, i), Decode(t, i + 4))
  {
    if Decode(t, i + 4).Ok? {
      Associate(b, Unpack(t, i), Decode(t, i + 4).value);
    }
  }

  lemma {:induction false} BadSizeFails(t: seq<Byte>, i: nat)
    requires i <= |t| && (|t| - i) % 4 != 0
    ensures Decode(t, i).Error?
    decreases |t| - i
  {
    if i + 4 <= |t| {
      BadSizeFails(t, i + 4);
    }
  }

  /** Decoding fails exactly on a length that is no multiple of four or a
      character outside the table. */
  lemma {:induction false} DecodeSucceedsIff(t: seq<Byte>, i: nat)
    requires i <= |t|
    ensures Decode(t, i).Ok? <==> (|t| - i) % 4 == 0 && forall k :: i <= k < |t| ==> Value(t[k]) < 64
    decreases |t| - i
  {
    if i + 4 <= |t| {
      DecodeSucceedsIff(t, i + 4);
    }
  }
}
