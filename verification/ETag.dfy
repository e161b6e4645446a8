/** The FNV-1a 64-bit digest and the entity tag rendered from it. The hash is an
    integer below 2^64; multiplication is reduced modulo 2^64 explicitly. */
module ETag {
  import opened Basics

  const M := 0x1_0000_0000_0000_0000
  const OFFSET_BASIS := 14695981039346656037
  const PRIME := 1099511628211

  // ------------------------------------------------------------ Exclusive or

  function Xor(a: nat, b: nat): (r: nat)
    decreases a + b
  {
    if a == 0 && b == 0 then 0 else 2 * Xor(a / 2, b / 2) + (a + b) % 2
  }

  function Pow2(n: nat): (p: nat)
    ensures p >= 1
  {
    if n == 0 then 1 else 2 * Pow2(n - 1)
  }

  lemma {:induction false} XorStaysInWidth(a: nat, b: nat, n: nat)
    requires a < Pow2(n) && b < Pow2(n)
    ensures Xor(a, b) < Pow2(n)
    decreases n
  {
    if n > 0 {
      XorStaysInWidth(a / 2, b / 2, n - 1);
    }
  }

  /** Exclusive or with b moves a number by at most b. */
  lemma {:induction false} XorMovesAtMost(a: nat, b: nat)
    ensures a - b <= Xor(a, b) <= a + b
    decreases a + b
  {
    if a != 0 || b != 0 {
      XorMovesAtMost(a / 2, b / 2);
    }
  }

  lemma {:induction false} XorCancels(a: nat, b: nat, c: nat)
    requires Xor(a, b) == Xor(a, c)
    ensures b == c
    decreases a + b + c
  {
    if a + b + c > 0 {
      var p, q := Xor(a / 2, b / 2), Xor(a / 2, c / 2);
      XorUnfolds(a, b);
      XorUnfolds(a, c);
      SameHalves(p, q, a, b, c);
      XorCancels(a / 2, b / 2, c / 2);
      SameNumber(b, c);
    }
  }

  lemma SameHalves(p: nat, q: nat, a: nat, b: nat, c: nat)
    requires 2 * p + (a + b) % 2 == 2 * q + (a + c) % 2
    ensures p == q && b % 2 == c % 2
  {
  }

  lemma SameNumber(b: nat, c: nat)
    requires b % 2 == c % 2 && b / 2 == c / 2
    ensures b == c
  {
  }

  lemma XorUnfolds(a: nat, b: nat)
    ensures Xor(a, b) == 2 * Xor(a / 2, b / 2) + (a + b) % 2
  {
  }

  lemma {:induction false} XorCommutes(a: nat, b: nat)
    ensures Xor(a, b) == Xor(b, a)
    decreases a + b
  {
    if a + b > 0 {
      XorCommutes(a / 2, b / 2);
    }
  }

  /** Bit i of a number. */
  predicate Bit(a: nat, i: nat) {
    if i == 0 then a % 2 == 1 else Bit(a / 2, i - 1)
  }

  /** Bit by bit, one of the two and not both. */
  lemma {:induction false} XorIsBitwise(a: nat, b: nat, i: nat)
    ensures Bit(Xor(a, b), i) <==> Bit(a, i) != Bit(b, i)
    decreases i
  {
    XorUnfolds(a, b);
    if i == 0 {
      assert (2 * Xor(a / 2, b / 2) + (a + b) % 2) % 2 == (a + b) % 2;
    } else {
      assert Xor(a, b) / 2 == Xor(a / 2, b / 2);
      XorIsBitwise(a / 2, b / 2, i - 1);
    }
  }

  lemma {:induction false} XorWithZero(a: nat)
    ensures Xor(a, 0) == a
  {
    if a > 0 {
      XorWithZero(a / 2);
    }
  }

  lemma EightBits(n: nat)
    ensures Pow2(n + 8) == 256 * Pow2(n)
  {
    assert Pow2(n + 4) == 16 * Pow2(n) by {
      assert Pow2(n + 2) == 4 * Pow2(n);
    }
    assert Pow2(n + 6) == 4 * Pow2(n + 4);
  }

  lemma SixtyFourBits()
    ensures Pow2(64) == M
  {
    EightBits(0);
    EightBits(8);
    EightBits(16);
    EightBits(24);
    EightBits(32);
    EightBits(40);
    EightBits(48);
    EightBits(56);
  }

  // -------------------------------------------------------------- The digest

  function Mixed(h: nat, b: Byte): (u: nat)
    requires h < M
    ensures u < M
  {
    SixtyFourBits();
    XorStaysInWidth(h, b, 64);
    Xor(h, b)
  }

  function Step(h: nat, b: Byte): (r: nat)
    requires h < M
    ensures r < M
  {
    Mixed(h, b) * PRIME % M
  }

  function Fnv(s: seq<Byte>, h: nat): (r: nat)
    requires h < M
    ensures r < M
  {
    if s == [] then h else Step(Fnv(s[..|s| - 1], h), s[|s| - 1])
  }

  lemma {:induction false} FnvConcat(a: seq<Byte>, b: seq<Byte>, h: nat)
    requires h < M
    ensures Fnv(a + b, h) == Fnv(b, Fnv(a, h))
  {
    if b == [] {
      assert a + b == a;
    } else {
      var n := |b| - 1;
      FnvConcat(a, b[..n], h);
      assert (a + b)[..|a| + n] == a + b[..n];
    }
  }

  lemma XorOfOneMoreBit(q: nat, b: nat, c: nat)
    requires Xor(q + b / 2, c / 2) == q + Xor(b / 2, c / 2)
    ensures Xor(2 * q + b, c) == 2 * q + Xor(b, c)
  {
    var m := 2 * q + b;
    assert m / 2 == q + b / 2 && (m + c) % 2 == (b + c) % 2;
    XorUnfolds(m, c);
    XorUnfolds(b, c);
  }

  /** q shifted left by n bits. */
  function Raised(q: nat, n: nat): (r: nat) {
    if n == 0 then q else 2 * Raised(q, n - 1)
  }

  /** An exclusive or with an n-bit number touches the n low bits only. */
  lemma {:induction false} XorOfLowBits(q: nat, b: nat, c: nat, n: nat)
    requires b < Pow2(n) && c < Pow2(n)
    ensures Xor(Raised(q, n) + b, c) == Raised(q, n) + Xor(b, c)
    decreases n
  {
    if n == 0 {
      XorWithZero(q);
    } else {
      XorOfLowBits(q, b / 2, c / 2, n - 1);
      XorOfOneMoreBit(Raised(q, n - 1), b, c);
    }
  }

  lemma MixesLetterA(h: nat, a: Byte)
    requires a == 97
    ensures Xor(256 * h + 0x25, a) == 256 * h + 0x44
  {
    EightBits(0);
    assert Raised(h, 1) == 2 * h;
    assert Raised(h, 2) == 4 * h;
    assert Raised(h, 4) == 4 * Raised(h, 2);
    assert Raised(h, 6) == 4 * Raised(h, 4);
    assert Raised(h, 8) == 4 * Raised(h, 6);
    XorOfLowBits(h, 0x25, a, 8);
    assert Xor(0x25, 97) == 0x44;
  }

  lemma OneLetter(b: Byte)
    ensures Fnv([b], OFFSET_BASIS) == Xor(OFFSET_BASIS, b) * PRIME % M
  {
    assert [b][..0] == [];
    assert Fnv([], OFFSET_BASIS) == OFFSET_BASIS;
  }

  lemma TimesPrime()
    ensures 0xcbf2_9ce4_8422_2344 * PRIME % M == 0xaf63_dc4c_8601_ec8c
  {
  }

  /** The published digests of the empty text and of "a". */
  lemma PublishedDigests(a: Byte)
    requires a == 97
    ensures Fnv([], OFFSET_BASIS) == 0xcbf2_9ce4_8422_2325
    ensures Fnv([a], OFFSET_BASIS) == 0xaf63_dc4c_8601_ec8c
  {
    OneLetter(a);
    MixesLetterA(0xcb_f29c_e484_2223, a);
    TimesPrime();
  }

  /** The prime is odd, so multiplying by it loses nothing modulo 2^64. */
  lemma TimesPrimeIsInjective(u: nat, v: nat)
    requires u < M && v < M && u * PRIME % M == v * PRIME % M
    ensures u == v
  {
    var inverse, turns := 14886173955864302971, 887285111055;
    assert PRIME * inverse == 1 + M * turns;
    var k := u * PRIME / M - v * PRIME / M;
    assert (u - v) * PRIME == M * k;
    assert (u - v) * PRIME * inverse == M * k * inverse;
    assert u - v == M * (k * inverse - (u - v) * turns);
  }

  /** For a fixed byte, a step loses nothing of the hash. */
  lemma StepIsInjective(h: nat, k: nat, b: Byte)
    requires h < M && k < M && Step(h, b) == Step(k, b)
    ensures h == k
  {
    TimesPrimeIsInjective(Mixed(h, b), Mixed(k, b));
    XorCommutes(h, b);
    XorCommutes(k, b);
    XorCancels(b, h, k);
  }

  lemma {:induction false} FnvIsInjective(s: seq<Byte>, h: nat, k: nat)
    requires h < M && k < M && Fnv(s, h) == Fnv(s, k)
    ensures h == k
  {
    if s != [] {
      var n := |s| - 1;
      StepIsInjective(Fnv(s[..n], h), Fnv(s[..n], k), s[n]);
      FnvIsInjective(s[..n], h, k);
    }
  }

  // ------------------------------------- How far two digests can stay together

  /** Two runs whose first bytes differ, followed byte by byte: the distance
      between the mixed hashes is a polynomial in the prime, modulo 2^64. */
  function Distance(ds: seq<int>): (r: int) {
    if ds == [] then 0 else Distance(ds[..|ds| - 1]) * PRIME + ds[|ds| - 1]
  }

  /** The polynomial's coefficients are small and the leading one is not zero. */
  predicate Small(ds: seq<int>) {
    && |ds| > 0 && ds[0] != 0
    && forall i :: 0 <= i < |ds| ==> -510 <= ds[i] <= 510
  }

  lemma MixedDistance(h: nat, k: nat, a: Byte, b: Byte) returns (d: int)
    requires h < M && k < M
    ensures -510 <= d <= 510 && Mixed(h, a) - Mixed(k, b) == h - k + d
  {
    XorMovesAtMost(h, a);
    XorMovesAtMost(k, b);
    d := Mixed(h, a) - Mixed(k, b) - (h - k);
  }

  /** The mixed hash before the last multiplication. */
  function LastMixed(s: seq<Byte>, h: nat): (u: nat)
    requires h < M && s != []
    ensures u < M
  {
    Mixed(Fnv(s[..|s| - 1], h), s[|s| - 1])
  }

  lemma {:induction false} Follow(h: nat, x: seq<Byte>, y: seq<Byte>) returns (ds: seq<int>, q: int)
    requires h < M && |x| == |y| > 0 && x[0] != y[0]
    ensures |ds| == |x| && Small(ds)
    ensures LastMixed(x, h) - LastMixed(y, h) == Distance(ds) + M * q
    decreases |x|
  {
    var n := |x| - 1;
    if n == 0 {
      var d := MixedDistance(h, h, x[0], y[0]);
      if d == 0 {
        XorCancels(h, x[0], y[0]);
      }
      ds, q := [d], 0;
      assert Distance([]) == 0;
    } else {
      var before, p := Follow(h, x[..n], y[..n]);
      var u, v := LastMixed(x[..n], h), LastMixed(y[..n], h);
      var hx, hy := Fnv(x[..n], h), Fnv(y[..n], h);
      var d := MixedDistance(hx, hy, x[n], y[n]);
      ds := before + [d];
      assert ds[..n] == before;
      q := p * PRIME + v * PRIME / M - u * PRIME / M;
      assert hx == u * PRIME - M * (u * PRIME / M);
      assert hy == v * PRIME - M * (v * PRIME / M);
    }
  }

  /** Such a polynomial with at most four terms is never zero modulo 2^64. */
  lemma CubicIsNotZero(a: int, b: int, c: int, d: int, q: int)
    requires a != 0 && -510 <= a <= 510 && -510 <= b <= 510 && -510 <= c <= 510 && -510 <= d <= 510
    ensures ((a * PRIME + b) * PRIME + c) * PRIME + d != M * q
  {
    var unit := 0x100_0000_0000;
    assert PRIME == unit + 435 && M == unit * 0x100_0000;
    var high := 567675 * a + 870 * b + c;
    var low := 82312875 * a + 189225 * b + 435 * c + d;
    var turns := 72057594123452416 * a + 65536 * b;
    if ((a * PRIME + b) * PRIME + c) * PRIME + d == M * q {
      assert unit * high + low + M * turns == M * q;
      assert low == unit * (0x100_0000 * (q - turns) - high);
      SmallMultipleIsZero(low, unit, 0x100_0000 * (q - turns) - high);
      NoSmallRoot(a, b, c, d);
      SmallMultipleIsZero(high, 0x100_0000, q - turns);
      assert false;
    }
  }

  lemma SmallMultipleIsZero(x: int, n: int, k: int)
    requires n > 0 && x == n * k && -n < x < n
    ensures x == 0
  {
    assert k >= 1 ==> n * k >= n;
    assert k <= -1 ==> n * k <= -n;
  }

  /** 435 can be a root of the integer polynomial only with a leading coefficient
      of one, and then its derivative there is small and not zero. */
  lemma NoSmallRoot(a: int, b: int, c: int, d: int)
    requires a != 0 && -510 <= a <= 510 && -510 <= b <= 510 && -510 <= c <= 510 && -510 <= d <= 510
    requires 82312875 * a + 189225 * b + 435 * c + d == 0
    ensures var high := 567675 * a + 870 * b + c; high != 0 && -0x100_0000 < high < 0x100_0000
  {
    var r1 := 435 * a + b;
    var r0 := 435 * r1 + c;
    assert d == -435 * r0;
    assert -1 <= r0 <= 1;
    assert -1 <= r1 <= 1;
    assert -1 <= a <= 1;
    assert 567675 * a + 870 * b + c == 189225 * a + 435 * r1 + r0;
  }

  lemma DistanceStep(ds: seq<int>, i: nat)
    requires i < |ds|
    ensures Distance(ds[..i + 1]) == Distance(ds[..i]) * PRIME + ds[i]
  {
    assert ds[..i + 1][..i] == ds[..i];
  }

  lemma {:induction false} DistanceIsNotZero(ds: seq<int>, q: int)
    requires Small(ds) && |ds| <= 4
    ensures Distance(ds) != M * q
    decreases 4 - |ds|
  {
    if |ds| == 4 {
      DistanceStep(ds, 0);
      DistanceStep(ds, 1);
      DistanceStep(ds, 2);
      DistanceStep(ds, 3);
      assert ds[..4] == ds;
      CubicIsNotZero(ds[0], ds[1], ds[2], ds[3], q);
    } else if Distance(ds) == M * q {
      assert (ds + [0])[..|ds|] == ds;
      assert Distance(ds + [0]) == M * (q * PRIME);
      DistanceIsNotZero(ds + [0], q * PRIME);
    }
  }

  lemma FourBytesFromHereMatter(h: nat, x: seq<Byte>, y: seq<Byte>)
    requires h < M && 0 < |x| == |y| <= 4 && x[0] != y[0]
    ensures Fnv(x, h) != Fnv(y, h)
  {
    var ds, q := Follow(h, x, y);
    DistanceIsNotZero(ds, -q);
    if Fnv(x, h) == Fnv(y, h) {
      TimesPrimeIsInjective(LastMixed(x, h), LastMixed(y, h));
    }
  }

  lemma {:induction false} FourBytesMatter(h: nat, x: seq<Byte>, y: seq<Byte>)
    requires h < M && |x| == |y| <= 4 && x != y
    ensures Fnv(x, h) != Fnv(y, h)
    decreases |x|
  {
    if x[0] != y[0] {
      FourBytesFromHereMatter(h, x, y);
    } else {
      assert x == [x[0]] + x[1..] && y == [x[0]] + y[1..];
      FnvConcat([x[0]], x[1..], h);
      FnvConcat([x[0]], y[1..], h);
      FourBytesMatter(Fnv([x[0]], h), x[1..], y[1..]);
    }
  }

  /** Equally long streams that differ only inside a window of four bytes never
      share a digest, whatever surrounds the window. */
  lemma DigestSeesAWindow(before: seq<Byte>, x: seq<Byte>, y: seq<Byte>, rest: seq<Byte>)
    requires |x| == |y| <= 4 && x != y
    ensures Fnv(before + x + rest, OFFSET_BASIS) != Fnv(before + y + rest, OFFSET_BASIS)
  {
    var h := Fnv(before, OFFSET_BASIS);
    FnvConcat(before, x, OFFSET_BASIS);
    FnvConcat(before, y, OFFSET_BASIS);
    FnvConcat(before + x, rest, OFFSET_BASIS);
    FnvConcat(before + y, rest, OFFSET_BASIS);
    FourBytesMatter(h, x, y);
    if Fnv(before + x + rest, OFFSET_BASIS) == Fnv(before + y + rest, OFFSET_BASIS) {
      FnvIsInjective(rest, Fnv(x, h), Fnv(y, h));
    }
  }

  // ----------------------------------------------------------------- The tag

  function Digit(d: int): (c: char)
    requires 0 <= d < 16
    ensures c == "0123456789abcdef"[d]
  {
    (if d < 10 then '0' as int + d else 'a' as int + (d - 10)) as char
  }

  /** The lowest n hexadecimal digits of h, most significant first. */
  function Hex(h: nat, n: nat): (s: string) {
    if n == 0 then [] else Hex(h / 16, n - 1) + [Digit(h % 16)]
  }

  function Pow16(n: nat): (p: nat)
    ensures p >= 1
  {
    if n == 0 then 1 else 16 * Pow16(n - 1)
  }

  /** The number that lower-case hexadecimal digits spell. */
  function HexValue(c: char): (v: nat) {
    if '0' <= c <= '9' then c as int - '0' as int
    else if 'a' <= c <= 'f' then c as int - 'a' as int + 10
    else 16
  }

  function HexNumber(s: string): (v: nat) {
    if s == [] then 0 else 16 * HexNumber(s[..|s| - 1]) + HexValue(s[|s| - 1])
  }

  lemma {:induction false} HexReadsBack(h: nat, n: nat)
    requires h < Pow16(n)
    ensures |Hex(h, n)| == n && HexNumber(Hex(h, n)) == h
    ensures forall i :: 0 <= i < n ==> HexValue(Hex(h, n)[i]) < 16
    decreases n
  {
    if n > 0 {
      HexReadsBack(h / 16, n - 1);
      assert Hex(h, n)[..n - 1] == Hex(h / 16, n - 1);
    }
  }

  function Tag(h: nat): (t: string) {
    "\"" + Hex(h, 16) + "\""
  }

  lemma SixteenDigits()
    ensures Pow16(16) == M
  {
    assert Pow16(4) == 0x1_0000;
    assert Pow16(8) == 0x1_0000 * Pow16(4);
    assert Pow16(12) == 0x1_0000 * Pow16(8);
    assert Pow16(16) == 0x1_0000 * Pow16(12);
  }

  /** The tag is the digest in sixteen lower-case hexadecimal digits, between quotes. */
  lemma TagShowsTheDigest(h: nat)
    requires h < M
    ensures |Tag(h)| == 18 && Tag(h)[0] == '\"' && Tag(h)[17] == '\"'
    ensures HexNumber(Tag(h)[1..17]) == h && forall i :: 1 <= i < 17 ==> HexValue(Tag(h)[i]) < 16
  {
    SixteenDigits();
    HexReadsBack(h, 16);
    assert Tag(h)[1..17] == Hex(h, 16);
  }

  /** Different digests never share a tag. */
  lemma TagIsInjective(h: nat, k: nat)
    requires h < M && k < M && Tag(h) == Tag(k)
    ensures h == k
  {
    TagShowsTheDigest(h);
    TagShowsTheDigest(k);
  }

  /** The n low bytes of a value, least significant first, as they lie in memory. */
  function Bytes(v: nat, n: nat): (s: seq<Byte>) {
    if n == 0 then [] else [v % 256] + Bytes(v / 256, n - 1)
  }

  /** A signed 64-bit value as its two's complement. */
  function Unsigned(t: int): (v: nat)
    requires -M / 2 <= t < M / 2
    ensures v < M && (v - t) % M == 0
  {
    if t < 0 then t + M else t
  }

  datatype Fields = Fields(name: seq<Byte>, mtime: nat, size: nat, path: seq<Byte>, generation: nat)

  predicate FitsFields(f: Fields) {
    f.mtime < M && f.size < M && f.generation < M
  }

  function Stream(f: Fields): (s: seq<Byte>) {
    f.name + Bytes(f.mtime, 8) + Bytes(f.size, 8) + f.path + Bytes(f.generation, 8)
  }

  function TagOf(f: Fields): (t: string) {
    Tag(Fnv(Stream(f), OFFSET_BASIS))
  }

  /** The tag of what the caller passes. */
  function EtagOf(name: seq<Byte>, mtimeTicks: int, size: nat, path: seq<Byte>, generation: nat): (t: string)
    requires -M / 2 <= mtimeTicks < M / 2
  {
    TagOf(Fields(name, Unsigned(mtimeTicks), size, path, generation))
  }

  /** The number that bytes spell, least significant first. */
  function Number(s: seq<Byte>): (v: nat) {
    if s == [] then 0 else s[0] + 256 * Number(s[1..])
  }

  lemma {:induction false} NumberOfBytes(v: nat, n: nat)
    requires v < Pow256(n)
    ensures |Bytes(v, n)| == n && Number(Bytes(v, n)) == v
    decreases n
  {
    if n > 0 {
      NumberOfBytes(v / 256, n - 1);
      assert Bytes(v, n)[1..] == Bytes(v / 256, n - 1);
    }
  }

  lemma EightBytes(v: nat)
    requires v < M
    ensures |Bytes(v, 8)| == 8 && Number(Bytes(v, 8)) == v
  {
    assert Pow256(4) == 0x1_0000_0000;
    assert Pow256(8) == 0x1_0000_0000 * Pow256(4);
    NumberOfBytes(v, 8);
  }

  /** The digest is taken over the name, the modification time, the size, the path and
      the generation, in this order, the numbers as eight bytes each. */
  lemma StreamReadsBack(f: Fields)
    requires FitsFields(f)
    ensures var s, n, p := Stream(f), |f.name|, |f.path|;
            && |s| == n + p + 24
            && s[..n] == f.name && s[n + 16..n + 16 + p] == f.path
            && Number(s[n..n + 8]) == f.mtime && Number(s[n + 8..n + 16]) == f.size
            && Number(s[n + 16 + p..]) == f.generation
  {
    var s, n, p := Stream(f), |f.name|, |f.path|;
    EightBytes(f.mtime);
    EightBytes(f.size);
    EightBytes(f.generation);
    assert s[n..n + 8] == Bytes(f.mtime, 8);
    assert s[n + 8..n + 16] == Bytes(f.size, 8);
    assert s[n + 16 + p..] == Bytes(f.generation, 8);
  }

  /** Tags of equally long streams that differ only in a window of four bytes. */
  lemma TagSeesAWindow(before: seq<Byte>, x: seq<Byte>, y: seq<Byte>, rest: seq<Byte>)
    requires |x| == |y| <= 4 && x != y
    ensures Tag(Fnv(before + x + rest, OFFSET_BASIS)) != Tag(Fnv(before + y + rest, OFFSET_BASIS))
  {
    DigestSeesAWindow(before, x, y, rest);
    if Tag(Fnv(before + x + rest, OFFSET_BASIS)) == Tag(Fnv(before + y + rest, OFFSET_BASIS)) {
      TagIsInjective(Fnv(before + x + rest, OFFSET_BASIS), Fnv(before + y + rest, OFFSET_BASIS));
    }
  }

  /** What is left of a value after its n low bytes. */
  function Above(v: nat, n: nat): (r: nat) {
    if n == 0 then v else Above(v / 256, n - 1)
  }

  lemma {:induction false} BytesSplit(v: nat, m: nat, n: nat)
    ensures Bytes(v, m + n) == Bytes(v, m) + Bytes(Above(v, m), n)
    decreases m
  {
    if m > 0 {
      BytesSplit(v / 256, m - 1, n);
    }
  }

  lemma {:induction false} BytesLength(v: nat, n: nat)
    ensures |Bytes(v, n)| == n
    decreases n
  {
    if n > 0 {
      BytesLength(v / 256, n - 1);
    }
  }

  function Pow256(n: nat): (p: nat)
    ensures p >= 1
  {
    if n == 0 then 1 else 256 * Pow256(n - 1)
  }

  lemma {:induction false} BytesAreInjective(v: nat, w: nat, n: nat)
    requires v < Pow256(n) && w < Pow256(n) && Bytes(v, n) == Bytes(w, n)
    ensures v == w
    decreases n
  {
    if n > 0 {
      assert Bytes(v, n)[0] == v % 256 && Bytes(w, n)[0] == w % 256;
      assert Bytes(v, n)[1..] == Bytes(v / 256, n - 1) && Bytes(w, n)[1..] == Bytes(w / 256, n - 1);
      BytesAreInjective(v / 256, w / 256, n - 1);
    }
  }

  /** Two 64-bit values that agree in their upper halves differ within the four
      low bytes. */
  lemma LowHalvesDiffer(v: nat, w: nat)
    requires v < M && w < M && v != w && v / 0x1_0000_0000 == w / 0x1_0000_0000
    ensures Bytes(v, 8) == Bytes(v, 4) + Bytes(Above(v, 4), 4)
    ensures Bytes(w, 8) == Bytes(w, 4) + Bytes(Above(v, 4), 4)
    ensures |Bytes(v, 4)| == |Bytes(w, 4)| == 4 && Bytes(v, 4) != Bytes(w, 4)
  {
    FourBytesAbove(v);
    FourBytesAbove(w);
    BytesSplit(v, 4, 4);
    BytesSplit(w, 4, 4);
    BytesLength(v, 4);
    BytesLength(w, 4);
    assert Pow256(4) == 0x1_0000_0000;
    assert Pow256(8) == 0x1_0000_0000 * Pow256(4);
    if Bytes(v, 4) == Bytes(w, 4) {
      BytesAreInjective(v, w, 8);
    }
  }

  lemma FourBytesAbove(v: nat)
    ensures Above(v, 4) == v / 0x1_0000_0000
  {
    var a := v / 256;
    var b := a / 256;
    var c := b / 256;
    assert Above(c, 1) == c / 256;
    assert Above(b, 2) == Above(c, 1);
    assert Above(a, 3) == Above(b, 2);
    assert v / 0x1_0000_0000 == c / 256;
  }

  lemma FieldRotatesTheTag(before: seq<Byte>, v: nat, w: nat, rest: seq<Byte>)
    requires v < M && w < M && v != w && v / 0x1_0000_0000 == w / 0x1_0000_0000
    ensures Tag(Fnv(before + Bytes(v, 8) + rest, OFFSET_BASIS)) != Tag(Fnv(before + Bytes(w, 8) + rest, OFFSET_BASIS))
  {
    LowHalvesDiffer(v, w);
    var high := Bytes(Above(v, 4), 4);
    Regroup(before, Bytes(v, 4), high, rest);
    Regroup(before, Bytes(w, 4), high, rest);
    TagSeesAWindow(before, Bytes(v, 4), Bytes(w, 4), high + rest);
  }

  lemma Regroup(a: seq<Byte>, b: seq<Byte>, c: seq<Byte>, d: seq<Byte>)
    ensures a + (b + c) + d == a + b + (c + d)
  {
  }

  /** A different generation, in particular the next one, gives a different tag,
      as long as the upper 32 bits agree: so every two generations below 2^32
      are told apart. */
  lemma GenerationRotatesTheTag(f: Fields, g: nat)
    requires FitsFields(f) && g < M && g != f.generation
    requires g / 0x1_0000_0000 == f.generation / 0x1_0000_0000
    ensures TagOf(f.(generation := g)) != TagOf(f)
  {
    var before := f.name + Bytes(f.mtime, 8) + Bytes(f.size, 8) + f.path;
    FieldRotatesTheTag(before, f.generation, g, []);
    assert before + Bytes(g, 8) + [] == before + Bytes(g, 8);
    assert before + Bytes(f.generation, 8) + [] == before + Bytes(f.generation, 8);
  }

  /** So does a replaced archive of a different size below 4 GiB... */
  lemma SizeRotatesTheTag(f: Fields, n: nat)
    requires FitsFields(f) && n < M && n != f.size
    requires n / 0x1_0000_0000 == f.size / 0x1_0000_0000
    ensures TagOf(f.(size := n)) != TagOf(f)
  {
    var before, gen := f.name + Bytes(f.mtime, 8), Bytes(f.generation, 8);
    FieldRotatesTheTag(before, f.size, n, f.path + gen);
    assert before + Bytes(n, 8) + (f.path + gen) == before + Bytes(n, 8) + f.path + gen;
    assert before + Bytes(f.size, 8) + (f.path + gen) == before + Bytes(f.size, 8) + f.path + gen;
  }

  /** ...and one written at another tick of the same 2^32-tick period. */
  lemma MtimeRotatesTheTag(f: Fields, t: nat)
    requires FitsFields(f) && t < M && t != f.mtime
    requires t / 0x1_0000_0000 == f.mtime / 0x1_0000_0000
    ensures TagOf(f.(mtime := t)) != TagOf(f)
  {
    var size, gen := Bytes(f.size, 8), Bytes(f.generation, 8);
    FieldRotatesTheTag(f.name, f.mtime, t, size + f.path + gen);
    assert f.name + Bytes(t, 8) + (size + f.path + gen) == f.name + Bytes(t, 8) + size + f.path + gen;
    assert f.name + Bytes(f.mtime, 8) + (size + f.path + gen) == f.name + Bytes(f.mtime, 8) + size + f.path + gen;
  }

  /** In the caller's terms, negative counts included: two different tick counts of the same
      2^32-tick period give different tags. */
  lemma TicksRotateTheTag(name: seq<Byte>, t: int, u: int, size: nat, path: seq<Byte>, generation: nat)
    requires -M / 2 <= t < M / 2 && -M / 2 <= u < M / 2 && size < M && generation < M
    requires t != u && t / 0x1_0000_0000 == u / 0x1_0000_0000
    ensures EtagOf(name, t, size, path, generation) != EtagOf(name, u, size, path, generation)
  {
    assert t < 0 <==> u < 0;
    assert Unsigned(t) - Unsigned(u) == t - u;
    assert Unsigned(t) / 0x1_0000_0000 == Unsigned(u) / 0x1_0000_0000;
    MtimeRotatesTheTag(Fields(name, Unsigned(t), size, path, generation), Unsigned(u));
  }

  /** A name changed inside four adjacent bytes, its length kept, gives a different tag... */
  lemma NameRotatesTheTag(f: Fields, before: seq<Byte>, x: seq<Byte>, y: seq<Byte>, rest: seq<Byte>)
    requires |x| == |y| <= 4 && x != y
    ensures TagOf(f.(name := before + x + rest)) != TagOf(f.(name := before + y + rest))
  {
    var tail := Bytes(f.mtime, 8) + Bytes(f.size, 8) + f.path + Bytes(f.generation, 8);
    assert Stream(f.(name := before + x + rest)) == before + x + (rest + tail);
    assert Stream(f.(name := before + y + rest)) == before + y + (rest + tail);
    TagSeesAWindow(before, x, y, rest + tail);
  }

  /** ...and so does such a path, so that two endpoints of one design differ. */
  lemma PathRotatesTheTag(f: Fields, before: seq<Byte>, x: seq<Byte>, y: seq<Byte>, rest: seq<Byte>)
    requires |x| == |y| <= 4 && x != y
    ensures TagOf(f.(path := before + x + rest)) != TagOf(f.(path := before + y + rest))
  {
    var head, tail := f.name + Bytes(f.mtime, 8) + Bytes(f.size, 8), Bytes(f.generation, 8);
    assert Stream(f.(path := before + x + rest)) == head + before + x + (rest + tail);
    assert Stream(f.(path := before + y + rest)) == head + before + y + (rest + tail);
    TagSeesAWindow(head + before, x, y, rest + tail);
  }

  // ------------------------------------------------- What no such tag can promise

  /** More arguments than values: two of them meet. */
  lemma {:induction false} Pigeonhole(f: nat -> nat, n: nat) returns (i: nat, j: nat)
    requires n > 0 && forall k: nat :: k <= n ==> f(k) < n
    ensures i < j <= n && f(i) == f(j)
    decreases n
  {
    if k: nat :| k < n && f(k) == f(n) {
      return k, n;
    } else {
      assert f(0) < n && f(n) < n && f(0) != f(n);
      var g: nat -> nat := (k: nat) => if f(k) == n - 1 then f(n) else f(k);
      forall k: nat | k <= n - 1
        ensures g(k) < n - 1
      {
        assert f(k) < n && f(n) < n && f(k) != f(n);
      }
      i, j := Pigeonhole(g, n - 1);
      assert f(i) != f(n) && f(j) != f(n);
    }
  }

  /** One more pair of time and size than there are digests. */
  function PairAt(f: Fields, i: nat): (g: Fields)
    requires i <= M
    ensures i < M ==> g == f.(mtime := 0, size := i)
    ensures i == M ==> g == f.(mtime := 1, size := 0)
  {
    if i < M then f.(mtime := 0, size := i) else f.(mtime := 1, size := 0)
  }

  function DigestAt(f: Fields, i: nat): (h: nat)
    ensures h < M
  {
    if i <= M then Fnv(Stream(PairAt(f, i)), OFFSET_BASIS) else 0
  }

  /** A changed modification time or size does not always change the tag: for every design
      name, path and generation two different pairs share one. */
  lemma TagsCollide(f: Fields) returns (g: Fields, h: Fields)
    requires FitsFields(f)
    ensures FitsFields(g) && FitsFields(h)
    ensures g == f.(mtime := g.mtime, size := g.size) && h == f.(mtime := h.mtime, size := h.size)
    ensures (g.mtime != h.mtime || g.size != h.size) && TagOf(g) == TagOf(h)
  {
    var digest: nat -> nat := (i: nat) => DigestAt(f, i);
    var i, j := Pigeonhole(digest, M);
    g, h := PairAt(f, i), PairAt(f, j);
    assert digest(i) == DigestAt(f, i) && digest(j) == DigestAt(f, j);
  }

  // ---------------------------------------------------------------- The code

  method Fnv1a64(data: seq<Byte>, start: nat) returns (hash: nat)
    requires start < M
    ensures hash < M && hash == Fnv(data, start)
  {
    hash := start;
    for i := 0 to |data|
      invariant hash < M && hash == Fnv(data[..i], start)
    {
      assert data[..i + 1][..i] == data[..i];
      hash := Mixed(hash, data[i]);
      hash := hash * PRIME % M;
    }
    assert data[..|data|] == data;
  }

  method MakeEtag(name: seq<Byte>, mtimeTicks: int, size: nat, path: seq<Byte>, generation: nat) returns (tag: string)
    requires -M / 2 <= mtimeTicks < M / 2 && size < M && generation < M
    ensures tag == EtagOf(name, mtimeTicks, size, path, generation)
  {
    var mtime := Unsigned(mtimeTicks);
    var hash := Fnv1a64(name, OFFSET_BASIS);
    FnvConcat(name, Bytes(mtime, 8), OFFSET_BASIS);
    hash := Fnv1a64(Bytes(mtime, 8), hash);
    FnvConcat(name + Bytes(mtime, 8), Bytes(size, 8), OFFSET_BASIS);
    hash := Fnv1a64(Bytes(size, 8), hash);
    FnvConcat(name + Bytes(mtime, 8) + Bytes(size, 8), path, OFFSET_BASIS);
    hash := Fnv1a64(path, hash);
    FnvConcat(name + Bytes(mtime, 8) + Bytes(size, 8) + path, Bytes(generation, 8), OFFSET_BASIS);
    hash := Fnv1a64(Bytes(generation, 8), hash);
    tag := Render(hash);
  }

  /** A shift to the right by n hexadecimal digits. */
  function Shifted(h: nat, n: nat): (r: nat) {
    if n == 0 then h else Shifted(h, n - 1) / 16
  }

  /** The rendering loop: shift by 60, 56, ..., 0 and keep four bits each time. */
  method Render(hash: nat) returns (tag: string)
    requires hash < M
    ensures tag == Tag(hash)
  {
    tag := "\"";
    var left := 16;
    while left > 0
      invariant 0 <= left <= 16
      invariant tag == "\"" + Hex(Shifted(hash, left), 16 - left)
    {
      var low := Shifted(hash, left - 1) % 16;
      assert "\"" + (Hex(Shifted(hash, left), 16 - left) + [Digit(low)]) == tag + [Digit(low)];
      tag := tag + [Digit(low)];
      left := left - 1;
    }
    tag := tag + "\"";
  }
}
