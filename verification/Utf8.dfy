/** The scalar-value codec of section 3 of RFC 3629: what one character is.
    Bytes and code points are integers; a test such as "the top three bits are
    110" is written as the range of bytes that satisfy it, and taking the low
    bits of a byte in that range as a subtraction. */
module Utf8Codec {
  import opened Basics

  predicate Scalar(c: int) {
    0 <= c <= 0x10FFFF && !(0xD800 <= c <= 0xDFFF)
  }

  predicate Continuation(b: Byte) {
    0x80 <= b <= 0xBF
  }

  /** The bytes the encoder writes for a code point. */
  function Encode(c: int): (r: seq<Byte>)
    requires 0 <= c <= 0x10FFFF
    ensures 1 <= |r| <= 4
    ensures |r| == 4 <==> c > 0xFFFF
    ensures |r| == 1 <==> c <= 0x7F
  {
    if c <= 0x7F then [c]
    else if c <= 0x7FF then [0xC0 + c / 64, 0x80 + c % 64]
    else if c <= 0xFFFF then [0xE0 + c / 4096, 0x80 + c / 64 % 64, 0x80 + c % 64]
    else [0xF0 + c / 262144, 0x80 + c / 4096 % 64, 0x80 + c / 64 % 64, 0x80 + c % 64]
  }

  function Code2(b0: Byte, b1: Byte): int {
    (b0 - 0xC0) * 64 + (b1 - 0x80)
  }

  function Code3(b0: Byte, b1: Byte, b2: Byte): int {
    (b0 - 0xE0) * 4096 + (b1 - 0x80) * 64 + (b2 - 0x80)
  }

  function Code4(b0: Byte, b1: Byte, b2: Byte, b3: Byte): int {
    (b0 - 0xF0) * 262144 + (b1 - 0x80) * 4096 + (b2 - 0x80) * 64 + (b3 - 0x80)
  }

  /** The length of the well-formed sequence starting at s[i], or 0. */
  function SequenceLengthAt(s: seq<Byte>, i: nat): (n: nat)
    requires i < |s|
    ensures n <= 4 && i + n <= |s|
  {
    var b := s[i];
    if b <= 0x7F then 1
    else if 0xC0 <= b <= 0xDF then
      if i + 1 >= |s| then 0
      else if !Continuation(s[i + 1]) then 0
      else if Code2(b, s[i + 1]) < 0x80 then 0
      else 2
    else if 0xE0 <= b <= 0xEF then
      if i + 2 >= |s| then 0
      else if !Continuation(s[i + 1]) || !Continuation(s[i + 2]) then 0
      else
        var c := Code3(b, s[i + 1], s[i + 2]);
        if c < 0x800 then 0
        else if 0xD800 <= c <= 0xDFFF then 0
        else 3
    else if 0xF0 <= b <= 0xF7 then
      if i + 3 >= |s| then 0
      else if !Continuation(s[i + 1]) || !Continuation(s[i + 2]) || !Continuation(s[i + 3]) then 0
      else
        var c := Code4(b, s[i + 1], s[i + 2], s[i + 3]);
        if c < 0x10000 then 0
        else if c > 0x10FFFF then 0
        else 4
    else 0
  }

  /** The code point the scanner computed for the sequence it accepted. */
  function CodepointAt(s: seq<Byte>, i: nat): (c: int)
    requires i < |s| && SequenceLengthAt(s, i) > 0
  {
    match SequenceLengthAt(s, i)
    case 1 => s[i]
    case 2 => Code2(s[i], s[i + 1])
    case 3 => Code3(s[i], s[i + 1], s[i + 2])
    case _ => Code4(s[i], s[i + 1], s[i + 2], s[i + 3])
  }

  /** Scanner, then encoder: what the scanner accepts is exactly the encoding
      of the scalar value it read. */
  lemma EncodeOfScan(s: seq<Byte>, i: nat)
    requires i < |s| && SequenceLengthAt(s, i) > 0
    ensures Scalar(CodepointAt(s, i))
    ensures Encode(CodepointAt(s, i)) == s[i..i + SequenceLengthAt(s, i)]
  {
    var n := SequenceLengthAt(s, i);
    if n == 2 {
      JoinTwo(s[i], s[i + 1]);
      assert s[i..i + n] == [s[i], s[i + 1]];
    } else if n == 3 {
      JoinThree(s[i], s[i + 1], s[i + 2]);
      assert s[i..i + n] == [s[i], s[i + 1], s[i + 2]];
    } else if n == 4 {
      JoinFour(s[i], s[i + 1], s[i + 2], s[i + 3]);
      assert s[i..i + n] == [s[i], s[i + 1], s[i + 2], s[i + 3]];
    }
  }

  lemma JoinTwo(b0: Byte, b1: Byte)
    requires Continuation(b1) && 0x7F < Code2(b0, b1) <= 0x7FF
    ensures Encode(Code2(b0, b1)) == [b0, b1]
  {
  }

  lemma ThreeDigits(x: int, y: int, z: int)
    requires 0 <= x && 0 <= y < 64 && 0 <= z < 64
    ensures var c := x * 4096 + y * 64 + z; c / 4096 == x && c / 64 % 64 == y && c % 64 == z
  {
    var c := x * 4096 + y * 64 + z;
    assert c / 64 == x * 64 + y;
  }

  lemma FourDigits(w: int, x: int, y: int, z: int)
    requires 0 <= w && 0 <= x < 64 && 0 <= y < 64 && 0 <= z < 64
    ensures var c := w * 262144 + x * 4096 + y * 64 + z;
            c / 262144 == w && c / 4096 % 64 == x && c / 64 % 64 == y && c % 64 == z
  {
    var c := w * 262144 + x * 4096 + y * 64 + z;
    assert c / 64 == w * 4096 + x * 64 + y;
    assert c / 4096 == w * 64 + x;
  }

  lemma JoinThree(b0: Byte, b1: Byte, b2: Byte)
    requires Continuation(b1) && Continuation(b2)
    requires 0x7FF < Code3(b0, b1, b2) <= 0xFFFF
    ensures Encode(Code3(b0, b1, b2)) == [b0, b1, b2]
  {
    ThreeDigits(b0 - 0xE0, b1 - 0x80, b2 - 0x80);
  }

  lemma JoinFour(b0: Byte, b1: Byte, b2: Byte, b3: Byte)
    requires Continuation(b1) && Continuation(b2) && Continuation(b3)
    requires 0xFFFF < Code4(b0, b1, b2, b3) <= 0x10FFFF
    ensures Encode(Code4(b0, b1, b2, b3)) == [b0, b1, b2, b3]
  {
    var w: int, x: int, y: int, z: int := b0 - 0xF0, b1 - 0x80, b2 - 0x80, b3 - 0x80;
    var c := Code4(b0, b1, b2, b3);
    FourDigits(w, x, y, z);
    assert c / 262144 == w && c / 4096 % 64 == x && c / 64 % 64 == y && c % 64 == z;
  }

  /** Encoder, then scanner: whatever follows, the scanner reads back exactly
      the scalar value that was encoded. */
  lemma ScanOfEncode(c: int, rest: seq<Byte>)
    requires Scalar(c)
    ensures SequenceLengthAt(Encode(c) + rest, 0) == |Encode(c)|
    ensures CodepointAt(Encode(c) + rest, 0) == c
  {
    var e := Encode(c);
    var s := e + rest;
    assert s[..|e|] == e;
    assert forall k :: 0 <= k < |e| ==> s[k] == e[k];
    if 0x7FF < c <= 0xFFFF {
      SplitThree(c);
    } else if c > 0xFFFF {
      SplitFour(c);
    }
  }

  lemma SplitThree(c: int)
    requires 0 <= c <= 0xFFFF
    ensures c == c / 4096 * 4096 + c / 64 % 64 * 64 + c % 64
    ensures c / 4096 <= 15
  {
    assert c / 64 / 64 == c / 4096;
  }

  lemma SplitFour(c: int)
    requires 0 <= c <= 0x10FFFF
    ensures c == c / 262144 * 262144 + c / 4096 % 64 * 4096 + c / 64 % 64 * 64 + c % 64
    ensures c / 262144 <= 4
  {
    assert c / 64 / 64 == c / 4096;
    assert c / 4096 / 64 == c / 262144;
  }

  /** The grammar of section 4 of RFC 3629. */
  predicate Tail(r: seq<Byte>, k: nat) {
    forall i :: k <= i < |r| ==> 0x80 <= r[i] <= 0xBF
  }

  predicate Grammatical(r: seq<Byte>) {
    match |r|
    case 1 => r[0] <= 0x7F
    case 2 => 0xC2 <= r[0] <= 0xDF && Tail(r, 1)
    case 3 =>
      && Tail(r, 2)
      && (|| (r[0] == 0xE0 && 0xA0 <= r[1] <= 0xBF)
          || (0xE1 <= r[0] <= 0xEC && 0x80 <= r[1] <= 0xBF)
          || (r[0] == 0xED && 0x80 <= r[1] <= 0x9F)
          || (0xEE <= r[0] <= 0xEF && 0x80 <= r[1] <= 0xBF))
    case 4 =>
      && Tail(r, 2)
      && (|| (r[0] == 0xF0 && 0x90 <= r[1] <= 0xBF)
          || (0xF1 <= r[0] <= 0xF3 && 0x80 <= r[1] <= 0xBF)
          || (r[0] == 0xF4 && 0x80 <= r[1] <= 0x8F))
    case _ => false
  }

  /** The scanner's arithmetic tests amount to that grammar. */
  lemma ScanIsTheGrammar(s: seq<Byte>, i: nat, n: nat)
    requires 0 < n && i + n <= |s|
    ensures SequenceLengthAt(s, i) == n <==> Grammatical(s[i..i + n])
  {
    var r := s[i..i + n];
    assert forall k :: 0 <= k < n ==> r[k] == s[i + k];
    if n == 2 {
      TwoByTheGrammar(r);
    } else if n == 3 {
      ThreeByTheGrammar(r);
    } else if n == 4 {
      FourByTheGrammar(r);
    }
  }

  lemma TwoByTheGrammar(r: seq<Byte>)
    requires |r| == 2
    ensures Grammatical(r) <==> 0xC0 <= r[0] <= 0xDF && Continuation(r[1]) && Code2(r[0], r[1]) >= 0x80
  {
  }

  lemma ThreeByTheGrammar(r: seq<Byte>)
    requires |r| == 3
    ensures Grammatical(r) <==>
            && 0xE0 <= r[0] <= 0xEF && Continuation(r[1]) && Continuation(r[2])
            && var c := Code3(r[0], r[1], r[2]); c >= 0x800 && !(0xD800 <= c <= 0xDFFF)
  {
  }

  lemma FourByTheGrammar(r: seq<Byte>)
    requires |r| == 4
    ensures Grammatical(r) <==>
            && 0xF0 <= r[0] <= 0xF7 && Continuation(r[1]) && Continuation(r[2]) && Continuation(r[3])
            && 0x10000 <= Code4(r[0], r[1], r[2], r[3]) <= 0x10FFFF
  {
  }

  /** The first byte in which a and b differ is smaller in a. */
  ghost predicate Sooner(a: seq<Byte>, b: seq<Byte>) {
    exists k :: 0 <= k < |a| && k < |b| && a[k] < b[k] && a[..k] == b[..k]
  }

  /** Two strings that agree before k and not at k. */
  lemma DecidedAt(a: seq<Byte>, b: seq<Byte>, k: nat)
    requires k < |a| && k < |b| && a[k] < b[k] && forall i :: 0 <= i < k ==> a[i] == b[i]
    ensures Sooner(a, b)
  {
    assert a[..k] == b[..k];
  }

  lemma LongerStartsHigher(c: int, d: int)
    requires 0 <= c < d <= 0x10FFFF && |Encode(c)| < |Encode(d)|
    ensures Encode(c)[0] < Encode(d)[0]
  {
  }

  lemma TwoInOrder(c: int, d: int)
    requires 0x7F < c < d <= 0x7FF
    ensures Sooner(Encode(c), Encode(d))
  {
    DecidedAt(Encode(c), Encode(d), if c / 64 < d / 64 then 0 else 1);
  }

  lemma ThreeInOrder(c: int, d: int)
    requires 0x7FF < c < d <= 0xFFFF
    ensures Sooner(Encode(c), Encode(d))
  {
    SplitThree(c);
    SplitThree(d);
    DecidedAt(Encode(c), Encode(d),
              if c / 4096 < d / 4096 then 0 else if c / 64 % 64 < d / 64 % 64 then 1 else 2);
  }

  lemma FourInOrder(c: int, d: int)
    requires 0xFFFF < c < d <= 0x10FFFF
    ensures Sooner(Encode(c), Encode(d))
  {
    var w, x, y, z := c / 262144, c / 4096 % 64, c / 64 % 64, c % 64;
    var w', x', y', z' := d / 262144, d / 4096 % 64, d / 64 % 64, d % 64;
    SplitFour(c);
    SplitFour(d);
    FourDigitsInOrder(w, x, y, z, w', x', y', z');
    DecidedAt(Encode(c), Encode(d), if w < w' then 0 else if x < x' then 1 else if y < y' then 2 else 3);
  }

  lemma FourDigitsInOrder(w: int, x: int, y: int, z: int, w': int, x': int, y': int, z': int)
    requires 0 <= x < 64 && 0 <= y < 64 && 0 <= z < 64 && 0 <= x' < 64 && 0 <= y' < 64 && 0 <= z' < 64
    requires w * 262144 + x * 4096 + y * 64 + z < w' * 262144 + x' * 4096 + y' * 64 + z'
    ensures w < w' || (w == w' && (x < x' || (x == x' && (y < y' || (y == y' && z < z')))))
  {
  }

  /** Sorting by bytes is sorting by character number (section 1 of RFC 3629). */
  lemma EncodingKeepsTheOrder(c: int, d: int)
    requires 0 <= c < d <= 0x10FFFF
    ensures Sooner(Encode(c), Encode(d))
  {
    if |Encode(c)| != |Encode(d)| {
      LongerStartsHigher(c, d);
      DecidedAt(Encode(c), Encode(d), 0);
    } else if d <= 0x7F {
      DecidedAt(Encode(c), Encode(d), 0);
    } else if d <= 0x7FF {
      TwoInOrder(c, d);
    } else if d <= 0xFFFF {
      ThreeInOrder(c, d);
    } else {
      FourInOrder(c, d);
    }
  }

  /** Scanning looks only forward: what stands before is irrelevant. */
  lemma ScanLooksForward(before: seq<Byte>, s: seq<Byte>, i: nat)
    requires i < |s|
    ensures SequenceLengthAt(before + s, |before| + i) == SequenceLengthAt(s, i)
  {
  }

  /** No multi-byte sequence reaches across an ASCII byte. */
  lemma ScanStopsAtAscii(a: seq<Byte>, c: Byte, b: seq<Byte>, i: nat)
    requires i < |a| && c <= 0x7F
    ensures SequenceLengthAt(a + [c] + b, i) == SequenceLengthAt(a, i)
  {
    var s := a + [c] + b;
    assert s[|a|] == c && forall k :: 0 <= k < |a| ==> s[k] == a[k];
  }
}

/** Text: whole byte strings, their validity, and the repair of damaged ones. */
module Utf8Sanitizer {
  import opened Basics
  import opened Utf8Codec

  // ---------------------------------------------------------------- Validity

  predicate Scalars(cs: seq<int>) {
    forall k :: 0 <= k < |cs| ==> Scalar(cs[k])
  }

  /** The reference notion of text: characters written one after another. */
  function EncodeAll(cs: seq<int>): (r: seq<Byte>)
    requires Scalars(cs)
  {
    if cs == [] then [] else Encode(cs[0]) + EncodeAll(cs[1..])
  }

  ghost predicate WellFormed(s: seq<Byte>) {
    exists cs :: Scalars(cs) && EncodeAll(cs) == s
  }

  /** The validator's loop, from position i on. */
  predicate Scans(s: seq<Byte>, i: nat)
    requires i <= |s|
    decreases |s| - i
  {
    i == |s| || (SequenceLengthAt(s, i) > 0 && Scans(s, i + SequenceLengthAt(s, i)))
  }

  lemma {:induction false} ReadBack(s: seq<Byte>, i: nat) returns (cs: seq<int>)
    requires i <= |s| && Scans(s, i)
    ensures Scalars(cs) && EncodeAll(cs) == s[i..]
    decreases |s| - i
  {
    if i == |s| {
      return [];
    }
    var n := SequenceLengthAt(s, i);
    EncodeOfScan(s, i);
    var tail := ReadBack(s, i + n);
    cs := [CodepointAt(s, i)] + tail;
    assert cs[1..] == tail;
    assert s[i..i + n] + s[i + n..] == s[i..];
  }

  lemma {:induction false} EncodedScans(before: seq<Byte>, cs: seq<int>)
    requires Scalars(cs)
    ensures Scans(before + EncodeAll(cs), |before|)
    decreases |cs|
  {
    if cs != [] {
      var head, rest := Encode(cs[0]), EncodeAll(cs[1..]);
      ScanOfEncode(cs[0], rest);
      ScanLooksForward(before, head + rest, 0);
      EncodedScans(before + head, cs[1..]);
      Associate(before, head, rest);
    }
  }

  /** The loop accepts exactly the concatenations of encoded scalar values. */
  lemma ScansIffWellFormed(s: seq<Byte>)
    ensures Scans(s, 0) <==> WellFormed(s)
  {
    if Scans(s, 0) {
      var cs := ReadBack(s, 0);
      assert s[0..] == s;
    }
    if WellFormed(s) {
      var cs :| Scalars(cs) && EncodeAll(cs) == s;
      EncodedScans([], cs);
      assert [] + s == s;
    }
  }

  /** A byte string spells at most one sequence of scalar values. */
  lemma {:induction false} SpellingIsUnique(a: seq<int>, b: seq<int>)
    requires Scalars(a) && Scalars(b) && EncodeAll(a) == EncodeAll(b)
    ensures a == b
    decreases |a|
  {
    if a != [] && b != [] {
      var restA, restB := EncodeAll(a[1..]), EncodeAll(b[1..]);
      ScanOfEncode(a[0], restA);
      ScanOfEncode(b[0], restB);
      assert (Encode(a[0]) + restA)[|Encode(a[0])|..] == restA;
      assert (Encode(b[0]) + restB)[|Encode(b[0])|..] == restB;
      SpellingIsUnique(a[1..], b[1..]);
      assert a == [a[0]] + a[1..] && b == [b[0]] + b[1..];
    }
  }

  method IsValidUtf8(s: seq<Byte>) returns (ok: bool)
    ensures ok <==> WellFormed(s)
  {
    ScansIffWellFormed(s);
    var i := 0;
    while i < |s|
      invariant 0 <= i <= |s|
      invariant Scans(s, 0) == Scans(s, i)
    {
      var n := SequenceLengthAt(s, i);
      if n == 0 {
        return false;
      }
      i := i + n;
    }
    return true;
  }

  // ------------------------------------------------------------------ Repair

  /** Windows-1252: only the bytes 0x80 to 0x9F differ from Latin-1, and the five
      undefined ones become the replacement character. Every byte maps to a
      scalar value that needs at most three bytes. */
  function Cp1252(b: Byte): (c: int)
    ensures Scalar(c) && c <= 0xFFFF
    ensures c <= 0x7F <==> b <= 0x7F
  {
    match b
    case 0x80 => 0x20AC
    case 0x81 => 0xFFFD
    case 0x82 => 0x201A
    case 0x83 => 0x0192
    case 0x84 => 0x201E
    case 0x85 => 0x2026
    case 0x86 => 0x2020
    case 0x87 => 0x2021
    case 0x88 => 0x02C6
    case 0x89 => 0x2030
    case 0x8A => 0x0160
    case 0x8B => 0x2039
    case 0x8C => 0x0152
    case 0x8D => 0xFFFD
    case 0x8E => 0x017D
    case 0x8F => 0xFFFD
    case 0x90 => 0xFFFD
    case 0x91 => 0x2018
    case 0x92 => 0x2019
    case 0x93 => 0x201C
    case 0x94 => 0x201D
    case 0x95 => 0x2022
    case 0x96 => 0x2013
    case 0x97 => 0x2014
    case 0x98 => 0x02DC
    case 0x99 => 0x2122
    case 0x9A => 0x0161
    case 0x9B => 0x203A
    case 0x9C => 0x0153
    case 0x9D => 0xFFFD
    case 0x9E => 0x017E
    case 0x9F => 0x0178
    case _ => b
  }

  /** The Windows-1252 encoder: the byte that writes a character, if any does. */
  function ToWindows1252(c: int): (b: Option<Byte>) {
    if 0 <= c < 0x80 || 0xA0 <= c <= 0xFF then Some(c)
    else
      match c
      case 0x0152 => Some(0x8C)
      case 0x0153 => Some(0x9C)
      case 0x0160 => Some(0x8A)
      case 0x0161 => Some(0x9A)
      case 0x0178 => Some(0x9F)
      case 0x017D => Some(0x8E)
      case 0x017E => Some(0x9E)
      case 0x0192 => Some(0x83)
      case 0x02C6 => Some(0x88)
      case 0x02DC => Some(0x98)
      case 0x2013 => Some(0x96)
      case 0x2014 => Some(0x97)
      case 0x2018 => Some(0x91)
      case 0x2019 => Some(0x92)
      case 0x201A => Some(0x82)
      case 0x201C => Some(0x93)
      case 0x201D => Some(0x94)
      case 0x201E => Some(0x84)
      case 0x2020 => Some(0x86)
      case 0x2021 => Some(0x87)
      case 0x2022 => Some(0x95)
      case 0x2026 => Some(0x85)
      case 0x2030 => Some(0x89)
      case 0x2039 => Some(0x8B)
      case 0x203A => Some(0x9B)
      case 0x20AC => Some(0x80)
      case 0x2122 => Some(0x99)
      case _ => None
  }

  /** No character is written as one of these bytes. */
  predicate Undefined(b: Byte) {
    b in {0x81, 0x8D, 0x8F, 0x90, 0x9D}
  }

  /** The character that a stray byte stands for: the one that Windows-1252 writes as
      that byte, or the replacement character if there is none. */
  predicate StandsFor(c: int, b: Byte) {
    if Undefined(b) then c == 0xFFFD else ToWindows1252(c) == Some(b)
  }

  /** The table inverts the encoder on 251 bytes, replaces the other five, and leaves
      ASCII and Latin-1 where they are. */
  lemma TableInvertsTheEncoder(b: Byte, c: int)
    ensures b < 0x80 || b >= 0xA0 ==> Cp1252(b) == b
    ensures Cp1252(b) == 0xFFFD <==> b in {0x81, 0x8D, 0x8F, 0x90, 0x9D}
    ensures ToWindows1252(c) == Some(b) <==> !Undefined(b) && c == Cp1252(b)
    ensures StandsFor(c, b) <==> c == Cp1252(b)
  {
  }

  method EncodeUtf8Codepoint(c: int, output: array<Byte>) returns (len: nat)
    requires 0 <= c <= 0x10FFFF && output.Length >= 4
    modifies output
    ensures len == |Encode(c)| && output[..len] == Encode(c)
    ensures output[len..] == old(output[len..])
  {
    if c <= 0x7F {
      output[0] := c;
      return 1;
    } else if c <= 0x7FF {
      output[0] := 0xC0 + c / 64;
      output[1] := 0x80 + c % 64;
      return 2;
    } else if c <= 0xFFFF {
      output[0] := 0xE0 + c / 4096;
      output[1] := 0x80 + c / 64 % 64;
      output[2] := 0x80 + c % 64;
      return 3;
    } else {
      output[0] := 0xF0 + c / 262144;
      output[1] := 0x80 + c / 4096 % 64;
      output[2] := 0x80 + c / 64 % 64;
      output[3] := 0x80 + c % 64;
      return 4;
    }
  }

  /** One turn of the repair loop: how far it moves and what it appends. */
  datatype Turn = Turn(moves: nat, emits: seq<Byte>)

  /** A sequence is kept, any other byte is transcoded. */
  function TurnAt(s: seq<Byte>, i: nat): (t: Turn)
    requires i < |s|
    ensures 1 <= t.moves <= |s| - i && t.moves <= |t.emits| <= 3 * t.moves
  {
    var n := SequenceLengthAt(s, i);
    if n > 0 then Turn(n, s[i..i + n]) else Turn(1, Encode(Cp1252(s[i])))
  }

  predicate Sound(p: seq<Turn>) {
    forall k :: 0 <= k < |p| ==> 1 <= p[k].moves <= |p| - k && p[k].moves <= |p[k].emits| <= 3 * p[k].moves
  }

  /** The turns the loop would take from every position. */
  function Plan(s: seq<Byte>): (p: seq<Turn>)
    ensures |p| == |s| && Sound(p)
    ensures forall k :: 0 <= k < |s| ==> p[k] == TurnAt(s, k)
  {
    seq(|s|, k requires 0 <= k < |s| => TurnAt(s, k))
  }

  /** The loop itself: take the turn of the position reached. */
  function Follow(p: seq<Turn>, i: nat): (r: seq<Byte>)
    requires Sound(p) && i <= |p|
    decreases |p| - i
  {
    if i == |p| then [] else p[i].emits + Follow(p, i + p[i].moves)
  }

  function Repair(s: seq<Byte>): (r: seq<Byte>) {
    Follow(Plan(s), 0)
  }

  lemma {:induction false} FollowLength(p: seq<Turn>, i: nat)
    requires Sound(p) && i <= |p|
    ensures |p| - i <= |Follow(p, i)| <= 3 * (|p| - i)
    decreases |p| - i
  {
    if i < |p| {
      FollowLength(p, i + p[i].moves);
    }
  }

  lemma {:induction false} FollowSuffix(p: seq<Turn>, q: seq<Turn>, i: nat)
    requires Sound(q) && Sound(p + q) && i <= |q|
    ensures Follow(p + q, |p| + i) == Follow(q, i)
    decreases |q| - i
  {
    if i < |q| {
      var j := i + q[i].moves;
      assert (p + q)[|p| + i] == q[i];
      assert |p| + i + q[i].moves == |p| + j;
      FollowSuffix(p, q, j);
    }
  }

  lemma {:induction false} FollowConcat(p: seq<Turn>, q: seq<Turn>, i: nat)
    requires Sound(p) && Sound(q) && Sound(p + q) && i <= |p|
    ensures Follow(p + q, i) == Follow(p, i) + Follow(q, 0)
    decreases |p| - i
  {
    if i < |p| {
      var e, j := p[i].emits, i + p[i].moves;
      assert (p + q)[i] == p[i];
      FollowConcat(p, q, j);
      Associate(e, Follow(p, j), Follow(q, 0));
      assert Follow(p + q, i) == e + Follow(p + q, j);
    } else {
      FollowSuffix(p, q, 0);
      assert Follow(p, i) + Follow(q, 0) == Follow(q, 0);
    }
  }

  /** What stands before does not change how the rest is repaired. */
  lemma PlanLooksForward(before: seq<Byte>, s: seq<Byte>)
    ensures Plan(before + s)[|before|..] == Plan(s)
  {
    forall k | 0 <= k < |s|
      ensures TurnAt(before + s, |before| + k) == TurnAt(s, k)
    {
      TurnLooksForward(before, s, k);
    }
  }

  lemma TurnLooksForward(before: seq<Byte>, s: seq<Byte>, i: nat)
    requires i < |s|
    ensures TurnAt(before + s, |before| + i) == TurnAt(s, i)
  {
    ScanLooksForward(before, s, i);
    var n := SequenceLengthAt(s, i);
    assert (before + s)[|before| + i..|before| + i + n] == s[i..i + n];
  }

  lemma RepairAfterFirstTurn(head: seq<Byte>, rest: seq<Byte>)
    requires head != [] && TurnAt(head + rest, 0).moves == |head|
    ensures Repair(head + rest) == TurnAt(head + rest, 0).emits + Repair(rest)
  {
    var p := Plan(head + rest);
    PlanLooksForward(head, rest);
    assert p == p[..|head|] + Plan(rest);
    FollowSuffix(p[..|head|], Plan(rest), 0);
  }

  /** Repair stated without the scanner: text that is a character followed by
      anything keeps the character and repairs the rest... */
  lemma RepairKeepsCharacters(c: int, rest: seq<Byte>)
    requires Scalar(c)
    ensures Repair(Encode(c) + rest) == Encode(c) + Repair(rest)
  {
    var s := Encode(c) + rest;
    ScanOfEncode(c, rest);
    assert s[0..|Encode(c)|] == Encode(c);
    RepairAfterFirstTurn(Encode(c), rest);
  }

  /** ...and text that starts with no character at all loses exactly its first
      byte, which is read as Windows-1252. */
  lemma RepairTranscodesBadBytes(b: Byte, rest: seq<Byte>)
    requires forall c :: Scalar(c) ==> !(Encode(c) <= [b] + rest)
    ensures Repair([b] + rest) == Encode(Cp1252(b)) + Repair(rest)
  {
    var s := [b] + rest;
    if SequenceLengthAt(s, 0) > 0 {
      EncodeOfScan(s, 0);
      assert false;
    }
    RepairAfterFirstTurn([b], rest);
  }

  ghost predicate StartsWithACharacter(s: seq<Byte>) {
    exists c :: Scalar(c) && Encode(c) <= s
  }

  /** How damaged text is to be read, without scanner, plan or table: characters as long
      as there is one, and a byte with which no character starts as the one it stands for. */
  ghost predicate Reading(s: seq<Byte>, cs: seq<int>)
    decreases |cs|
  {
    if cs == [] then s == []
    else
      && s != [] && Scalar(cs[0])
      && if StartsWithACharacter(s) then
           Encode(cs[0]) <= s && Reading(s[|Encode(cs[0])|..], cs[1..])
         else
           StandsFor(cs[0], s[0]) && Reading(s[1..], cs[1..])
  }

  lemma ScansIfItStartsWithACharacter(s: seq<Byte>)
    requires s != []
    ensures StartsWithACharacter(s) <==> SequenceLengthAt(s, 0) > 0
  {
    if SequenceLengthAt(s, 0) > 0 {
      EncodeOfScan(s, 0);
      assert Encode(CodepointAt(s, 0)) <= s;
    }
    if StartsWithACharacter(s) {
      var c :| Scalar(c) && Encode(c) <= s;
      ScanOfEncode(c, s[|Encode(c)|..]);
      assert s == Encode(c) + s[|Encode(c)|..];
    }
  }

  /** What a turn of the loop reads at the beginning of the text. */
  lemma FirstCharacterOf(s: seq<Byte>) returns (c: int, n: nat)
    requires s != []
    ensures 0 < n <= |s| && Scalar(c)
    ensures Repair(s) == Encode(c) + Repair(s[n..])
    ensures StartsWithACharacter(s) ==> Encode(c) <= s && n == |Encode(c)|
    ensures !StartsWithACharacter(s) ==> StandsFor(c, s[0]) && n == 1
  {
    ScansIfItStartsWithACharacter(s);
    n := SequenceLengthAt(s, 0);
    if n > 0 {
      EncodeOfScan(s, 0);
      c := CodepointAt(s, 0);
      RepairKeepsCharacters(c, s[n..]);
      assert s == s[0..n] + s[n..];
    } else {
      c, n := Cp1252(s[0]), 1;
      TableInvertsTheEncoder(s[0], c);
      assert s == [s[0]] + s[1..];
      RepairTranscodesBadBytes(s[0], s[1..]);
    }
  }

  /** The repair writes that reading, which every text has... */
  lemma {:induction false} RepairWritesTheReading(s: seq<Byte>) returns (cs: seq<int>)
    ensures Scalars(cs) && Reading(s, cs) && Repair(s) == EncodeAll(cs)
    decreases |s|
  {
    if s == [] {
      return [];
    }
    var c, n := FirstCharacterOf(s);
    var rest := RepairWritesTheReading(s[n..]);
    cs := [c] + rest;
    assert cs[1..] == rest;
  }

  /** ...and which no text has twice. */
  lemma {:induction false} ReadingIsUnique(s: seq<Byte>, a: seq<int>, b: seq<int>)
    requires Reading(s, a) && Reading(s, b)
    ensures a == b
    decreases |a|
  {
    if a != [] {
      if StartsWithACharacter(s) {
        ScanOfEncode(a[0], s[|Encode(a[0])|..]);
        ScanOfEncode(b[0], s[|Encode(b[0])|..]);
        assert s == Encode(a[0]) + s[|Encode(a[0])|..] == Encode(b[0]) + s[|Encode(b[0])|..];
        ReadingIsUnique(s[|Encode(a[0])|..], a[1..], b[1..]);
      } else {
        TableInvertsTheEncoder(s[0], a[0]);
        TableInvertsTheEncoder(s[0], b[0]);
        ReadingIsUnique(s[1..], a[1..], b[1..]);
      }
      assert a == [a[0]] + a[1..] && b == [b[0]] + b[1..];
    }
  }

  /** Well-formed text passes through untouched, whatever follows it. */
  lemma {:induction false} RepairKeepsText(cs: seq<int>, b: seq<Byte>)
    requires Scalars(cs)
    ensures Repair(EncodeAll(cs) + b) == EncodeAll(cs) + Repair(b)
  {
    if cs == [] {
      assert EncodeAll(cs) + b == b;
    } else {
      var head, rest := Encode(cs[0]), EncodeAll(cs[1..]);
      RepairKeepsText(cs[1..], b);
      RepairKeepsCharacters(cs[0], rest + b);
      Associate(head, rest, b);
      Associate(head, rest, Repair(b));
    }
  }

  lemma TurnEmitsACharacter(s: seq<Byte>, i: nat)
    requires i < |s|
    ensures WellFormed(TurnAt(s, i).emits)
  {
    var c := Cp1252(s[i]);
    if SequenceLengthAt(s, i) > 0 {
      EncodeOfScan(s, i);
      c := CodepointAt(s, i);
    }
    assert EncodeAll([c]) == Encode(c) + EncodeAll([]);
  }

  lemma WellFormedConcat(a: seq<Byte>, b: seq<Byte>)
    requires WellFormed(a) && WellFormed(b)
    ensures WellFormed(a + b)
  {
    var cs :| Scalars(cs) && EncodeAll(cs) == a;
    var ds :| Scalars(ds) && EncodeAll(ds) == b;
    EncodeAllConcat(cs, ds);
  }

  lemma {:induction false} EncodeAllConcat(a: seq<int>, b: seq<int>)
    requires Scalars(a) && Scalars(b)
    ensures EncodeAll(a + b) == EncodeAll(a) + EncodeAll(b)
  {
    if a == [] {
      assert a + b == b;
    } else {
      EncodeAllConcat(a[1..], b);
      assert (a + b)[1..] == a[1..] + b;
      Associate(Encode(a[0]), EncodeAll(a[1..]), EncodeAll(b));
    }
  }

  lemma {:induction false} FollowIsWellFormed(p: seq<Turn>, i: nat)
    requires Sound(p) && i <= |p|
    requires forall k :: 0 <= k < |p| ==> WellFormed(p[k].emits)
    ensures WellFormed(Follow(p, i))
    decreases |p| - i
  {
    if i == |p| {
      assert EncodeAll([]) == [];
    } else {
      FollowIsWellFormed(p, i + p[i].moves);
      WellFormedConcat(p[i].emits, Follow(p, i + p[i].moves));
    }
  }

  lemma RepairIsWellFormed(s: seq<Byte>)
    ensures WellFormed(Repair(s))
  {
    forall k | 0 <= k < |s|
      ensures WellFormed(TurnAt(s, k).emits)
    {
      TurnEmitsACharacter(s, k);
    }
    FollowIsWellFormed(Plan(s), 0);
  }

  /** For valid a and any b, only b is repaired. */
  lemma RepairOfValidPrefix(a: seq<Byte>, b: seq<Byte>)
    requires WellFormed(a)
    ensures Repair(a + b) == a + Repair(b)
  {
    var cs :| Scalars(cs) && EncodeAll(cs) == a;
    RepairKeepsText(cs, b);
  }

  /** Repair always yields valid UTF-8, changes exactly the invalid text, has
      nothing left to change the second time, and fits the space reserved. */
  lemma RepairLaws(s: seq<Byte>)
    ensures WellFormed(Repair(s))
    ensures Repair(s) == s <==> WellFormed(s)
    ensures Repair(Repair(s)) == Repair(s)
    ensures |s| <= |Repair(s)| <= 3 * |s|
  {
    FollowLength(Plan(s), 0);
    RepairIsWellFormed(s);
    RepairOfValidPrefix(Repair(s), []);
    assert Repair(s) + [] == Repair(s);
    if WellFormed(s) {
      RepairOfValidPrefix(s, []);
      assert s + [] == s;
    }
  }

  lemma TurnStopsAtAscii(a: seq<Byte>, c: Byte, b: seq<Byte>, i: nat)
    requires i < |a| && c <= 0x7F
    ensures TurnAt(a + [c] + b, i) == TurnAt(a, i)
  {
    ScanStopsAtAscii(a, c, b, i);
    var n := SequenceLengthAt(a, i);
    assert (a + [c] + b)[i..i + n] == a[i..i + n];
  }

  lemma PlanStopsAtAscii(a: seq<Byte>, c: Byte, b: seq<Byte>)
    requires c <= 0x7F
    ensures Plan(a + [c] + b)[..|a|] == Plan(a)
  {
    forall k | 0 <= k < |a|
      ensures TurnAt(a + [c] + b, k) == TurnAt(a, k)
    {
      TurnStopsAtAscii(a, c, b, k);
    }
  }

  lemma PlanSplits(a: seq<Byte>, c: Byte, b: seq<Byte>)
    requires c <= 0x7F
    ensures Plan(a + [c] + b) == Plan(a) + Plan([c] + b)
  {
    var p := Plan(a + [c] + b);
    PlanStopsAtAscii(a, c, b);
    Associate(a, [c], b);
    PlanLooksForward(a, [c] + b);
    assert p == p[..|a|] + p[|a|..];
  }

  /** Damage never crosses an ASCII byte: the text on either side of it is
      repaired as if it stood alone. */
  lemma RepairSplitsAtAscii(a: seq<Byte>, c: Byte, b: seq<Byte>)
    requires c <= 0x7F
    ensures Repair(a + [c] + b) == Repair(a) + [c] + Repair(b)
  {
    PlanSplits(a, c, b);
    FollowConcat(Plan(a), Plan([c] + b), 0);
    RepairKeepsCharacters(c, b);
    Associate(Repair(a), [c], Repair(b));
  }

  lemma FollowTurn(p: seq<Turn>, i: nat, r: seq<Byte>)
    requires Sound(p) && i < |p|
    ensures r + Follow(p, i) == r + p[i].emits + Follow(p, i + p[i].moves)
  {
    Associate(r, p[i].emits, Follow(p, i + p[i].moves));
  }

  /** The body of the loop at s[i]. */
  method TakeTurn(s: seq<Byte>, i: nat, buffer: array<Byte>) returns (t: Turn)
    requires i < |s| && buffer.Length >= 4
    modifies buffer
    ensures t == TurnAt(s, i)
  {
    var n := SequenceLengthAt(s, i);
    if n > 0 {
      t := Turn(n, s[i..i + n]);
    } else {
      var len := EncodeUtf8Codepoint(Cp1252(s[i]), buffer);
      t := Turn(1, buffer[..len]);
    }
  }

  /** The repair path, whether or not the text needs it. */
  method RepairLoop(s: seq<Byte>) returns (r: seq<Byte>)
    ensures r == Repair(s)
  {
    r := [];
    var buffer := new Byte[4];
    var i: nat := 0;
    ghost var p := Plan(s);
    while i < |s|
      invariant 0 <= i <= |s|
      invariant Follow(p, 0) == r + Follow(p, i)
    {
      var t := TakeTurn(s, i, buffer);
      FollowTurn(p, i, r);
      r := r + t.emits;
      i := i + t.moves;
    }
  }

  /** The fast path returns what the repair path would have. */
  method ToUtf8(s: seq<Byte>) returns (r: seq<Byte>)
    ensures r == Repair(s)
    ensures exists cs :: Scalars(cs) && Reading(s, cs) && r == EncodeAll(cs)
    ensures WellFormed(r) && (r == s <==> WellFormed(s))
    ensures |s| <= |r| <= 3 * |s|
  {
    RepairLaws(s);
    ghost var cs := RepairWritesTheReading(s);
    var ok := IsValidUtf8(s);
    if ok {
      return s;
    }
    r := RepairLoop(s);
  }

  /** A string field that is sanitised in place. */
  class Text {
    var bytes: seq<Byte>

    method SanitizeToUtf8()
      modifies this
      ensures bytes == Repair(old(bytes)) && WellFormed(bytes)
    {
      RepairLaws(bytes);
      var ok := IsValidUtf8(bytes);
      if !ok {
        bytes := ToUtf8(bytes);
      }
    }
  }
}
