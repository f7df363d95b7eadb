/** The IPv4 half of src/lib/ssrfGuard.ts: the dotted-quad parser and the mask table. */
module Ipv4Guard {
  import opened Wrappers
  import opened Bits

  // ----- splitting

  /** String.split on one character: always at least one piece. */
  function SplitOn(s: string, c: char): (r: seq<string>)
    ensures |r| > 0
  {
    if s == "" then [""]
    else
      var rest := SplitOn(s[1..], c);
      if s[0] == c then [""] + rest else [[s[0]] + rest[0]] + rest[1..]
  }

  predicate Free(s: string, c: char) {
    forall i :: 0 <= i < |s| ==> s[i] != c
  }

  lemma {:induction false} SplitNone(s: string, c: char)
    requires Free(s, c)
    ensures SplitOn(s, c) == [s]
  {
    if s != "" {
      SplitNone(s[1..], c);
      assert s == [s[0]] + s[1..];
    }
  }

  lemma {:induction false} SplitFirst(a: string, b: string, c: char)
    requires Free(a, c)
    ensures SplitOn(a + [c] + b, c) == [a] + SplitOn(b, c)
  {
    var s := a + [c] + b;
    if a == "" {
      assert s[0] == c && s[1..] == b;
    } else {
      SplitFirst(a[1..], b, c);
      assert s[0] == a[0] && s[1..] == a[1..] + [c] + b;
      assert a == [a[0]] + a[1..];
    }
  }

  /** The text up to the first separator is the first piece, and the rest splits into the others. */
  lemma {:induction false} SplitHead(s: string, c: char) returns (rest: string)
    ensures Free(SplitOn(s, c)[0], c)
    ensures |SplitOn(s, c)| == 1 ==> s == SplitOn(s, c)[0]
    ensures |SplitOn(s, c)| > 1 ==> s == SplitOn(s, c)[0] + [c] + rest && SplitOn(rest, c) == SplitOn(s, c)[1..]
  {
    rest := "";
    if s != "" {
      if s[0] == c {
        rest := s[1..];
        assert s == "" + [c] + rest;
      } else {
        rest := SplitHead(s[1..], c);
        Unshift(s, SplitOn(s[1..], c)[0], c, rest);
      }
    }
  }

  lemma Unshift(s: string, head: string, c: char, rest: string)
    requires s != ""
    ensures s[1..] == head ==> s == [s[0]] + head
    ensures s[1..] == head + [c] + rest ==> s == [s[0]] + head + [c] + rest
  {
    assert s == [s[0]] + s[1..];
    assert [s[0]] + (head + [c] + rest) == [s[0]] + head + [c] + rest;
  }

  // ----- ipv4ToInt

  predicate IsDigit(c: char) {
    '0' <= c <= '9'
  }

  /** One to three decimal digits. */
  predicate IsPart(s: string) {
    1 <= |s| <= 3 && forall i :: 0 <= i < |s| ==> IsDigit(s[i])
  }

  function DigitValue(c: char): nat
    requires IsDigit(c)
  {
    c as int - '0' as int
  }

  function Number(s: string): nat
    requires forall i :: 0 <= i < |s| ==> IsDigit(s[i])
  {
    if s == "" then 0 else Number(s[..|s| - 1]) * 10 + DigitValue(s[|s| - 1])
  }

  predicate IsOctet(s: string) {
    IsPart(s) && Number(s) <= 255
  }

  /** The base-256 number of four octets. */
  function Quad(a: nat, b: nat, c: nat, d: nat): nat {
    ((a * 256 + b) * 256 + c) * 256 + d
  }

  function ParseV4(ip: string): Option<nat> {
    var parts := SplitOn(ip, '.');
    if |parts| == 4 && IsOctet(parts[0]) && IsOctet(parts[1]) && IsOctet(parts[2]) && IsOctet(parts[3])
    then Some(Quad(Number(parts[0]), Number(parts[1]), Number(parts[2]), Number(parts[3])))
    else None
  }

  /** Four octets in decimal, with any leading zeros they have room for, between dots. */
  ghost predicate QuadForm(t: string, v: nat, a: string, b: string, c: string, d: string) {
    && IsOctet(a) && IsOctet(b) && IsOctet(c) && IsOctet(d)
    && t == a + "." + (b + "." + (c + "." + d)) && v == Quad(Number(a), Number(b), Number(c), Number(d))
  }

  lemma QuadFormReads(t: string, v: nat, a: string, b: string, c: string, d: string)
    requires QuadForm(t, v, a, b, c, d)
    ensures ParseV4(t) == Some(v)
  {
    PartFree(a);
    PartFree(b);
    PartFree(c);
    PartFree(d);
    SplitFirst(a, b + "." + (c + "." + d), '.');
    SplitFirst(b, c + "." + d, '.');
    SplitFirst(c, d, '.');
    SplitNone(d, '.');
    assert SplitOn(t, '.') == [a, b, c, d];
  }

  lemma PartFree(s: string)
    requires IsPart(s)
    ensures Free(s, '.') && Free(s, ':') && Free(s, '%')
  {
    forall i | 0 <= i < |s| ensures s[i] != '.' && s[i] != ':' && s[i] != '%' {
      assert IsDigit(s[i]);
    }
  }

  /** The parser accepts exactly the dotted quads, and gives their number. */
  lemma ReadsQuadsExactly(t: string, v: nat)
    ensures ParseV4(t) == Some(v) <==> exists a, b, c, d :: QuadForm(t, v, a, b, c, d)
  {
    if a, b, c, d :| QuadForm(t, v, a, b, c, d) {
      QuadFormReads(t, v, a, b, c, d);
    }
    if ParseV4(t) == Some(v) {
      var parts := SplitOn(t, '.');
      FourPieces(t, parts[0], parts[1], parts[2], parts[3]);
      assert QuadForm(t, v, parts[0], parts[1], parts[2], parts[3]);
    }
  }

  lemma NextPiece(s: string, x: string, xs: seq<string>) returns (rest: string)
    requires SplitOn(s, '.') == [x] + xs && xs != []
    ensures s == x + "." + rest && SplitOn(rest, '.') == xs
  {
    rest := SplitHead(s, '.');
    assert ([x] + xs)[1..] == xs;
  }

  lemma FourPieces(t: string, a: string, b: string, c: string, d: string)
    requires SplitOn(t, '.') == [a, b, c, d]
    ensures t == a + "." + (b + "." + (c + "." + d))
  {
    assert [a, b, c, d] == [a] + [b, c, d] && [b, c, d] == [b] + [c, d] && [c, d] == [c] + [d];
    var t1 := NextPiece(t, a, [b, c, d]);
    var t2 := NextPiece(t1, b, [c, d]);
    var t3 := NextPiece(t2, c, [d]);
    var _ := SplitHead(t3, '.');
  }

  method Ipv4ToInt(ip: string) returns (r: Option<nat>)
    ensures r == ParseV4(ip)
  {
    var parts := SplitOn(ip, '.');
    if |parts| != 4 {
      return None;
    }
    var value := 0;
    for i := 0 to 4
      invariant forall j :: 0 <= j < i ==> IsOctet(parts[j])
      invariant i == 1 ==> value == Number(parts[0])
      invariant i == 2 ==> value == Number(parts[0]) * 256 + Number(parts[1])
      invariant i == 3 ==> value == (Number(parts[0]) * 256 + Number(parts[1])) * 256 + Number(parts[2])
      invariant i == 4 ==> value == Quad(Number(parts[0]), Number(parts[1]), Number(parts[2]), Number(parts[3]))
      invariant i == 0 ==> value == 0
    {
      if !IsPart(parts[i]) {
        return None;
      }
      var n := Number(parts[i]);
      if n > 255 {
        return None;
      }
      value := value * 256 + n;
    }
    return Some(value);
  }

  // ----- decimal print and reparse

  function DigitChar(d: nat): char
    requires d < 10
  {
    (d + '0' as int) as char
  }

  /** The decimal print of a byte. */
  function Dec(n: Byte): string {
    if n < 10 then [DigitChar(n)]
    else if n < 100 then [DigitChar(n / 10), DigitChar(n % 10)]
    else [DigitChar(n / 100), DigitChar(n / 10 % 10), DigitChar(n % 10)]
  }

  predicate Digits(s: string) {
    forall i :: 0 <= i < |s| ==> IsDigit(s[i])
  }

  lemma NumberAppend(s: string, d: nat)
    requires Digits(s) && d < 10
    ensures Digits(s + [DigitChar(d)]) && Number(s + [DigitChar(d)]) == Number(s) * 10 + d
  {
    assert (s + [DigitChar(d)])[..|s|] == s;
  }

  lemma OneDigit(x: nat)
    requires x < 10
    ensures Digits([DigitChar(x)]) && Number([DigitChar(x)]) == x
  {
    NumberAppend("", x);
    assert "" + [DigitChar(x)] == [DigitChar(x)];
  }

  lemma TwoDigits(x: nat, y: nat)
    requires x < 10 && y < 10
    ensures Digits([DigitChar(x), DigitChar(y)]) && Number([DigitChar(x), DigitChar(y)]) == x * 10 + y
  {
    OneDigit(x);
    NumberAppend([DigitChar(x)], y);
    assert [DigitChar(x)] + [DigitChar(y)] == [DigitChar(x), DigitChar(y)];
  }

  lemma ThreeDigits(x: nat, y: nat, z: nat)
    requires x < 10 && y < 10 && z < 10
    ensures Digits([DigitChar(x), DigitChar(y), DigitChar(z)])
    ensures Number([DigitChar(x), DigitChar(y), DigitChar(z)]) == (x * 10 + y) * 10 + z
  {
    TwoDigits(x, y);
    NumberAppend([DigitChar(x), DigitChar(y)], z);
    assert [DigitChar(x), DigitChar(y)] + [DigitChar(z)] == [DigitChar(x), DigitChar(y), DigitChar(z)];
  }

  lemma DigitsFree(s: string)
    requires Digits(s)
    ensures Free(s, '.') && Free(s, ':') && Free(s, '%')
  {
    forall i | 0 <= i < |s| ensures s[i] != '.' && s[i] != ':' && s[i] != '%' {
      assert IsDigit(s[i]);
    }
  }

  lemma DecReads(n: Byte)
    ensures IsOctet(Dec(n)) && Number(Dec(n)) == n
    ensures Free(Dec(n), '.') && Free(Dec(n), ':') && Free(Dec(n), '%')
  {
    if n < 10 {
      OneDigit(n);
    } else if n < 100 {
      TwoDigits(n / 10, n % 10);
    } else {
      ThreeDigits(n / 100, n / 10 % 10, n % 10);
    }
    DigitsFree(Dec(n));
  }

  function Dotted(a: Byte, b: Byte, c: Byte, d: Byte): string {
    Dec(a) + "." + (Dec(b) + "." + (Dec(c) + "." + Dec(d)))
  }

  /** Printing four bytes and parsing the text gives back their number. */
  lemma DottedReads(a: Byte, b: Byte, c: Byte, d: Byte)
    ensures ParseV4(Dotted(a, b, c, d)) == Some(Quad(a, b, c, d))
  {
    DecReads(a);
    DecReads(b);
    DecReads(c);
    DecReads(d);
    QuadFormReads(Dotted(a, b, c, d), Quad(a, b, c, d), Dec(a), Dec(b), Dec(c), Dec(d));
  }

  // ----- the mask table

  /** A blocklist entry: base address, as four octets, and prefix length. */
  datatype Range = Range(a: Byte, b: Byte, c: Byte, d: Byte, bits: nat) {
    function Base(): nat {
      Quad(a, b, c, d)
    }

    function Text(): string {
      Dotted(a, b, c, d)
    }
  }

  const BLOCKED_V4: seq<Range> := [
    Range(0, 0, 0, 0, 8),
    Range(10, 0, 0, 0, 8),
    Range(100, 64, 0, 0, 10),
    Range(127, 0, 0, 0, 8),
    Range(169, 254, 0, 0, 16),
    Range(172, 16, 0, 0, 12),
    Range(192, 0, 0, 0, 24),
    Range(192, 0, 2, 0, 24),
    Range(192, 88, 99, 0, 24),
    Range(192, 168, 0, 0, 16),
    Range(198, 18, 0, 0, 15),
    Range(198, 51, 100, 0, 24),
    Range(203, 0, 113, 0, 24),
    Range(224, 0, 0, 0, 4),
    Range(240, 0, 0, 0, 4)]

  /** (0xffffffff << (32 - bits)) >>> 0, or 0 for a /0. */
  function Mask(bits: nat): nat
    requires bits <= 32
  {
    if bits == 0 then 0 else Shl(0xffff_ffff, 32 - bits)
  }

  lemma MaskIsHigh(bits: nat)
    requires bits <= 32
    ensures Mask(bits) == HighMask(32, 32 - bits)
  {
    var k := 32 - bits;
    Pow2At32();
    if bits > 0 {
      var p, q := Pow2(k), Pow2(bits);
      Pow2Adds(bits, k);
      ScaledMod(0xffff_ffff, p, q);
      assert q * p == WORD;
      LastOf(p, q);
    }
  }

  lemma LastOf(p: int, q: int)
    requires p > 0 && q > 0
    ensures q * p > 0 && (q * p - 1) % q * p == q * p - p
  {
    assert q * p - 1 == q * (p - 1) + (q - 1);
    ModUnique(q * p - 1, q, p - 1, q - 1);
  }

  predicate Matches(v: nat, r: Range)
    requires r.bits <= 32
  {
    And(v, Mask(r.bits)) == r.Base()
  }

  predicate InRange(v: nat, r: Range)
    requires r.bits <= 32
  {
    r.Base() <= v < r.Base() + Pow2(32 - r.bits)
  }

  /** A prefix test under any mask is membership in an aligned block. */
  lemma PrefixIsBlock(v: nat, w: nat, k: nat, base: nat)
    requires v < Pow2(w) && k <= w && base % Pow2(k) == 0
    ensures And(v, HighMask(w, k)) == base <==> base <= v < base + Pow2(k)
  {
    AndHighMask(v, w, k);
    BlockIff(v, Pow2(k), base);
  }

  lemma BlockIff(v: int, p: int, base: int)
    requires p > 0 && base % p == 0
    ensures v - v % p == base <==> base <= v < base + p
  {
    if base <= v < base + p {
      assert base == p * (base / p);
      ModUnique(v, p, base / p, v - base);
    }
  }

  lemma TableAligned(i: nat)
    requires i < |BLOCKED_V4|
    ensures 0 < BLOCKED_V4[i].bits <= 32
    ensures BLOCKED_V4[i].Base() % Pow2(32 - BLOCKED_V4[i].bits) == 0
  {
    PowersUsed();
  }

  lemma PowersUsed()
    ensures Pow2(8) == 0x100 && Pow2(16) == 0x1_0000 && Pow2(17) == 0x2_0000 && Pow2(20) == 0x10_0000
    ensures Pow2(22) == 0x40_0000 && Pow2(24) == 0x100_0000 && Pow2(28) == 0x1000_0000
  {
    Pow2At32();
    Pow2Adds(16, 1);
    Pow2Adds(16, 4);
    Pow2Adds(16, 6);
    Pow2Adds(16, 8);
    Pow2Adds(20, 8);
    assert Pow2(4) == 16 && Pow2(6) == 64;
  }

  /** For every 32-bit value and table entry the mask test is membership in [base, base + 2^(32 - bits)). */
  lemma MaskTestIsMembership(v: nat, i: nat)
    requires v < WORD && i < |BLOCKED_V4|
    ensures BLOCKED_V4[i].bits <= 32
    ensures Matches(v, BLOCKED_V4[i]) <==> InRange(v, BLOCKED_V4[i])
  {
    var r := BLOCKED_V4[i];
    TableAligned(i);
    Pow2At32();
    MaskIsHigh(r.bits);
    PrefixIsBlock(v, 32, 32 - r.bits, r.Base());
  }

  /** The text of an entry parses to its base. */
  lemma TableParses(r: Range)
    ensures ParseV4(r.Text()) == Some(r.Base())
  {
    DottedReads(r.a, r.b, r.c, r.d);
  }

  // ----- the verdict

  predicate ValueBlocked(v: nat) {
    exists i :: 0 <= i < |BLOCKED_V4| && BLOCKED_V4[i].bits <= 32 && Matches(v, BLOCKED_V4[i])
  }

  predicate IsBlockedV4(ip: string) {
    match ParseV4(ip)
    case None => true
    case Some(v) => ValueBlocked(v)
  }

  lemma ParsedIsWord(ip: string)
    requires ParseV4(ip).Some?
    ensures ParseV4(ip).value < WORD
  {
  }

  /** v lies in one of the listed address blocks. */
  predicate InSomeRange(v: nat) {
    exists i :: 0 <= i < |BLOCKED_V4| && BLOCKED_V4[i].bits <= 32 && InRange(v, BLOCKED_V4[i])
  }

  lemma ValueBlockedIff(v: nat)
    requires v < WORD
    ensures ValueBlocked(v) <==> InSomeRange(v)
  {
    forall i | 0 <= i < |BLOCKED_V4|
      ensures BLOCKED_V4[i].bits <= 32
      ensures Matches(v, BLOCKED_V4[i]) <==> InRange(v, BLOCKED_V4[i])
    {
      MaskTestIsMembership(v, i);
    }
  }

  /** An address is let through exactly when it parses and lies outside every listed block. */
  lemma PublicV4Iff(ip: string)
    ensures !IsBlockedV4(ip) <==> ParseV4(ip).Some? && !InSomeRange(ParseV4(ip).value)
  {
    if ParseV4(ip).Some? {
      ParsedIsWord(ip);
      ValueBlockedIff(ParseV4(ip).value);
    }
  }
}
