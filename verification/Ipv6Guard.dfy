/** The IPv6 verdict of src/lib/ssrfGuard.ts, and the public-address test over both families. */
module Ipv6Guard {
  import opened Wrappers
  import opened Bits
  import opened Ipv4Guard
  import opened Ipv6Text

  predicate AllZero(b: seq<Byte>, from: nat, to: nat)
    requires from <= to <= |b|
  {
    forall i :: from <= i < to ==> b[i] == 0
  }

  /** ::ffff:a.b.c.d */
  predicate Mapped(b: seq<Byte>)
    requires |b| == 16
  {
    AllZero(b, 0, 10) && b[10] == 0xff && b[11] == 0xff
  }

  predicate BytesBlocked(b: seq<Byte>)
    requires |b| == 16
  {
    if Mapped(b) then IsBlockedV4(Dotted(b[12], b[13], b[14], b[15]))
    else if AllZero(b, 0, 12) then true
    else if And(b[0], 0xfe) == 0xfc then true
    else if b[0] == 0xfe && And(b[1], 0xc0) == 0x80 then true
    else if b[0] == 0xff then true
    else if b[0] == 0x01 && AllZero(b, 1, 8) then true
    else if b[0] == 0x00 && b[1] == 0x64 && b[2] == 0xff && b[3] == 0x9b then true
    else if b[0] == 0x20 && b[1] == 0x02 then true
    else if b[0] == 0x20 && b[1] == 0x01 && b[2] == 0x00 && b[3] == 0x00 then true
    else false
  }

  lemma ParsedHas16(ip: string)
    requires ParseV6(ip).Some?
    ensures |ParseV6(ip).value| == 16
  {
  }

  ghost predicate IsBlockedV6(ip: string) {
    match ParseV6(ip)
    case None => true
    case Some(b) => ParsedHas16(ip); BytesBlocked(b)
  }

  /** The address family is the runtime's own answer for the text, 0 when it is no address. */
  ghost predicate IsPublicAddress(ip: string, family: nat) {
    (family == 4 && !IsBlockedV4(ip)) || (family == 6 && !IsBlockedV6(ip))
  }

  // ----- the addresses as numbers

  /** The base-256 number of the bytes. */
  function Value(b: seq<Byte>): nat {
    if b == [] then 0 else Value(b[..|b| - 1]) * 256 + b[|b| - 1]
  }

  /** A CIDR block: the addresses whose first `width` bits spell `top`. */
  datatype Block = Block(top: nat, width: nat)

  /** The number of a group of two bytes. */
  function Pair(a: nat, b: nat): nat {
    a * 256 + b
  }

  predicate Contains(v: nat, k: Block)
    requires k.width <= 128
  {
    k.top * Pow2(128 - k.width) <= v < (k.top + 1) * Pow2(128 - k.width)
  }

  const MAPPED := Block(0xffff, 96)

  /** The refused blocks, as the prefixes the byte tests spell. */
  const BLOCKED_V6: seq<Block> := [
    Block(0, 96),
    Block(0x7e, 7),
    Block(0x3fa, 10),
    Block(0xff, 8),
    Block(0x0100_0000_0000_0000, 64),
    Block(0x0064_ff9b, 32),
    Block(0x2002, 16),
    Block(0x2001_0000, 32)]

  predicate InTable(v: nat) {
    exists k <- BLOCKED_V6 :: k.width <= 128 && Contains(v, k)
  }

  lemma ContainsIff(v: nat, k: Block)
    requires k.width <= 128
    ensures Contains(v, k) <==> Quotient(v, Pow2(128 - k.width)) == k.top
  {
    RangeIff(v, Pow2(128 - k.width), k.top);
  }

  lemma RangeIff(v: int, p: int, t: int)
    requires p > 0
    ensures t * p <= v < (t + 1) * p <==> v / p == t
  {
    assert (t + 1) * p == t * p + p && t * p == p * t;
    if t * p <= v < (t + 1) * p {
      ModUnique(v, p, t, v - t * p);
    }
  }

  lemma QuotientTwice(v: nat, p: nat, q: nat)
    requires p > 0 && q > 0
    ensures p * q > 0 && Quotient(v, p * q) == Quotient(Quotient(v, p), q)
  {
    var a, r := v / p, v % p;
    var c, d := a / q, a % q;
    DigitsFit(q, p, d, r);
    Distribute(q, p, c, d);
    assert q * p == p * q;
    ModUnique(v, p * q, c, d * p + r);
  }

  /** The first k bytes are the number without its low 8(n - k) bits. */
  lemma {:induction false} TopBytes(b: seq<Byte>, k: nat)
    requires k <= |b|
    ensures Quotient(Value(b), Pow2(8 * (|b| - k))) == Value(b[..k])
    decreases |b|
  {
    if k == |b| {
      assert b[..k] == b;
    } else {
      var a := b[..|b| - 1];
      TopBytes(a, k);
      assert a[..k] == b[..k];
      var n := 8 * (|a| - k);
      Pow2At32();
      Pow2Adds(8, n);
      assert 8 * (|b| - k) == 8 + n;
      QuotientTwice(Value(b), Pow2(8), Pow2(n));
      LastByte(Value(a), b[|b| - 1]);
    }
  }

  lemma LastByte(v: nat, d: Byte)
    ensures Quotient(v * 256 + d, 256) == v
  {
  }

  lemma {:induction false} ValueDecides(a: seq<Byte>, b: seq<Byte>)
    requires |a| == |b|
    ensures Value(a) == Value(b) <==> a == b
  {
    if a != [] {
      ValueDecides(a[..|a| - 1], b[..|b| - 1]);
      assert a == a[..|a| - 1] + [a[|a| - 1]];
      assert b == b[..|b| - 1] + [b[|b| - 1]];
    }
  }

  /** A block of whole bytes holds exactly the addresses that start with them. */
  lemma WholeBytes(b: seq<Byte>, p: seq<Byte>)
    requires |b| == 16 && |p| <= 16
    ensures Contains(Value(b), Block(Value(p), 8 * |p|)) <==> b[..|p|] == p
  {
    TopBytes(b, |p|);
    ContainsIff(Value(b), Block(Value(p), 8 * |p|));
    ValueDecides(b[..|p|], p);
  }

  /** A block that ends inside a byte. */
  lemma SplitByte(b: seq<Byte>, k: nat, bits: nat, t: nat)
    requires |b| == 16 && 0 < k <= 16 && bits < 8
    ensures Contains(Value(b), Block(t, 8 * k - bits)) <==> Quotient(Value(b[..k]), Pow2(bits)) == t
  {
    TopBytes(b, k);
    ContainsIff(Value(b), Block(t, 8 * k - bits));
    var low := 8 * (16 - k);
    Pow2Adds(low, bits);
    assert 128 - (8 * k - bits) == low + bits;
    QuotientTwice(Value(b), Pow2(low), Pow2(bits));
  }

  // ----- the byte tests

  lemma FirstBytes(b: seq<Byte>)
    requires |b| == 16
    ensures Value(b[..1]) == b[0]
    ensures Value(b[..2]) == Pair(b[0], b[1])
  {
    assert b[..1][..0] == [] && b[..2][..1] == b[..1];
    assert Value(b[..1]) == Value(b[..1][..0]) * 256 + b[0];
    assert Value(b[..2]) == Value(b[..2][..1]) * 256 + b[1];
  }

  lemma UniqueLocal(b: seq<Byte>)
    requires |b| == 16
    ensures And(b[0], 0xfe) == 0xfc <==> Contains(Value(b), Block(0x7e, 7))
  {
    Pow2At32();
    assert HighMask(8, 1) == 0xfe;
    PrefixIsBlock(b[0], 8, 1, 0xfc);
    SplitByte(b, 1, 1, 0x7e);
    FirstBytes(b);
  }

  lemma LinkLocal(b: seq<Byte>)
    requires |b| == 16
    ensures b[0] == 0xfe && And(b[1], 0xc0) == 0x80 <==> Contains(Value(b), Block(0x3fa, 10))
  {
    Pow2At32();
    assert Pow2(6) == 64;
    assert HighMask(8, 6) == 0xc0;
    PrefixIsBlock(b[1], 8, 6, 0x80);
    SplitByte(b, 2, 6, 0x3fa);
    FirstBytes(b);
  }

  lemma {:induction false} ValueZeros(n: nat)
    ensures Value(Zeros(n)) == 0
  {
    if n > 0 {
      ValueZeros(n - 1);
      assert Zeros(n)[..n - 1] == Zeros(n - 1);
    }
  }

  lemma Push(p: seq<Byte>, d: Byte)
    ensures Value(p + [d]) == Value(p) * 256 + d
  {
    assert (p + [d])[..|p|] == p;
  }

  lemma Four(a: Byte, b: Byte, c: Byte, d: Byte)
    ensures Value([a]) == a
    ensures Value([a, b]) == a * 256 + b
    ensures Value([a, b, c, d]) == Quad(a, b, c, d)
  {
    Push([], a);
    Push([a], b);
    Push([a, b], c);
    Push([a, b, c], d);
    assert [] + [a] == [a] && [a] + [b] == [a, b] && [a, b] + [c] == [a, b, c];
    assert [a, b, c] + [d] == [a, b, c, d];
  }

  lemma Compatible(b: seq<Byte>)
    requires |b| == 16
    ensures AllZero(b, 0, 12) <==> Contains(Value(b), Block(0, 96))
  {
    ValueZeros(12);
    WholeBytes(b, Zeros(12));
    assert AllZero(b, 0, 12) <==> b[..12] == Zeros(12);
  }

  lemma Multicast(b: seq<Byte>)
    requires |b| == 16
    ensures b[0] == 0xff <==> Contains(Value(b), Block(0xff, 8))
  {
    Four(0xff, 0, 0, 0);
    WholeBytes(b, [0xff]);
    assert b[..1] == [b[0]];
  }

  lemma {:induction false} PushZeros(p: seq<Byte>, n: nat)
    ensures Value(p + Zeros(n)) == Value(p) * Pow2(8 * n)
  {
    if n == 0 {
      assert p + Zeros(0) == p;
    } else {
      PushZeros(p, n - 1);
      assert p + Zeros(n) == p + Zeros(n - 1) + [0];
      Push(p + Zeros(n - 1), 0);
      Pow2At32();
      Pow2Adds(8 * (n - 1), 8);
      Times(Value(p), Pow2(8 * (n - 1)), 256);
    }
  }

  lemma Times(a: int, b: int, c: int)
    ensures a * b * c == a * (b * c)
  {
  }

  lemma DiscardOnly(b: seq<Byte>)
    requires |b| == 16
    ensures b[0] == 0x01 && AllZero(b, 1, 8) <==> Contains(Value(b), Block(0x0100_0000_0000_0000, 64))
  {
    var p := [0x01] + Zeros(7);
    Four(1, 0, 0, 0);
    PushZeros([0x01], 7);
    PowersUsed();
    Pow2Adds(28, 28);
    WholeBytes(b, p);
    if b[0] == 0x01 && AllZero(b, 1, 8) {
      assert b[..8] == p;
    }
    if b[..8] == p {
      forall i | 1 <= i < 8 ensures b[i] == 0 {
        assert b[..8][i] == p[i];
      }
      assert b[..8][0] == p[0];
    }
  }

  lemma FourBytes(b: seq<Byte>, a0: Byte, a1: Byte, a2: Byte, a3: Byte)
    requires |b| == 16
    ensures b[0] == a0 && b[1] == a1 && b[2] == a2 && b[3] == a3 <==>
            Contains(Value(b), Block(Quad(a0, a1, a2, a3), 32))
  {
    Four(a0, a1, a2, a3);
    WholeBytes(b, [a0, a1, a2, a3]);
    assert b[..4] == [b[0], b[1], b[2], b[3]];
  }

  lemma SixToFour(b: seq<Byte>)
    requires |b| == 16
    ensures b[0] == 0x20 && b[1] == 0x02 <==> Contains(Value(b), Block(0x2002, 16))
  {
    Four(0x20, 0x02, 0, 0);
    WholeBytes(b, [0x20, 0x02]);
    assert b[..2] == [b[0], b[1]];
  }

  lemma MappedIff(b: seq<Byte>)
    requires |b| == 16
    ensures Mapped(b) <==> Contains(Value(b), MAPPED)
  {
    var p := Zeros(10) + [0xff] + [0xff];
    ValueZeros(10);
    Push(Zeros(10), 0xff);
    Push(Zeros(10) + [0xff], 0xff);
    WholeBytes(b, p);
    if Mapped(b) {
      assert b[..12] == p;
    }
    if b[..12] == p {
      forall i | 0 <= i < 10 ensures b[i] == 0 {
        assert b[..12][i] == p[i];
      }
      assert b[..12][10] == p[10] && b[..12][11] == p[11];
    }
  }

  // ----- the verdict

  /** The byte tests and the CIDR table agree on every address that is not IPv4-mapped. */
  lemma TestsAreTable(b: seq<Byte>)
    requires |b| == 16 && !Mapped(b)
    ensures BytesBlocked(b) <==> InTable(Value(b))
  {
    var v := Value(b);
    Compatible(b);
    UniqueLocal(b);
    LinkLocal(b);
    Multicast(b);
    DiscardOnly(b);
    FourBytes(b, 0x00, 0x64, 0xff, 0x9b);
    SixToFour(b);
    FourBytes(b, 0x20, 0x01, 0x00, 0x00);
    TableCases(v);
  }

  lemma TableCases(v: nat)
    ensures InTable(v) <==>
            || Contains(v, Block(0, 96))
            || Contains(v, Block(0x7e, 7))
            || Contains(v, Block(0x3fa, 10))
            || Contains(v, Block(0xff, 8))
            || Contains(v, Block(0x0100_0000_0000_0000, 64))
            || Contains(v, Block(Quad(0x00, 0x64, 0xff, 0x9b), 32))
            || Contains(v, Block(0x2002, 16))
            || Contains(v, Block(Quad(0x20, 0x01, 0x00, 0x00), 32))
  {
    if InTable(v) {
      var k :| k in BLOCKED_V6 && k.width <= 128 && Contains(v, k);
      TableMembers(k);
    }
    TableMembers(Block(0, 96));
    TableMembers(Block(0x7e, 7));
    TableMembers(Block(0x3fa, 10));
    TableMembers(Block(0xff, 8));
    TableMembers(Block(0x0100_0000_0000_0000, 64));
    TableMembers(Block(Quad(0x00, 0x64, 0xff, 0x9b), 32));
    TableMembers(Block(0x2002, 16));
    TableMembers(Block(Quad(0x20, 0x01, 0x00, 0x00), 32));
  }

  lemma TableMembers(k: Block)
    ensures k in BLOCKED_V6 <==>
            || k == Block(0, 96)
            || k == Block(0x7e, 7)
            || k == Block(0x3fa, 10)
            || k == Block(0xff, 8)
            || k == Block(0x0100_0000_0000_0000, 64)
            || k == Block(Quad(0x00, 0x64, 0xff, 0x9b), 32)
            || k == Block(0x2002, 16)
            || k == Block(Quad(0x20, 0x01, 0x00, 0x00), 32)
  {
  }

  /** An IPv4-mapped address gets the verdict of its last four bytes, through the decimal print and reparse. */
  lemma MappedGetsV4Verdict(b: seq<Byte>)
    requires |b| == 16 && Mapped(b)
    ensures BytesBlocked(b) <==> ValueBlocked(Quad(b[12], b[13], b[14], b[15]))
    ensures Value(b) == 0xffff * WORD + Quad(b[12], b[13], b[14], b[15])
  {
    DottedReads(b[12], b[13], b[14], b[15]);
    MappedNumber(b);
  }

  lemma MappedNumber(b: seq<Byte>)
    requires |b| == 16 && Mapped(b)
    ensures Value(b) == 0xffff * WORD + Quad(b[12], b[13], b[14], b[15])
  {
    MappedIff(b);
    TopBytes(b, 12);
    Pow2At32();
    ContainsIff(Value(b), MAPPED);
    assert b[..12] + [b[12], b[13], b[14], b[15]] == b;
    PushFour(b[..12], b[12], b[13], b[14], b[15]);
  }

  lemma PushFour(p: seq<Byte>, a: Byte, b: Byte, c: Byte, d: Byte)
    ensures Value(p + [a, b, c, d]) == Value(p) * WORD + Quad(a, b, c, d)
  {
    Push(p, a);
    Push(p + [a], b);
    Push(p + [a] + [b], c);
    Push(p + [a] + [b] + [c], d);
    assert p + [a, b, c, d] == p + [a] + [b] + [c] + [d];
  }

  /** Outside every refused block, under the IPv4 blocks when IPv4-mapped. */
  predicate Reachable(v: nat) {
    if Contains(v, MAPPED) then !InSomeRange(v % WORD) else !InTable(v)
  }

  lemma VerdictOnNumber(b: seq<Byte>)
    requires |b| == 16
    ensures !BytesBlocked(b) <==> Reachable(Value(b))
  {
    MappedIff(b);
    if Mapped(b) {
      var q := Quad(b[12], b[13], b[14], b[15]);
      MappedGetsV4Verdict(b);
      ValueBlockedIff(q);
      MappedReachable(Value(b), q);
    } else {
      TestsAreTable(b);
      PlainReachable(Value(b));
    }
  }

  lemma MappedReachable(v: nat, q: nat)
    requires Contains(v, MAPPED) && q < WORD && v == 0xffff * WORD + q
    ensures Reachable(v) <==> !InSomeRange(q)
  {
    LowWord(q);
    SameRanges(v % WORD, q);
  }

  lemma SameRanges(v: nat, q: nat)
    requires v == q
    ensures InSomeRange(v) <==> InSomeRange(q)
  {
  }

  lemma PlainReachable(v: nat)
    requires !Contains(v, MAPPED)
    ensures Reachable(v) <==> !InTable(v)
  {
  }

  /** A v6 address is let through exactly when it parses and its number lies outside every refused block. */
  lemma PublicV6Iff(ip: string)
    ensures !IsBlockedV6(ip) <==> ParseV6(ip).Some? && Reachable(Value(ParseV6(ip).value))
  {
    if ParseV6(ip).Some? {
      ParsedHas16(ip);
      VerdictOnNumber(ParseV6(ip).value);
    }
  }

  /** isPublicAddress, as membership of the parsed number in the listed blocks. */
  lemma PublicAddressIff(ip: string, family: nat)
    ensures IsPublicAddress(ip, family) <==>
            || (family == 4 && ParseV4(ip).Some? && !InSomeRange(ParseV4(ip).value))
            || (family == 6 && ParseV6(ip).Some? && Reachable(Value(ParseV6(ip).value)))
  {
    PublicV4Iff(ip);
    PublicV6Iff(ip);
  }

  lemma LowWord(v: nat)
    requires v < WORD
    ensures (0xffff * WORD + v) % WORD == v
  {
  }

  /** The four bytes of a dotted quad. */
  lemma QuadBytes(t: string, v: nat) returns (a: Byte, b: Byte, c: Byte, d: Byte)
    requires ParseV4(t) == Some(v)
    ensures v == Quad(a, b, c, d)
  {
    var parts := SplitOn(t, '.');
    a, b, c, d := Number(parts[0]), Number(parts[1]), Number(parts[2]), Number(parts[3]);
  }

  /** Writing any dotted IPv4 text the mapped way, or its two hex groups, changes nothing about its verdict. */
  lemma MappedTextGetsV4Verdict(t: string, v: nat)
    requires ParseV4(t) == Some(v)
    ensures IsBlockedV6("::ffff:" + t) <==> IsBlockedV4(t)
    ensures IsBlockedV6("::ffff:" + WordGroups(v)) <==> IsBlockedV4(t)
  {
    var a, b, c, d := QuadBytes(t, v);
    DottedWords(a, b, c, d);
    MappedWords(v, a, b, c, d);
    SameV4Verdict(t, Dotted(a, b, c, d));
    PrefixIsPlain();
    TailVerdict("::ffff:", t, v);
  }

  lemma PrefixIsPlain()
    ensures Free("::ffff:", '%')
  {
    var s := "::ffff:";
    forall i | 0 <= i < |s| ensures s[i] != '%' {
      assert s[i] == ':' || s[i] == 'f';
    }
  }

  /** The hex half. */
  lemma MappedWords(v: nat, a: Byte, b: Byte, c: Byte, d: Byte)
    requires v == Quad(a, b, c, d)
    ensures IsBlockedV6("::ffff:" + WordGroups(v)) <==> IsBlockedV4(Dotted(a, b, c, d))
  {
    DottedWords(a, b, c, d);
    MappedBytes(a, b, c, d);
    PrefixIsPlain();
    DottedTailIsTwoGroups("::ffff:", Dotted(a, b, c, d), v);
    V4VerdictOf("::ffff:" + WordGroups(v), a, b, c, d);
  }

  /** The dotted half: a dotted tail has the verdict of its two hex groups. */
  lemma TailVerdict(p: string, t: string, v: nat)
    requires Free(p, '%') && (p == "" || p[|p| - 1] == ':') && ParseV4(t) == Some(v)
    ensures IsBlockedV6(p + t) <==> IsBlockedV6(p + WordGroups(v))
  {
    DottedTailIsTwoGroups(p, t, v);
  }

  lemma SameV4Verdict(s: string, t: string)
    requires ParseV4(s) == ParseV4(t)
    ensures IsBlockedV4(s) <==> IsBlockedV4(t)
  {
  }

  lemma V4VerdictOf(ip: string, a: Byte, b: Byte, c: Byte, d: Byte)
    requires ParseV6(ip) == Some(Zeros(10) + [0xff, 0xff, a, b, c, d])
    ensures IsBlockedV6(ip) <==> IsBlockedV4(Dotted(a, b, c, d))
  {
    var bytes := Zeros(10) + [0xff, 0xff, a, b, c, d];
    assert Mapped(bytes);
  }

  lemma MappedBytes(a: Byte, b: Byte, c: Byte, d: Byte)
    ensures ParseV6("::ffff:" + Dotted(a, b, c, d)) == Some(Zeros(10) + [0xff, 0xff, a, b, c, d])
  {
    FfffGroup();
    MappedTail(["ffff"], a, b, c, d);
    assert "::" + Lead(["ffff"]) == "::ffff:";
  }

  lemma MappedTail(tails: seq<string>, a: Byte, b: Byte, c: Byte, d: Byte)
    requires AllGroups(tails) && |tails| == 1 && Bytes(tails) == [0xff, 0xff]
    ensures ParseV6("::" + Lead(tails) + Dotted(a, b, c, d)) == Some(Zeros(10) + [0xff, 0xff, a, b, c, d])
  {
    ParsesElidedDotted([], tails, a, b, c, d);
    assert Joined([]) + "::" == "::";
    MappedConcat(Zeros(10), a, b, c, d);
  }

  lemma MappedConcat(z: seq<Byte>, a: Byte, b: Byte, c: Byte, d: Byte)
    ensures [] + z + [0xff, 0xff] + [a, b, c, d] == z + [0xff, 0xff, a, b, c, d]
  {
  }

  lemma AppendHex(s: string, c: char)
    requires AllHex(s) && IsHex(c)
    ensures AllHex(s + [c]) && GroupValue(s + [c]) == GroupValue(s) * 16 + HexValue(c)
  {
    assert (s + [c])[..|s|] == s;
  }

  lemma FfffGroup()
    ensures AllGroups(["ffff"]) && Bytes(["ffff"]) == [0xff, 0xff]
  {
    AppendHex("", 'f');
    AppendHex("f", 'f');
    AppendHex("ff", 'f');
    AppendHex("fff", 'f');
    assert "" + "f" == "f" && "f" + "f" == "ff" && "ff" + "f" == "fff" && "fff" + "f" == "ffff";
    assert Bytes([]) == [];
    OneMore([], "ffff");
    assert [] + ["ffff"] == ["ffff"];
  }

  // ----- print and reparse

  /** The full hex text of an address: one group for two bytes. */
  function HexGroups(b: seq<Byte>): (r: seq<string>)
    ensures |r| == |b| / 2
  {
    if |b| < 2 then []
    else HexGroups(b[..|b| - 2]) + [Hex(Pair(b[|b| - 2], b[|b| - 1]))]
  }

  lemma {:induction false} HexGroupsSpell(b: seq<Byte>)
    requires |b| % 2 == 0
    ensures AllGroups(HexGroups(b)) && Bytes(HexGroups(b)) == b
  {
    if |b| >= 2 {
      var a, x, y := b[..|b| - 2], b[|b| - 2], b[|b| - 1];
      HexGroupsSpell(a);
      PairGroup(x, y);
      OneMore(HexGroups(a), Hex(Pair(x, y)));
      assert b == a + [x, y];
    }
  }

  /** Every address has a text, and the parser gives its bytes back. */
  lemma PrintedAddressReads(b: seq<Byte>)
    requires |b| == 16
    ensures ParseV6(Joined(HexGroups(b))) == Some(b)
  {
    HexGroupsSpell(b);
    ParsesFull(HexGroups(b));
  }
}
