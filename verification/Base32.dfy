/** base32Encode and base32Decode of src/lib/totp.ts: RFC 4648 section 6 without padding. */
module Base32 {
  import opened Wrappers
  import opened Bits
  import opened Base32Text

  const ALPHABET: string := "ABCDEFGHIJKLMNOPQRSTUVWXYZ234567"

  /** Position in the alphabet, or -1. */
  function IndexOf(c: char): (i: int)
    ensures -1 <= i < 32
    ensures i >= 0 ==> ALPHABET[i] == c
  {
    if 'A' <= c <= 'Z' then c as int - 'A' as int
    else if '2' <= c <= '7' then c as int - '2' as int + 26
    else -1
  }

  /** The letter of a digit. */
  method LetterAt(i: nat) returns (c: char)
    requires i < 32
    ensures IndexOf(c) == i
  {
    c := ALPHABET[i];
  }

  // ----- the numbers the digits spell

  /** The number a digit sequence spells, most significant digit first. */
  function Num(base: nat, digits: seq<nat>): nat {
    if digits == [] then 0 else Num(base, digits[..|digits| - 1]) * base + digits[|digits| - 1]
  }

  predicate Digits(base: nat, digits: seq<nat>) {
    forall i :: 0 <= i < |digits| ==> digits[i] < base
  }

  lemma NumAppend(base: nat, digits: seq<nat>, d: nat)
    ensures Num(base, digits + [d]) == Num(base, digits) * base + d
  {
    assert (digits + [d])[..|digits|] == digits;
  }

  /** Digit sequences of one length spell different numbers. */
  lemma {:induction false} NumInjective(base: nat, a: seq<nat>, b: seq<nat>)
    requires base > 0 && Digits(base, a) && Digits(base, b) && |a| == |b| && Num(base, a) == Num(base, b)
    ensures a == b
    decreases |a|
  {
    if a != [] {
      var n := |a| - 1;
      ModUnique(Num(base, a), base, Num(base, a[..n]), a[n]);
      ModUnique(Num(base, a), base, Num(base, b[..n]), b[n]);
      NumInjective(base, a[..n], b[..n]);
      assert a == a[..n] + [a[n]] && b == b[..n] + [b[n]];
    }
  }

  predicate InAlphabet(s: string) {
    forall i :: 0 <= i < |s| ==> IndexOf(s[i]) >= 0
  }

  function Indices(s: string): (r: seq<nat>)
    requires InAlphabet(s)
    ensures |r| == |s| && Digits(32, r)
  {
    seq(|s|, i requires 0 <= i < |s| => IndexOf(s[i]))
  }

  lemma IndicesInjective(a: string, b: string)
    requires InAlphabet(a) && InAlphabet(b) && Indices(a) == Indices(b)
    ensures a == b
  {
    forall i | 0 <= i < |a| ensures a[i] == b[i] {
      assert Indices(a)[i] == Indices(b)[i];
    }
  }

  // ----- what the two functions compute

  /** Bits the last character of an n-byte encoding is padded by. */
  function Pad(n: nat): nat {
    5 * ((8 * n + 4) / 5) - 8 * n
  }

  /** `s` is the bit string of `bytes`, zero-padded to a multiple of five, in base 32. */
  ghost predicate Encodes(bytes: seq<Byte>, s: string) {
    && InAlphabet(s)
    && |s| == (8 * |bytes| + 4) / 5
    && Num(32, Indices(s)) == Join(Num(256, bytes), Pad(|bytes|), 0)
  }

  /** `bytes` is the bit string of `clean` cut to a multiple of eight: what follows them is its own low bits. */
  ghost predicate Decodes(clean: string, bytes: seq<Byte>) {
    && InAlphabet(clean)
    && |bytes| == 5 * |clean| / 8
    && Num(32, Indices(clean)) == Join(Num(256, bytes), 5 * |clean| % 8, Num(32, Indices(clean)))
  }

  // ----- base32Encode

  ghost predicate EncodeState(bytes: seq<Byte>, out: string, value: nat, bits: nat) {
    && InAlphabet(out)
    && bits < 32
    && 8 * |bytes| == 5 * |out| + bits
    && Num(256, bytes) == Join(Num(32, Indices(out)), bits, value)
  }

  lemma Constants()
    ensures Pow2(5) == 32 && Pow2(8) == 256
  {
    Pow2At32();
  }

  lemma FiveBits(v: nat)
    ensures And(v, 31) < 32
  {
    Constants();
    AndLowMask(v, 5);
  }

  /** `value << 8 | byte` appends the byte to the pending bits. */
  lemma TakeByte(bytes: seq<Byte>, b: Byte, out: string, value: nat, bits: nat)
    requires EncodeState(bytes, out, value, bits) && bits < 5
    ensures EncodeState(bytes + [b], out, Or(Shl(value, 8), b), bits + 8)
  {
    Constants();
    JoinAppend(Num(32, Indices(out)), value, b, 8, bits);
    NumAppend(256, bytes, b);
  }

  lemma IndicesAppend(out: string, c: char)
    requires InAlphabet(out) && IndexOf(c) >= 0
    ensures InAlphabet(out + [c]) && Num(32, Indices(out + [c])) == Num(32, Indices(out)) * 32 + IndexOf(c)
  {
    assert Indices(out + [c]) == Indices(out) + [IndexOf(c)];
    NumAppend(32, Indices(out), IndexOf(c));
  }

  /** Five pending bits become the next character. */
  lemma EmitDigit(bytes: seq<Byte>, out: string, value: nat, bits: nat, c: char)
    requires EncodeState(bytes, out, value, bits) && bits >= 5
    requires IndexOf(c) == And(Shr(value, bits - 5), 31)
    ensures EncodeState(bytes, out + [c], value, bits - 5)
  {
    Constants();
    JoinTake(Num(32, Indices(out)), value, 5, bits - 5);
    IndicesAppend(out, c);
  }

  lemma PadOf(n: nat, m: nat, bits: nat)
    requires 8 * n == 5 * m + bits && 0 < bits < 5
    ensures Pad(n) == 5 - bits && m + 1 == (8 * n + 4) / 5
  {
  }

  /** The leftover bits, zero-padded, are the last character. */
  lemma EmitLast(bytes: seq<Byte>, out: string, value: nat, bits: nat, c: char)
    requires EncodeState(bytes, out, value, bits) && 0 < bits < 5
    requires IndexOf(c) == And(Shl(value, 5 - bits), 31)
    ensures Encodes(bytes, out + [c])
  {
    Constants();
    JoinPad(Num(32, Indices(out)), value, 5, bits);
    IndicesAppend(out, c);
    PadOf(|bytes|, |out|, bits);
    JoinZeros(Num(256, bytes), 5 - bits);
  }

  lemma EncodeDone(bytes: seq<Byte>, out: string, value: nat)
    requires EncodeState(bytes, out, value, 0)
    ensures Encodes(bytes, out)
  {
    assert Pad(|bytes|) == 0;
  }

  /** The inner loop: every whole group of five pending bits becomes a character. */
  method Drain(ghost bytes: seq<Byte>, done: string, value: nat, pending: nat) returns (out: string, bits: nat)
    requires EncodeState(bytes, done, value, pending)
    ensures EncodeState(bytes, out, value, bits) && bits < 5
  {
    out, bits := done, pending;
    while bits >= 5
      invariant EncodeState(bytes, out, value, bits)
    {
      FiveBits(Shr(value, bits - 5));
      var c := LetterAt(And(Shr(value, bits - 5), 31));
      EmitDigit(bytes, out, value, bits, c);
      out := out + [c];
      bits := bits - 5;
    }
  }

  /** One turn of the encoding loop. */
  method EncodeByte(ghost bytes: seq<Byte>, b: Byte, done: string, word: nat, pending: nat)
    returns (out: string, value: nat, bits: nat)
    requires EncodeState(bytes, done, word, pending) && pending < 5
    ensures EncodeState(bytes + [b], out, value, bits) && bits < 5
  {
    TakeByte(bytes, b, done, word, pending);
    value := Or(Shl(word, 8), b);
    out, bits := Drain(bytes + [b], done, value, pending + 8);
  }

  method Encode(buf: seq<Byte>) returns (out: string)
    ensures Encodes(buf, out)
  {
    ghost var seen: seq<Byte> := [];
    var bits: nat, value: nat := 0, 0;
    out := "";
    for i := 0 to |buf|
      invariant seen == buf[..i]
      invariant EncodeState(seen, out, value, bits) && bits < 5
    {
      out, value, bits := EncodeByte(seen, buf[i], out, value, bits);
      seen := seen + [buf[i]];
    }
    assert seen == buf;
    out := Finish(buf, out, value, bits);
  }

  /** The last, partial group. */
  method Finish(ghost bytes: seq<Byte>, done: string, value: nat, bits: nat) returns (out: string)
    requires EncodeState(bytes, done, value, bits) && bits < 5
    ensures Encodes(bytes, out)
  {
    out := done;
    if bits > 0 {
      FiveBits(Shl(value, 5 - bits));
      var c := LetterAt(And(Shl(value, 5 - bits), 31));
      EmitLast(bytes, out, value, bits, c);
      out := out + [c];
    } else {
      EncodeDone(bytes, out, value);
    }
  }

  // ----- base32Decode

  /** What decoding an input gives: None is the thrown 'invalid base32'. */
  ghost predicate DecodeGives(input: string, r: Option<seq<Byte>>) {
    if InAlphabet(Clean(input)) then r.Some? && Decodes(Clean(input), r.value) else r == None
  }

  ghost predicate DecodeState(chars: string, out: seq<Byte>, value: nat, bits: nat) {
    && InAlphabet(chars)
    && bits < 16
    && 5 * |chars| == 8 * |out| + bits
    && Num(32, Indices(chars)) == Join(Num(256, out), bits, value)
  }

  lemma TakeChar(chars: string, c: char, out: seq<Byte>, value: nat, bits: nat)
    requires DecodeState(chars, out, value, bits) && bits < 8 && IndexOf(c) >= 0
    ensures DecodeState(chars + [c], out, Or(Shl(value, 5), IndexOf(c)), bits + 5)
  {
    var d := IndexOf(c);
    Constants();
    JoinAppend(Num(256, out), value, d, 5, bits);
    IndicesAppend(chars, c);
  }

  lemma EmitByte(chars: string, out: seq<Byte>, value: nat, bits: nat)
    requires DecodeState(chars, out, value, bits) && bits >= 8
    ensures And(Shr(value, bits - 8), 255) < 256
    ensures DecodeState(chars, out + [And(Shr(value, bits - 8), 255)], value, bits - 8)
  {
    Constants();
    JoinTake(Num(256, out), value, 8, bits - 8);
    NumAppend(256, out, And(Shr(value, bits - 8), 255));
  }

  lemma DecodeDone(chars: string, out: seq<Byte>, value: nat, bits: nat)
    requires DecodeState(chars, out, value, bits) && bits < 8
    ensures Decodes(chars, out)
  {
    assert 5 * |chars| / 8 == |out| && 5 * |chars| % 8 == bits;
    JoinOwnBits(Num(256, out), bits, value);
  }

  /** One turn of the decoding loop: five bits in, and a byte out when eight are pending. */
  method DecodeChar(ghost chars: string, c: char, done: seq<Byte>, word: nat, pending: nat)
    returns (out: seq<Byte>, value: nat, bits: nat)
    requires DecodeState(chars, done, word, pending) && pending < 8 && IndexOf(c) >= 0
    ensures DecodeState(chars + [c], out, value, bits) && bits < 8
  {
    TakeChar(chars, c, done, word, pending);
    out, value, bits := done, Or(Shl(word, 5), IndexOf(c)), pending + 5;
    if bits >= 8 {
      EmitByte(chars + [c], out, value, bits);
      out := out + [And(Shr(value, bits - 8), 255)];
      bits := bits - 8;
    }
  }

  /** The decoding loop over the cleaned input. */
  method DecodeChars(clean: string) returns (r: Option<seq<Byte>>)
    ensures if InAlphabet(clean) then r.Some? && Decodes(clean, r.value) else r == None
  {
    ghost var seen := "";
    var bits: nat, value: nat := 0, 0;
    var out: seq<Byte> := [];
    for i := 0 to |clean|
      invariant seen == clean[..i]
      invariant DecodeState(seen, out, value, bits) && bits < 8
    {
      if IndexOf(clean[i]) == -1 {
        return None;
      }
      out, value, bits := DecodeChar(seen, clean[i], out, value, bits);
      seen := seen + [clean[i]];
    }
    assert seen == clean;
    DecodeDone(clean, out, value, bits);
    return Some(out);
  }

  method Decode(input: string) returns (r: Option<seq<Byte>>)
    ensures DecodeGives(input, r)
  {
    r := DecodeChars(Clean(input));
  }

  // ----- which characters count

  /** The letters stand for 0 to 25, the digits 2 to 7 for 26 to 31, and no other character counts. */
  lemma IndicesAre(c: char)
    ensures 65 <= c as int <= 90 ==> IndexOf(c) == c as int - 65
    ensures 50 <= c as int <= 55 ==> IndexOf(c) == c as int - 24
    ensures !(65 <= c as int <= 90) && !(50 <= c as int <= 55) ==> IndexOf(c) == -1
  {
  }

  // ----- round trips

  lemma CleanKeeps(s: string)
    requires InAlphabet(s)
    ensures Clean(s) == s
  {
    forall i | 0 <= i < |s| ensures IsCapitalOrDigit(s[i]) {
      assert IndexOf(s[i]) >= 0;
    }
    AlreadyClean(s);
  }

  /** Encoding determines the text, and decoding the bytes. */
  lemma EncodingIsUnique(bytes: seq<Byte>, s: string, s': string)
    requires Encodes(bytes, s) && Encodes(bytes, s')
    ensures s == s'
  {
    NumInjective(32, Indices(s), Indices(s'));
    IndicesInjective(s, s');
  }

  lemma DecodingIsUnique(clean: string, bytes: seq<Byte>, bytes': seq<Byte>)
    requires Decodes(clean, bytes) && Decodes(clean, bytes')
    ensures bytes == bytes'
  {
    JoinCut(Num(256, bytes), Num(32, Indices(clean)), 5 * |clean| % 8);
    JoinCut(Num(256, bytes'), Num(32, Indices(clean)), 5 * |clean| % 8);
    NumInjective(256, bytes, bytes');
  }

  /** Decoding an encoding gives back the bytes, for every byte sequence. */
  lemma DecodeInvertsEncode(bytes: seq<Byte>, s: string, r: Option<seq<Byte>>)
    requires Encodes(bytes, s) && DecodeGives(s, r)
    ensures r == Some(bytes)
  {
    CleanKeeps(s);
    var n, pad := |bytes|, Pad(|bytes|);
    assert 5 * |s| == 8 * n + pad && pad < 5;
    ModUnique(5 * |s|, 8, n, pad);
    JoinOwnBits(Num(256, bytes), pad, 0);
    DecodingIsUnique(s, bytes, r.value);
  }

  /** No stray bits: a length an encoding can have, and zeros below the last whole byte. */
  predicate Canonical(s: string) {
    && InAlphabet(s)
    && 5 * |s| % 8 < 5
    && (s == [] || IndexOf(s[|s| - 1]) % Pow2(5 * |s| % 8) == 0)
  }

  lemma LastDigitMod(x: int, d: int, p: int, q: int)
    requires p > 0 && q > 0
    ensures (x * (q * p) + d) % p == d % p
  {
    var e := d / p;
    assert d == p * e + d % p;
    assert x * (q * p) == p * (x * q);
    assert p * (x * q) + p * e == p * (x * q + e);
    ModUnique(x * (q * p) + d, p, x * q + e, d % p);
  }

  lemma LastDigitDecides(s: string, r: nat)
    requires InAlphabet(s) && s != [] && r < 5
    ensures Num(32, Indices(s)) % Pow2(r) == IndexOf(s[|s| - 1]) % Pow2(r)
  {
    var n := |s| - 1;
    Constants();
    Pow2Adds(5 - r, r);
    assert Indices(s)[n] == IndexOf(s[n]);
    LastDigitMod(Num(32, Indices(s)[..n]), IndexOf(s[n]), Pow2(r), Pow2(5 - r));
  }

  /** The other round trip holds for exactly the canonical unpadded texts, and for no other input. */
  lemma EncodeInvertsDecodeIff(s: string, r: Option<seq<Byte>>)
    requires DecodeGives(s, r)
    ensures r.Some? && Encodes(r.value, s) <==> Canonical(s)
  {
    if InAlphabet(s) {
      CleanKeeps(s);
      CanonicalIff(s, r.value);
    }
  }

  lemma CanonicalIff(s: string, bytes: seq<Byte>)
    requires Decodes(Clean(s), bytes) && InAlphabet(s)
    ensures Encodes(bytes, s) <==> Canonical(s)
  {
    CleanKeeps(s);
    var r := 5 * |s| % 8;
    assert 5 * |s| == 8 * |bytes| + r;
    if r < 5 {
      LengthsAgree(|s|, |bytes|, r);
      JoinOwnOrZero(Num(256, bytes), r, Num(32, Indices(s)));
      if s != [] {
        LastDigitDecides(s, r);
      }
    } else {
      LengthsDiffer(|s|, |bytes|, r);
    }
  }

  lemma LengthsAgree(m: nat, n: nat, r: nat)
    requires 5 * m == 8 * n + r && r < 5
    ensures (8 * n + 4) / 5 == m && Pad(n) == r
  {
  }

  lemma LengthsDiffer(m: nat, n: nat, r: nat)
    requires 5 * m == 8 * n + r && r >= 5
    ensures (8 * n + 4) / 5 != m
  {
  }
}
