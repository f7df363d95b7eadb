/**
 * The 32-bit integer operators of the source, on the unsigned value of a word. A word kept
 * as a signed number has the same bits, and every right shift in the modelled code is the
 * unsigned one.
 */
module Bits {

  const WORD: nat := 0x1_0000_0000

  type Byte = b: nat | b < 256

  function Pow2(k: nat): (r: nat)
    ensures r > 0
  {
    if k == 0 then 1 else 2 * Pow2(k - 1)
  }

  /** Bitwise and, bit by bit from the lowest. */
  function And(a: nat, b: nat): nat {
    if a == 0 || b == 0 then 0
    else 2 * And(a / 2, b / 2) + if a % 2 == 1 && b % 2 == 1 then 1 else 0
  }

  /** Bitwise or, bit by bit from the lowest. */
  function Or(a: nat, b: nat): nat
    decreases a + b
  {
    if a == 0 then b
    else if b == 0 then a
    else 2 * Or(a / 2, b / 2) + if a % 2 == 1 || b % 2 == 1 then 1 else 0
  }

  function Shl(v: nat, k: nat): nat {
    v * Pow2(k) % WORD
  }

  function Shr(v: nat, k: nat): nat {
    Quotient(v, Pow2(k))
  }

  function Quotient(v: nat, p: nat): nat
    requires p > 0
  {
    v / p
  }

  lemma {:induction false} Pow2Adds(a: nat, b: nat)
    ensures Pow2(a + b) == Pow2(a) * Pow2(b)
  {
    if a > 0 {
      Pow2Adds(a - 1, b);
      assert Pow2(a + b) == 2 * Pow2(a - 1 + b);
      assert 2 * (Pow2(a - 1) * Pow2(b)) == 2 * Pow2(a - 1) * Pow2(b);
    }
  }

  lemma Pow2At32()
    ensures Pow2(32) == WORD && Pow2(8) == 256 && Pow2(5) == 32 && Pow2(16) == 65536
  {
    assert Pow2(8) == 256;
    Pow2Adds(8, 8);
    Pow2Adds(16, 16);
  }

  /** Dividing by 2p and by 2 first. */
  lemma HalfMod(a: nat, p: nat)
    requires p > 0
    ensures a % (2 * p) == 2 * (a / 2 % p) + a % 2
  {
    var q, r := a / 2 / p, a / 2 % p;
    assert a / 2 == p * q + r;
    assert a == (2 * p) * q + (2 * r + a % 2);
    ModUnique(a, 2 * p, q, 2 * r + a % 2);
  }

  lemma MultipleIsFar(m: int, k: int)
    requires m > 0 && k != 0
    ensures m * k >= m || m * k <= -m
  {
    if k > 0 {
      assert m * (k - 1) >= 0;
    } else {
      assert m * (-k - 1) >= 0;
    }
  }

  lemma ModUnique(a: int, m: int, q: int, r: int)
    requires 0 <= r < m && a == m * q + r
    ensures a % m == r && a / m == q
  {
    var k := a / m - q;
    assert m * k == r - a % m;
    if k != 0 {
      MultipleIsFar(m, k);
    }
  }

  lemma ModOfProduct(x: int, p: int, m: int)
    requires p > 0 && m > 0
    ensures p * m > 0 && x % (p * m) % m == x % m
  {
    var w := x % (p * m);
    var k := x / (p * m);
    assert x == (p * m) * k + w;
    assert (p * m) * k == m * (p * k);
    assert w == m * (w / m) + w % m;
    assert m * (p * k) + m * (w / m) == m * (p * k + w / m);
    ModUnique(x, m, p * k + w / m, w % m);
  }

  lemma ScaledMod(v: int, p: int, q: int)
    requires p > 0 && q > 0
    ensures q * p > 0 && v * p % (q * p) == v % q * p
  {
    var d, r := v / q, v % q;
    assert v == q * d + r;
    assert (q * d + r) * p == (q * p) * d + r * p;
    assert r * p < q * p;
    ModUnique(v * p, q * p, d, r * p);
  }

  lemma DigitMod(v: int, p: int, q: int)
    requires p > 0 && q > 0
    ensures p * q > 0 && v % (p * q) == v / q % p * q + v % q
  {
    TwoDigits(v, p, q, v / q, v / q / p, v / q % p, v % q);
  }

  lemma TwoDigits(v: int, p: int, q: int, top: int, hi: int, d: int, lo: int)
    requires p > 0 && 0 <= d < p && 0 <= lo < q
    requires v == q * top + lo && top == p * hi + d
    ensures p * q > 0 && v % (p * q) == d * q + lo
  {
    DigitsFit(p, q, d, lo);
    Distribute(p, q, hi, d);
    ModUnique(v, p * q, hi, d * q + lo);
  }

  lemma DigitsFit(p: int, q: int, d: int, lo: int)
    requires 0 <= d < p && 0 <= lo < q
    ensures 0 <= d * q + lo < p * q
  {
    assert (d + 1) * q <= p * q;
  }

  lemma Distribute(p: int, q: int, hi: int, d: int)
    ensures q * (p * hi + d) == (p * q) * hi + d * q
  {
  }

  /** A low mask keeps the remainder. */
  lemma {:induction false} AndLowMask(a: nat, k: nat)
    ensures And(a, Pow2(k) - 1) == a % Pow2(k)
    decreases k
  {
    if k > 0 {
      AndLowMask(a / 2, k - 1);
      HalfMod(a, Pow2(k - 1));
      assert (Pow2(k) - 1) / 2 == Pow2(k - 1) - 1 && (Pow2(k) - 1) % 2 == 1;
      if a != 0 && k == 1 {
        assert And(a / 2, 0) == 0;
      }
    }
  }

  /** The mask of a w-bit word that keeps all but its low k bits. */
  function HighMask(w: nat, k: nat): (r: nat)
    requires k <= w
    ensures r == Pow2(w) - Pow2(k)
  {
    if k == 0 then Pow2(w) - 1 else 2 * HighMask(w - 1, k - 1)
  }

  /** It clears the remainder. */
  lemma {:induction false} AndHighMask(v: nat, w: nat, k: nat)
    requires v < Pow2(w) && k <= w
    ensures And(v, HighMask(w, k)) == v - v % Pow2(k)
    decreases k
  {
    if k == 0 {
      AndLowMask(v, w);
      ModUnique(v, Pow2(w), 0, v);
    } else {
      var m := HighMask(w - 1, k - 1);
      AndHighMask(v / 2, w - 1, k - 1);
      AndEven(v, m);
      HalfRemainder(v, Pow2(k - 1), And(v / 2, m));
      assert HighMask(w, k) == 2 * m && Pow2(k) == 2 * Pow2(k - 1);
    }
  }

  lemma HalfRemainder(v: nat, p: nat, half: nat)
    requires p > 0 && half == v / 2 - v / 2 % p
    ensures 2 * half == v - v % (2 * p)
  {
    HalfMod(v, p);
  }

  lemma AndEven(v: nat, m: nat)
    ensures And(v, 2 * m) == 2 * And(v / 2, m)
  {
    assert 2 * m / 2 == m && 2 * m % 2 == 0;
  }

  /** Or of words that share no bit is their sum. */
  lemma {:induction false} OrDisjoint(a: nat, b: nat, k: nat)
    requires a % Pow2(k) == 0 && b < Pow2(k)
    ensures Or(a, b) == a + b
    decreases k
  {
    if k > 0 && a != 0 && b != 0 {
      HalfMod(a, Pow2(k - 1));
      OrDisjoint(a / 2, b / 2, k - 1);
    }
  }

  /** The low a + b bits are the a bits above the low b, and the low b. */
  lemma SplitLow(v: nat, a: nat, b: nat)
    ensures v % Pow2(a + b) == v / Pow2(b) % Pow2(a) * Pow2(b) + v % Pow2(b)
  {
    Pow2Adds(a, b);
    DigitMod(v, Pow2(a), Pow2(b));
  }

  /** Wrapping at 32 bits does not change the low n. */
  lemma WordMod(x: nat, n: nat)
    requires n <= 32
    ensures x % WORD % Pow2(n) == x % Pow2(n)
  {
    Pow2At32();
    Pow2Adds(32 - n, n);
    ModOfProduct(x, Pow2(32 - n), Pow2(n));
  }

  /** A shift left forgets only bits that leave the word. */
  lemma ShlLow(v: nat, k: nat, n: nat)
    requires k <= n <= 32
    ensures Shl(v, k) % Pow2(n) == v % Pow2(n - k) * Pow2(k)
    ensures Shl(v, k) % Pow2(k) == 0
  {
    WordMod(v * Pow2(k), n);
    WordMod(v * Pow2(k), k);
    Pow2Adds(n - k, k);
    ScaledMod(v, Pow2(k), Pow2(n - k));
    ModUnique(v * Pow2(k), Pow2(k), v, 0);
  }

  lemma LowSum(a: int, x: int, d: int, p: int, q: int)
    requires 0 <= x < q && 0 <= d < p && q * p > 0 && a % (q * p) == x * p
    ensures (a + d) % (q * p) == x * p + d
  {
    assert (x + 1) * p <= q * p;
    assert (x + 1) * p == x * p + p;
    ModUnique(a + d, q * p, a / (q * p), x * p + d);
  }

  /** `v << k | d` appends the k bits of d to the low bits of v, whatever has left the word. */
  lemma AppendLow(v: nat, d: nat, k: nat, bits: nat)
    requires d < Pow2(k) && bits + k <= 32
    ensures Or(Shl(v, k), d) % Pow2(bits + k) == v % Pow2(bits) * Pow2(k) + d
  {
    ShlLow(v, k, bits + k);
    OrDisjoint(Shl(v, k), d, k);
    Pow2Adds(bits, k);
    LowSum(Shl(v, k), v % Pow2(bits), d, Pow2(k), Pow2(bits));
  }

  /** `(v >>> bits) & (2^k - 1)` takes the k bits above the low `bits`. */
  lemma TakeHigh(v: nat, k: nat, bits: nat)
    ensures And(Shr(v, bits), Pow2(k) - 1) < Pow2(k)
    ensures v % Pow2(k + bits) == And(Shr(v, bits), Pow2(k) - 1) * Pow2(bits) + v % Pow2(bits)
  {
    AndLowMask(Shr(v, bits), k);
    SplitLow(v, k, bits);
  }

  /** `(v << pad) & (2^k - 1)` is the low k - pad bits of v, followed by zeros. */
  lemma PadLow(v: nat, k: nat, pad: nat)
    requires pad <= k <= 32
    ensures And(Shl(v, pad), Pow2(k) - 1) == v % Pow2(k - pad) * Pow2(pad)
    ensures And(Shl(v, pad), Pow2(k) - 1) < Pow2(k)
  {
    AndLowMask(Shl(v, pad), k);
    ShlLow(v, pad, k);
  }

  lemma AppendRegroups(m: int, p: int, v: int, base: int, d: int)
    ensures (m * p + v) * base + d == m * (p * base) + (v * base + d)
  {
  }

  lemma TakeRegroups(m: int, base: int, p: int, d: int, v: int)
    ensures m * (base * p) + (d * p + v) == (m * base + d) * p + v
  {
  }

  lemma JoinRegroups(m: int, p: int, v: int, d: int)
    ensures 2 * (m * p + v) + d == m * (2 * p) + (2 * v + d)
  {
  }

  /** The number m followed by the low `bits` bits of v. */
  function Join(m: nat, bits: nat, v: nat): nat {
    if bits == 0 then m else 2 * Join(m, bits - 1, v / 2) + v % 2
  }

  lemma {:induction false} JoinIs(m: nat, bits: nat, v: nat)
    ensures Join(m, bits, v) == m * Pow2(bits) + v % Pow2(bits)
  {
    if bits > 0 {
      JoinIs(m, bits - 1, v / 2);
      HalfMod(v, Pow2(bits - 1));
      JoinRegroups(m, Pow2(bits - 1), v / 2 % Pow2(bits - 1), v % 2);
    }
  }

  /** Appending k bits to the word appends them to the number. */
  lemma JoinAppend(m: nat, v: nat, d: nat, k: nat, bits: nat)
    requires d < Pow2(k) && bits + k <= 32
    ensures Join(m, bits + k, Or(Shl(v, k), d)) == Join(m, bits, v) * Pow2(k) + d
  {
    JoinIs(m, bits, v);
    JoinIs(m, bits + k, Or(Shl(v, k), d));
    AppendLow(v, d, k, bits);
    Pow2Adds(bits, k);
    AppendRegroups(m, Pow2(bits), v % Pow2(bits), Pow2(k), d);
  }

  /** The top k pending bits can move over to the number. */
  lemma JoinTake(m: nat, v: nat, k: nat, bits: nat)
    ensures And(Shr(v, bits), Pow2(k) - 1) < Pow2(k)
    ensures Join(m, k + bits, v) == Join(m * Pow2(k) + And(Shr(v, bits), Pow2(k) - 1), bits, v)
  {
    var d := And(Shr(v, bits), Pow2(k) - 1);
    JoinIs(m, k + bits, v);
    JoinIs(m * Pow2(k) + d, bits, v);
    TakeHigh(v, k, bits);
    Pow2Adds(k, bits);
    TakeRegroups(m, Pow2(k), Pow2(bits), d, v % Pow2(bits));
  }

  /** The leftover bits, shifted up to k, complete the number. */
  lemma JoinPad(m: nat, v: nat, k: nat, bits: nat)
    requires bits <= k <= 32
    ensures And(Shl(v, k - bits), Pow2(k) - 1) < Pow2(k)
    ensures Join(m, bits, v) * Pow2(k - bits) == m * Pow2(k) + And(Shl(v, k - bits), Pow2(k) - 1)
  {
    JoinIs(m, bits, v);
    PadLow(v, k, k - bits);
    Pow2Adds(bits, k - bits);
    AppendRegroups(m, Pow2(bits), v % Pow2(bits), Pow2(k - bits), 0);
  }

  /** Cutting the leftover bits off gives the number back. */
  lemma JoinCut(m: nat, v: nat, bits: nat)
    ensures Join(m, bits, v) / Pow2(bits) == m
  {
    JoinIs(m, bits, v);
    assert m * Pow2(bits) == Pow2(bits) * m;
    ModUnique(Join(m, bits, v), Pow2(bits), m, v % Pow2(bits));
  }

  lemma JoinZeros(m: nat, bits: nat)
    ensures Join(m, bits, 0) == m * Pow2(bits)
  {
    JoinIs(m, bits, 0);
  }

  lemma {:induction false} JoinLowOnly(m: nat, bits: nat, v: nat, w: nat)
    requires v % Pow2(bits) == w % Pow2(bits)
    ensures Join(m, bits, v) == Join(m, bits, w)
  {
    JoinIs(m, bits, v);
    JoinIs(m, bits, w);
  }

  /** What follows m in Join(m, bits, v) is the low bits of the whole. */
  lemma JoinOwnBits(m: nat, bits: nat, v: nat)
    ensures Join(m, bits, v) == Join(m, bits, Join(m, bits, v))
  {
    JoinIs(m, bits, v);
    assert m * Pow2(bits) == Pow2(bits) * m;
    ModUnique(Join(m, bits, v), Pow2(bits), m, v % Pow2(bits));
    JoinLowOnly(m, bits, v, Join(m, bits, v));
  }

  /** A number that is m followed by its own low bits is m followed by zeros if and only if those bits are zero. */
  lemma JoinOwnOrZero(m: nat, bits: nat, num: nat)
    requires num == Join(m, bits, num)
    ensures num == Join(m, bits, 0) <==> num % Pow2(bits) == 0
  {
    JoinIs(m, bits, num);
    JoinIs(m, bits, 0);
  }
}
