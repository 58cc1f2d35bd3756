/**
 The wide-integer cases of indexer/src/scval.js: 128- and 256-bit integers put together from the 64-bit
 hyper integers (section 4.5 of RFC 4506) that carry them, with BigInt shifts, bitwise or and wrapping.
 */
module Limbs {
  import opened Arithmetic

  // BigInt operations: integers as unbounded two's complement.

  function Pow2(n: nat): (r: int)
    ensures r > 0
  {
    if n == 0 then 1 else 2 * Pow2(n - 1)
  }

  function Magnitude(x: int): nat { if x >= 0 then x else -x - 1 }

  /** `a | b`, bit by bit; 0 and -1 are the endless runs of zeros and of ones. */
  function BitOr(a: int, b: int): int
    decreases Magnitude(a) + Magnitude(b)
  {
    if (a == 0 || a == -1) && (b == 0 || b == -1) then (if a == -1 || b == -1 then -1 else 0)
    else 2 * BitOr(a / 2, b / 2) + (if a % 2 == 1 || b % 2 == 1 then 1 else 0)
  }

  function ShiftLeft(a: int, n: nat): int { a * Pow2(n) }

  function AsUintN(n: nat, x: int): int { x % Pow2(n) }

  function AsIntN(n: nat, x: int): int
    requires n > 0
  {
    var m := x % Pow2(n);
    if m >= Pow2(n - 1) then m - Pow2(n) else m
  }

  /** Bit number `k` of an integer in two's complement. */
  function Bit(a: int, k: nat): bool
    decreases k
  {
    if k == 0 then a % 2 == 1 else Bit(a / 2, k - 1)
  }

  /** The recursive or is the or of each bit. */
  lemma {:induction false} BitOrIsBitwise(a: int, b: int, k: nat)
    ensures Bit(BitOr(a, b), k) <==> Bit(a, k) || Bit(b, k)
    decreases k
  {
    OrUnfolds(a, b);
    if k > 0 { BitOrIsBitwise(a / 2, b / 2, k - 1); }
  }

  /** The last bit of an or, and the or of the others. */
  lemma OrUnfolds(a: int, b: int)
    ensures BitOr(a, b) / 2 == BitOr(a / 2, b / 2)
    ensures BitOr(a, b) % 2 == 1 <==> a % 2 == 1 || b % 2 == 1
  {
    if (a == 0 || a == -1) && (b == 0 || b == -1) {
      assert a / 2 == a && b / 2 == b;
    } else {
      LastBit(BitOr(a / 2, b / 2), if a % 2 == 1 || b % 2 == 1 then 1 else 0);
    }
  }

  lemma LastBit(x: int, bit: int)
    requires 0 <= bit <= 1
    ensures (2 * x + bit) / 2 == x && (2 * x + bit) % 2 == bit
  {
  }

  lemma {:induction false} OrZero(a: int)
    ensures BitOr(a, 0) == a
    decreases Magnitude(a)
  {
    if a != 0 && a != -1 { OrZero(a / 2); }
  }

  lemma HalfOfShift(h: int, k: nat)
    requires k > 0
    ensures h * Pow2(k) == 2 * (h * Pow2(k - 1))
  {
  }

  /** Or-ing into bits that are still zero is addition, for a negative high part too. */
  lemma {:induction false} OrOfDisjoint(h: int, k: nat, low: int)
    requires 0 <= low < Pow2(k)
    ensures BitOr(h * Pow2(k), low) == h * Pow2(k) + low
  {
    if k == 0 {
      OrZero(h);
    } else {
      HalfOfShift(h, k);
      OrOfDisjoint(h, k - 1, low / 2);
      var a := h * Pow2(k);
      assert a % 2 == 0 && a / 2 == h * Pow2(k - 1);
    }
  }

  const W: int := 0x1_0000_0000_0000_0000
  const HALF: int := 0x8000_0000_0000_0000

  lemma Associates(a: int, b: int, c: int)
    ensures a * b * c == a * (b * c)
  {
  }

  lemma {:induction false} Pow2Adds(a: nat, b: nat)
    ensures Pow2(a + b) == Pow2(a) * Pow2(b)
  {
    if a > 0 {
      Pow2Adds(a - 1, b);
      Associates(2, Pow2(a - 1), Pow2(b));
    }
  }

  lemma Word()
    ensures Pow2(64) == W
  {
    assert Pow2(8) == 256;
    Pow2Adds(8, 8);
    Pow2Adds(16, 16);
    Pow2Adds(32, 32);
  }

  lemma PowersOfTheWord()
    ensures Pow2(64) == W && Pow2(128) == W * W && Pow2(192) == W * W * W && Pow2(256) == W * W * W * W
    ensures Pow2(127) == HALF * W && Pow2(255) == HALF * W * W * W
  {
    Word();
    Pow2Adds(64, 64);
    Pow2Adds(128, 64);
    Pow2Adds(192, 64);
    assert Pow2(128) == 2 * Pow2(127) && Pow2(256) == 2 * Pow2(255);
  }

  lemma AsUintNInRange(n: nat, x: int)
    requires 0 <= x < Pow2(n)
    ensures AsUintN(n, x) == x
  {
    ModIs(x, Pow2(n), 0, x);
  }

  lemma AsIntNInRange(n: nat, x: int)
    requires n > 0 && -Pow2(n - 1) <= x < Pow2(n - 1)
    ensures AsIntN(n, x) == x
  {
    WrapsBack(x, Pow2(n - 1), Pow2(n));
  }

  lemma WrapsBack(x: int, half: int, m: int)
    requires 0 < half && m == 2 * half && -half <= x < half
    ensures x % m == if x < 0 then x + m else x
  {
    if x < 0 { ModIs(x, m, -1, x + m); } else { ModIs(x, m, 0, x); }
  }

  lemma ModIs(v: int, d: int, q: int, r: int)
    requires d > 0 && v == q * d + r && 0 <= r < d
    ensures v % d == r
  {
    QuotientIs(v, d, q, r);
  }

  // The four cases of scValToJs.

  datatype Parts128 = Parts128(hi: int, lo: int)

  datatype Parts256 = Parts256(hiHi: int, hiLo: int, loHi: int, loLo: int)

  predicate IsUint64(x: int) { 0 <= x < W }

  predicate IsInt64(x: int) { -HALF <= x < HALF }

  function U128ToJs(p: Parts128): int
  {
    var hiB, loB := AsUintN(64, p.hi), AsUintN(64, p.lo);
    AsUintN(128, BitOr(ShiftLeft(hiB, 64), loB))
  }

  function I128ToJs(p: Parts128): int
  {
    var hiB, loB := p.hi, AsUintN(64, p.lo);
    AsIntN(128, BitOr(ShiftLeft(hiB, 64), loB))
  }

  function U256ToJs(p: Parts256): int
  {
    var hiHiB, hiLoB := AsUintN(64, p.hiHi), AsUintN(64, p.hiLo);
    var loHiB, loLoB := AsUintN(64, p.loHi), AsUintN(64, p.loLo);
    AsUintN(256, BitOr(BitOr(BitOr(ShiftLeft(hiHiB, 192), ShiftLeft(hiLoB, 128)), ShiftLeft(loHiB, 64)), loLoB))
  }

  function I256ToJs(p: Parts256): int
  {
    var hiHiB, hiLoB := p.hiHi, AsUintN(64, p.hiLo);
    var loHiB, loLoB := AsUintN(64, p.loHi), AsUintN(64, p.loLo);
    AsIntN(256, BitOr(BitOr(BitOr(ShiftLeft(hiHiB, 192), ShiftLeft(hiLoB, 128)), ShiftLeft(loHiB, 64)), loLoB))
  }

  // Two's-complement splitting, the inverse. Division rounds down, so the high part carries the sign.

  function Split128(v: int): Parts128 { Parts128(v / W, v % W) }

  function Split256(v: int): Parts256
  {
    Parts256(v / (W * W * W), v / (W * W) % W, v / W % W, v % W)
  }

  predicate Unsigned128(p: Parts128) { IsUint64(p.hi) && IsUint64(p.lo) }

  predicate Signed128(p: Parts128) { IsInt64(p.hi) && IsUint64(p.lo) }

  predicate LowParts(p: Parts256) { IsUint64(p.hiLo) && IsUint64(p.loHi) && IsUint64(p.loLo) }

  predicate Unsigned256(p: Parts256) { IsUint64(p.hiHi) && LowParts(p) }

  predicate Signed256(p: Parts256) { IsInt64(p.hiHi) && LowParts(p) }

  function Value128(p: Parts128): int { p.hi * W + p.lo }

  function Value256(p: Parts256): int { ((p.hiHi * W + p.hiLo) * W + p.loHi) * W + p.loLo }

  lemma Or128(hi: int, lo: int)
    requires IsUint64(lo)
    ensures BitOr(ShiftLeft(hi, 64), lo) == Value128(Parts128(hi, lo))
  {
    Word();
    OrOfDisjoint(hi, 64, lo);
  }

  lemma Or256(p: Parts256)
    requires LowParts(p)
    ensures BitOr(BitOr(BitOr(ShiftLeft(p.hiHi, 192), ShiftLeft(p.hiLo, 128)), ShiftLeft(p.loHi, 64)), p.loLo) ==
            Value256(p)
  {
    OrWords(p, 192, 128, 64);
  }

  lemma OrWords(p: Parts256, a: nat, b: nat, c: nat)
    requires LowParts(p) && a == b + 64 && b == c + 64 && c == 64
    ensures BitOr(BitOr(BitOr(ShiftLeft(p.hiHi, a), ShiftLeft(p.hiLo, b)), ShiftLeft(p.loHi, c)), p.loLo) ==
            Value256(p)
  {
    var top := p.hiHi * W + p.hiLo;
    OrWord(p.hiHi, p.hiLo, b);
    OrWord(top, p.loHi, c);
    OrLastWord(top * W + p.loHi, p.loLo, c);
  }

  lemma OrLastWord(high: int, word: int, c: nat)
    requires IsUint64(word) && c == 64
    ensures BitOr(ShiftLeft(high, c), word) == high * W + word
  {
    Word();
    OrOfDisjoint(high, c, word);
  }

  /** Or-ing one more word in, below what is already there. */
  lemma OrWord(high: int, word: int, at: nat)
    requires IsUint64(word)
    ensures BitOr(ShiftLeft(high, at + 64), ShiftLeft(word, at)) == ShiftLeft(high * W + word, at)
  {
    Word();
    Pow2Adds(64, at);
    var a := Pow2(at);
    Associates(high, W, a);
    assert 0 <= word * a < W * a by { ProductBelow(word, W, a); }
    OrOfDisjoint(high, at + 64, word * a);
    DistributeLeft(high * W, word, a);
  }

  lemma ProductBelow(x: int, y: int, a: int)
    requires 0 <= x < y && a > 0
    ensures 0 <= x * a < y * a
  {
  }

  lemma DistributeLeft(x: int, y: int, a: int)
    ensures (x + y) * a == x * a + y * a
  {
  }

  lemma Value256Bounds(p: Parts256, low: int, high: int)
    requires LowParts(p) && low <= p.hiHi < high
    ensures low * (W * W * W) <= Value256(p) < high * (W * W * W)
  {
  }

  lemma WordsAsUint()
    ensures forall x :: IsUint64(x) ==> AsUintN(64, x) == x
  {
    Word();
    forall x | IsUint64(x) ensures AsUintN(64, x) == x { AsUintNInRange(64, x); }
  }

  /** An unsigned 128-bit integer is exactly its two words, and comes out in range. */
  lemma U128IsValue(p: Parts128)
    requires Unsigned128(p)
    ensures U128ToJs(p) == Value128(p) && 0 <= U128ToJs(p) < Pow2(128)
  {
    WordsAsUint();
    Or128(p.hi, p.lo);
    assert 0 <= Value128(p) < Pow2(128) by { PowersOfTheWord(); }
    AsUintNInRange(128, Value128(p));
  }

  lemma I128IsValue(p: Parts128)
    requires Signed128(p)
    ensures I128ToJs(p) == Value128(p) && -Pow2(127) <= I128ToJs(p) < Pow2(127)
  {
    WordsAsUint();
    Or128(p.hi, p.lo);
    assert -Pow2(127) <= Value128(p) < Pow2(127) by { PowersOfTheWord(); }
    AsIntNInRange(128, Value128(p));
  }

  lemma U256IsValue(p: Parts256)
    requires Unsigned256(p)
    ensures U256ToJs(p) == Value256(p) && 0 <= U256ToJs(p) < Pow2(256)
  {
    WordsAsUint();
    Or256(p);
    assert 0 <= Value256(p) < Pow2(256) by { PowersOfTheWord(); Value256Bounds(p, 0, W); }
    AsUintNInRange(256, Value256(p));
  }

  lemma I256IsValue(p: Parts256)
    requires Signed256(p)
    ensures I256ToJs(p) == Value256(p) && -Pow2(255) <= I256ToJs(p) < Pow2(255)
  {
    WordsAsUint();
    Or256(p);
    assert -Pow2(255) <= Value256(p) < Pow2(255) by { PowersOfTheWord(); Value256Bounds(p, -HALF, HALF); }
    AsIntNInRange(256, Value256(p));
  }

  lemma SplitValue128(p: Parts128)
    requires IsUint64(p.lo)
    ensures Split128(Value128(p)) == p
  {
  }

  lemma SplitValue256(p: Parts256)
    requires LowParts(p)
    ensures Split256(Value256(p)) == p
  {
    var v := Value256(p);
    QuotientIs(v, W, (p.hiHi * W + p.hiLo) * W + p.loHi, p.loLo);
    DivTwice(v, W, W);
    QuotientIs((p.hiHi * W + p.hiLo) * W + p.loHi, W, p.hiHi * W + p.hiLo, p.loHi);
    QuotientIs(p.hiHi * W + p.hiLo, W, p.hiHi, p.hiLo);
    DivTwice(v, W * W, W);
  }

  lemma ValueSplit256(v: int)
    ensures Value256(Split256(v)) == v && LowParts(Split256(v))
  {
    DivTwice(v, W, W);
    DivTwice(v, W * W, W);
  }

  lemma DivTwice(v: int, a: int, b: int)
    requires a > 0 && b > 0
    ensures a * b > 0 && v / (a * b) == v / a / b
  {
    var q, r := v / a / b, v / a % b;
    assert v == (v / a) * a + v % a && v / a == q * b + r;
    Regroup(q, b, r, a);
    Within(r, b, v % a, a);
    QuotientIs(v, a * b, q, r * a + v % a);
  }

  lemma Regroup(q: int, b: int, r: int, a: int)
    ensures (q * b + r) * a == q * (a * b) + r * a
  {
  }

  lemma Within(r: int, b: int, s: int, a: int)
    requires 0 <= r < b && 0 <= s < a
    ensures a * b > 0 && 0 <= r * a + s < a * b
  {
    NonNegativeProduct(b - 1 - r, a);
    NonNegativeProduct(r, a);
    SplitProduct(a, b, r);
  }

  lemma SplitProduct(a: int, b: int, r: int)
    ensures a * b == r * a + (b - 1 - r) * a + a
  {
  }

  lemma QuotientIs(v: int, d: int, q: int, r: int)
    requires d > 0 && v == q * d + r && 0 <= r < d
    ensures v / d == q
  {
    var e := v / d - q;
    assert v == (v / d) * d + v % d;
    assert e * d == r - v % d by { assert e * d == (v / d) * d - q * d; }
    SmallMultiple(e, d);
  }

  lemma SmallMultiple(e: int, d: int)
    requires d > 0 && -d < e * d < d
    ensures e == 0
  {
    OneOff(e, d);
    OneOff(-e, d);
    assert (-e) * d == -(e * d);
  }

  lemma OneOff(e: int, d: int)
    requires d > 0
    ensures e >= 1 ==> e * d >= d
  {
    if e >= 1 { assert e * d == d + (e - 1) * d; }
  }

  /**
   Reading is the exact inverse of splitting, for all four types: every integer in range comes back from
   its words, and every tuple of words comes back from its integer, so distinct tuples are distinct integers.
   */
  lemma U128RoundTrip(v: int, p: Parts128)
    ensures 0 <= v < Pow2(128) ==> Unsigned128(Split128(v)) && U128ToJs(Split128(v)) == v
    ensures Unsigned128(p) ==> 0 <= U128ToJs(p) < Pow2(128) && Split128(U128ToJs(p)) == p
  {
    PowersOfTheWord();
    if 0 <= v < Pow2(128) { U128IsValue(Split128(v)); }
    if Unsigned128(p) { U128IsValue(p); SplitValue128(p); }
  }

  lemma I128RoundTrip(v: int, p: Parts128)
    ensures -Pow2(127) <= v < Pow2(127) ==> Signed128(Split128(v)) && I128ToJs(Split128(v)) == v
    ensures Signed128(p) ==> -Pow2(127) <= I128ToJs(p) < Pow2(127) && Split128(I128ToJs(p)) == p
  {
    PowersOfTheWord();
    if -Pow2(127) <= v < Pow2(127) { I128IsValue(Split128(v)); }
    if Signed128(p) { I128IsValue(p); SplitValue128(p); }
  }

  lemma U256RoundTrip(v: int, p: Parts256)
    ensures 0 <= v < Pow2(256) ==> Unsigned256(Split256(v)) && U256ToJs(Split256(v)) == v
    ensures Unsigned256(p) ==> 0 <= U256ToJs(p) < Pow2(256) && Split256(U256ToJs(p)) == p
  {
    PowersOfTheWord();
    ValueSplit256(v);
    if 0 <= v < Pow2(256) { U256IsValue(Split256(v)); }
    if Unsigned256(p) { U256IsValue(p); SplitValue256(p); }
  }

  lemma I256RoundTrip(v: int, p: Parts256)
    ensures -Pow2(255) <= v < Pow2(255) ==> Signed256(Split256(v)) && I256ToJs(Split256(v)) == v
    ensures Signed256(p) ==> -Pow2(255) <= I256ToJs(p) < Pow2(255) && Split256(I256ToJs(p)) == p
  {
    PowersOfTheWord();
    ValueSplit256(v);
    if -Pow2(255) <= v < Pow2(255) { I256IsValue(Split256(v)); }
    if Signed256(p) { I256IsValue(p); SplitValue256(p); }
  }

  /** Two different tuples of words never read as the same integer. */
  lemma DistinctWordsDistinctIntegers(p: Parts256, q: Parts256, a: Parts128, b: Parts128)
    ensures Signed256(p) && Signed256(q) && I256ToJs(p) == I256ToJs(q) ==> p == q
    ensures Unsigned256(p) && Unsigned256(q) && U256ToJs(p) == U256ToJs(q) ==> p == q
    ensures Signed128(a) && Signed128(b) && I128ToJs(a) == I128ToJs(b) ==> a == b
    ensures Unsigned128(a) && Unsigned128(b) && U128ToJs(a) == U128ToJs(b) ==> a == b
  {
    U128RoundTrip(0, a);
    U128RoundTrip(0, b);
    I128RoundTrip(0, a);
    I128RoundTrip(0, b);
    U256RoundTrip(0, p);
    U256RoundTrip(0, q);
    I256RoundTrip(0, p);
    I256RoundTrip(0, q);
  }
}
