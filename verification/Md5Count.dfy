/** The 64-bit count of message bits, kept in two 32-bit words by `update`. */
module Md5Count {
  const W32: int := 0x1_0000_0000
  const W64: int := 0x1_0000_0000_0000_0000

  /** The words of the 64-bit count of the bits of `n` bytes. */
  function LowWord(n: nat): (r: int)
    ensures 0 <= r < W32
  {
    (8 * n) % W32
  }

  function HighWord(n: nat): (r: int)
    ensures 0 <= r < W32
  {
    (8 * n) / W32 % W32
  }

  /** The two words after `update` of `len` bytes, as the source computes them: `len << 3` is a
      size_t, the low word is compared with all 64 bits of it, and `len >> 29` goes to the high
      word. */
  function CountLow(low: int, len: nat): int {
    (low + (8 * len) % W64) % W32
  }

  predicate CarryTest(low: int, len: nat) {
    CountLow(low, len) < (8 * len) % W64
  }

  function CountHigh(low: int, high: int, len: nat): int {
    (high + (if CarryTest(low, len) then 1 else 0) + len / 0x2000_0000) % W32
  }

  /** Whether the low words really overflow. */
  predicate Carries(low: int, len: nat) {
    low + (8 * len) % W32 >= W32
  }

  lemma CountOfNothing()
    ensures LowWord(0) == 0 && HighWord(0) == 0
  {
  }

  lemma WordsModulo(high: int, low: int)
    requires 0 <= low < W32 && 0 <= high
    ensures (W32 * high + low) % W64 == W32 * (high % W32) + low
  {
    var q, r := high / W32, high % W32;
    assert W32 * high + low == W64 * q + (W32 * r + low);
  }

  lemma DropMultiple(q: int, r: int)
    ensures (W32 * q + r) % W32 == r % W32
  {
  }

  /** The low word of the new count in terms of the low word of the length. */
  lemma CountLowShort(low: int, len: nat)
    ensures CountLow(low, len) == (low + (8 * len) % W32) % W32
  {
    var q, r := 8 * len / W64, (8 * len) % W64;
    assert 8 * len == W32 * (W32 * q) + r;
    DropMultiple(W32 * q, r);
    var s := r / W32;
    assert r == W32 * s + r % W32;
    DropMultiple(s, low + r % W32);
  }

  /** Exactly when an update leaves the count of bits right (modulo 2^64): when the comparison
      that stands for the carry agrees with it. */
  lemma CountRightIff(low: int, high: int, len: nat)
    requires 0 <= low < W32 && 0 <= high < W32
    ensures CountLow(low, len) + W32 * CountHigh(low, high, len) == (low + W32 * high + 8 * len) % W64
       <==> (CarryTest(low, len) <==> Carries(low, len))
  {
    var x, y := (8 * len) % W32, len / 0x2000_0000;
    assert 8 * len == W32 * y + x by { SplitLength(len); }
    CountLowShort(low, len);
    var carry := if Carries(low, len) then 1 else 0;
    var next := low + x - W32 * carry;
    assert CountLow(low, len) == next;
    var total := high + y + carry;
    WordsModulo(total, next);
    assert low + W32 * high + 8 * len == W32 * total + next;
    DifferByOne(high + y, if CarryTest(low, len) then 1 else 0, carry);
  }

  lemma DifferByOne(a: int, b: int, c: int)
    requires 0 <= b <= 1 && 0 <= c <= 1
    ensures (a + b) % W32 == (a + c) % W32 <==> b == c
  {
  }

  lemma SplitLength(len: nat)
    ensures 8 * len == W32 * (len / 0x2000_0000) + (8 * len) % W32
  {
    var q, r := len / 0x2000_0000, len % 0x2000_0000;
    assert 8 * len == W32 * q + 8 * r;
    DropMultiple(q, 8 * r);
  }

  /** The comparison always agrees below 2^29 bytes. */
  lemma CarryTestShort(low: int, len: nat)
    requires 0 <= low < W32 && len < 0x2000_0000
    ensures CarryTest(low, len) <==> Carries(low, len)
  {
    assert (8 * len) % W64 == 8 * len == (8 * len) % W32;
  }

  /** From 2^29 bytes on (and below the 2^61 that `len << 3` can hold) the comparison always claims
      a carry, so the count is right only if there is one. */
  lemma CarryTestLong(low: int, len: nat)
    requires 0 <= low < W32 && 0x2000_0000 <= len < 0x2000_0000_0000_0000
    ensures CarryTest(low, len)
  {
    assert (8 * len) % W64 == 8 * len;
  }

  lemma WordsOfCount(n: nat)
    ensures (8 * n) % W64 == LowWord(n) + W32 * HighWord(n)
  {
    WordsModulo((8 * n) / W32, (8 * n) % W32);
  }

  lemma ModuloSum(a: int, b: int)
    ensures (a % W64 + b) % W64 == (a + b) % W64
  {
    var q := a / W64;
    assert a == W64 * q + a % W64;
  }

  /** The low word is right for every length. */
  lemma LowWordRight(n: nat, len: nat)
    ensures CountLow(LowWord(n), len) == LowWord(n + len)
  {
    CountLowShort(LowWord(n), len);
    var p, q := (8 * n) / W32, (8 * len) / W32;
    assert 8 * (n + len) == W32 * (p + q) + ((8 * n) % W32 + (8 * len) % W32);
    DropMultiple(p + q, (8 * n) % W32 + (8 * len) % W32);
  }

  /** And so is the buffer index taken from it. */
  lemma IndexRight(n: nat)
    ensures (LowWord(n) / 8) % 64 == n % 64
  {
    var q := (8 * n) / W32;
    assert LowWord(n) == 8 * n - W32 * q;
    assert LowWord(n) / 8 == n - 0x2000_0000 * q;
  }

  lemma WordsEqual(l1: int, h1: int, l2: int, h2: int)
    requires 0 <= l1 < W32 && l1 == l2
    ensures l1 + W32 * h1 == l2 + W32 * h2 <==> h1 == h2
  {
  }

  /** Exactly when an update (below the 2^61 bytes that `len << 3` can hold) keeps the two words equal
      to the bit length of the message so far: always below 2^29 bytes, and from there on only when
      the low words do overflow. */
  lemma CountExactIff(n: nat, len: nat)
    requires len < 0x2000_0000_0000_0000
    ensures CountLow(LowWord(n), len) == LowWord(n + len)
    ensures CountHigh(LowWord(n), HighWord(n), len) == HighWord(n + len)
       <==> len < 0x2000_0000 || Carries(LowWord(n), len)
  {
    var low, high := LowWord(n), HighWord(n);
    if len < 0x2000_0000 {
      CarryTestShort(low, len);
    } else {
      CarryTestLong(low, len);
    }
    CountRightIff(low, high, len);
    WordsOfCount(n);
    WordsOfCount(n + len);
    ModuloSum(8 * n, 8 * len);
    LowWordRight(n, len);
    WordsEqual(CountLow(low, len), CountHigh(low, high, len), LowWord(n + len), HighWord(n + len));
  }

  /** So a first update of 2^29 bytes or more always loses it. */
  lemma LongFirstUpdateMiscounts(len: nat)
    requires 0x2000_0000 <= len < 0x2000_0000_0000_0000
    ensures CountHigh(0, 0, len) != HighWord(len)
  {
    CountOfNothing();
    CountExactIff(0, len);
  }

  // ----- The words byte by byte -------------------------------------------------------------------

  lemma SecondDigit(q: nat, r: nat)
    ensures (W32 * q + r) / 0x100 % 0x100 == r / 0x100 % 0x100
  {
    assert (W32 * q + r) / 0x100 == 0x100_0000 * q + r / 0x100;
    DropHigher(0x1_0000 * q, r / 0x100);
  }

  lemma ThirdDigit(q: nat, r: nat)
    ensures (W32 * q + r) / 0x1_0000 % 0x100 == r / 0x1_0000 % 0x100
  {
    assert (W32 * q + r) / 0x1_0000 == 0x1_0000 * q + r / 0x1_0000;
    DropHigher(0x100 * q, r / 0x1_0000);
  }

  lemma FourthDigit(q: nat, r: nat)
    ensures (W32 * q + r) / 0x100_0000 % 0x100 == r / 0x100_0000 % 0x100
  {
    assert (W32 * q + r) / 0x100_0000 == 0x100 * q + r / 0x100_0000;
    DropHigher(q, r / 0x100_0000);
  }

  lemma DropHigher(q: nat, r: nat)
    ensures (0x100 * q + r) % 0x100 == r % 0x100
  {
  }

  /** The bytes of the low word are the first four digits to base 256 of the bit count. */
  lemma LowWordDigits(n: nat)
    ensures LowWord(n) % 0x100 == 8 * n % 0x100
    ensures LowWord(n) / 0x100 % 0x100 == 8 * n / 0x100 % 0x100
    ensures LowWord(n) / 0x1_0000 % 0x100 == 8 * n / 0x1_0000 % 0x100
    ensures LowWord(n) / 0x100_0000 % 0x100 == 8 * n / 0x100_0000 % 0x100
  {
    var q, r := 8 * n / W32, 8 * n % W32;
    assert 8 * n == W32 * q + r;
    DropHigher(0x100_0000 * q, r);
    SecondDigit(q, r);
    ThirdDigit(q, r);
    FourthDigit(q, r);
  }

  /** And those of the high word are the next four. */
  lemma HighWordDigits(n: nat)
    ensures HighWord(n) % 0x100 == 8 * n / 0x1_0000_0000 % 0x100
    ensures HighWord(n) / 0x100 % 0x100 == 8 * n / 0x100_0000_0000 % 0x100
    ensures HighWord(n) / 0x1_0000 % 0x100 == 8 * n / 0x1_0000_0000_0000 % 0x100
    ensures HighWord(n) / 0x100_0000 % 0x100 == 8 * n / 0x100_0000_0000_0000 % 0x100
  {
    var y := 8 * n / W32;
    var q, r := y / W32, y % W32;
    assert y == W32 * q + r;
    DropHigher(0x100_0000 * q, r);
    SecondDigit(q, r);
    ThirdDigit(q, r);
    FourthDigit(q, r);
    QuotientTwice(8 * n);
  }

  lemma QuotientTwice(x: nat)
    ensures x / 0x100_0000_0000 == x / W32 / 0x100
    ensures x / 0x1_0000_0000_0000 == x / W32 / 0x1_0000
    ensures x / 0x100_0000_0000_0000 == x / W32 / 0x100_0000
  {
  }
}
