/** The block function of MD5 (section 3.4 of RFC 1321) and the encoding of its result. */
module Md5Block {
  import opened Bytes

  /** The four registers; the words are a parameter so that their order of use can be studied alone. */
  datatype Chain<W> = Chain(a: W, b: W, c: W, d: W)

  function F(x: bv32, y: bv32, z: bv32): bv32 { (x & y) | (!x & z) }

  function G(x: bv32, y: bv32, z: bv32): bv32 { (x & z) | (y & !z) }

  function H(x: bv32, y: bv32, z: bv32): bv32 { x ^ y ^ z }

  function I(x: bv32, y: bv32, z: bv32): bv32 { y ^ (x | !z) }

  function RotateLeft(x: bv32, n: nat): bv32
    requires 0 < n < 32
  {
    (x << n) | (x >> (32 - n))
  }

  function FF(a: bv32, b: bv32, c: bv32, d: bv32, x: bv32, s: nat, ac: bv32): bv32
    requires 0 < s < 32
  {
    RotateLeft(a + F(b, c, d) + x + ac, s) + b
  }

  function GG(a: bv32, b: bv32, c: bv32, d: bv32, x: bv32, s: nat, ac: bv32): bv32
    requires 0 < s < 32
  {
    RotateLeft(a + G(b, c, d) + x + ac, s) + b
  }

  function HH(a: bv32, b: bv32, c: bv32, d: bv32, x: bv32, s: nat, ac: bv32): bv32
    requires 0 < s < 32
  {
    RotateLeft(a + H(b, c, d) + x + ac, s) + b
  }

  function II(a: bv32, b: bv32, c: bv32, d: bv32, x: bv32, s: nat, ac: bv32): bv32
    requires 0 < s < 32
  {
    RotateLeft(a + I(b, c, d) + x + ac, s) + b
  }

  /** The k-th word of a block, low-order byte first. */
  function Word(block: seq<byte>, k: nat): bv32
    requires k < 16 && |block| == 64
  {
    (block[4 * k] as bv32) | ((block[4 * k + 1] as bv32) << 8)
    | ((block[4 * k + 2] as bv32) << 16) | ((block[4 * k + 3] as bv32) << 24)
  }

  /** The additive constants, shifts and word order of the four rounds of 16 calls. */
  const T1: seq<bv32> := [
    0xd76aa478, 0xe8c7b756, 0x242070db, 0xc1bdceee,
    0xf57c0faf, 0x4787c62a, 0xa8304613, 0xfd469501,
    0x698098d8, 0x8b44f7af, 0xffff5bb1, 0x895cd7be,
    0x6b901122, 0xfd987193, 0xa679438e, 0x49b40821]

  const T2: seq<bv32> := [
    0xf61e2562, 0xc040b340, 0x265e5a51, 0xe9b6c7aa,
    0xd62f105d, 0x02441453, 0xd8a1e681, 0xe7d3fbc8,
    0x21e1cde6, 0xc33707d6, 0xf4d50d87, 0x455a14ed,
    0xa9e3e905, 0xfcefa3f8, 0x676f02d9, 0x8d2a4c8a]

  const T3: seq<bv32> := [
    0xfffa3942, 0x8771f681, 0x6d9d6122, 0xfde5380c,
    0xa4beea44, 0x4bdecfa9, 0xf6bb4b60, 0xbebfbc70,
    0x289b7ec6, 0xeaa127fa, 0xd4ef3085, 0x04881d05,
    0xd9d4d039, 0xe6db99e5, 0x1fa27cf8, 0xc4ac5665]

  const T4: seq<bv32> := [
    0xf4292244, 0x432aff97, 0xab9423a7, 0xfc93a039,
    0x655b59c3, 0x8f0ccc92, 0xffeff47d, 0x85845dd1,
    0x6fa87e4f, 0xfe2ce6e0, 0xa3014314, 0x4e0811a1,
    0xf7537e82, 0xbd3af235, 0x2ad7d2bb, 0xeb86d391]

  const S: seq<nat> := [7, 12, 17, 22, 5, 9, 14, 20, 4, 11, 16, 23, 6, 10, 15, 21]

  /** The i-th of the 64 calls in `transform`, as a function of the registers in their roles. */
  function CallOn(block: seq<byte>): (nat, bv32, bv32, bv32, bv32) -> bv32
    requires |block| == 64
  {
    (i: nat, a: bv32, b: bv32, c: bv32, d: bv32) =>
      if i >= 64 then a
      else
        var s := S[4 * (i / 16) + i % 4];
        if i < 16 then FF(a, b, c, d, Word(block, i), s, T1[i])
        else if i < 32 then GG(a, b, c, d, Word(block, (5 * i + 1) % 16), s, T2[i - 16])
        else if i < 48 then HH(a, b, c, d, Word(block, (3 * i + 5) % 16), s, T3[i - 32])
        else II(a, b, c, d, Word(block, (7 * i) % 16), s, T4[i - 48])
  }

  /** The first `n` calls. Each updates one register and the roles then rotate. */
  function Steps<W>(call: (nat, W, W, W, W) -> W, q: Chain<W>, n: nat): Chain<W> {
    if n == 0 then q
    else
      var p := Steps(call, q, n - 1);
      Chain(p.d, call(n - 1, p.a, p.b, p.c, p.d), p.b, p.c)
  }

  function Plus(q: Chain<bv32>, r: Chain<bv32>): Chain<bv32> {
    Chain(q.a + r.a, q.b + r.b, q.c + r.c, q.d + r.d)
  }

  /** All calls, and the registers they started from added at the end. */
  function Mix(call: (nat, bv32, bv32, bv32, bv32) -> bv32, q: Chain<bv32>, n: nat): Chain<bv32> {
    Plus(q, Steps(call, q, n))
  }

  /** The block function. There are as many calls as bytes in the block. */
  function Compress(q: Chain<bv32>, block: seq<byte>): Chain<bv32> {
    if |block| != 64 then q else Mix(CallOn(block), q, |block|)
  }

  lemma FourSteps<W>(call: (nat, W, W, W, W) -> W, q: Chain<W>, n: nat)
    ensures var p := Steps(call, q, n);
            var a := call(n, p.a, p.b, p.c, p.d);
            var d := call(n + 1, p.d, a, p.b, p.c);
            var c := call(n + 2, p.c, d, a, p.b);
            Steps(call, q, n + 4) == Chain(a, call(n + 3, p.b, c, d, a), c, d)
  {
    var p := Steps(call, q, n);
    var p1, p2, p3 := Steps(call, q, n + 1), Steps(call, q, n + 2), Steps(call, q, n + 3);
    assert p1 == Chain(p.d, call(n, p.a, p.b, p.c, p.d), p.b, p.c);
    assert p2 == Chain(p1.d, call(n + 1, p1.a, p1.b, p1.c, p1.d), p1.b, p1.c);
    assert p3 == Chain(p2.d, call(n + 2, p2.a, p2.b, p2.c, p2.d), p2.b, p2.c);
  }

  /** The calls as written: groups of four (there are sixteen) that update the registers a, d, c and b in turn. No
      register is moved, yet the roles come out right. */
  method UpdateRegisters<W>(call: (nat, W, W, W, W) -> W, q: Chain<W>, groups: nat) returns (r: Chain<W>)
    ensures r == Steps(call, q, 4 * groups)
  {
    var a, b, c, d := q.a, q.b, q.c, q.d;
    for g := 0 to groups
      invariant Chain(a, b, c, d) == Steps(call, q, 4 * g)
    {
      FourSteps(call, q, 4 * g);
      a := call(4 * g, a, b, c, d);
      d := call(4 * g + 1, d, a, b, c);
      c := call(4 * g + 2, c, d, a, b);
      b := call(4 * g + 3, b, c, d, a);
    }
    r := Chain(a, b, c, d);
  }

  /** `transform`, whatever the calls are. */
  method Transform(call: (nat, bv32, bv32, bv32, bv32) -> bv32, state: Chain<bv32>, groups: nat)
    returns (next: Chain<bv32>)
    ensures next == Mix(call, state, 4 * groups)
  {
    var r := UpdateRegisters(call, state, groups);
    next := Plus(state, r);
  }

  /** `transform`: its sixteen groups of four calls make the block function. */
  method TransformBlock(state: Chain<bv32>, block: seq<byte>) returns (next: Chain<bv32>)
    requires |block| == 64
    ensures next == Compress(state, block)
  {
    hide CallOn, Mix;
    next := Transform(CallOn(block), state, 16);
  }

  const INIT: Chain<bv32> := Chain(0x67452301, 0xefcdab89, 0x98badcfe, 0x10325476)

  function WordBytes(w: bv32): (r: seq<byte>)
    ensures |r| == 4
  {
    [(w & 0xff) as byte, ((w >> 8) & 0xff) as byte, ((w >> 16) & 0xff) as byte, ((w >> 24) & 0xff) as byte]
  }

  function Encode(q: Chain<bv32>): (r: seq<byte>)
    ensures |r| == 16
  {
    WordBytes(q.a) + WordBytes(q.b) + WordBytes(q.c) + WordBytes(q.d)
  }

  /** The sixteen bytes of the result: the registers in order, each with its low-order byte first. */
  lemma EncodedBytes(q: Chain<bv32>)
    ensures Encode(q)[0] as bv32 == q.a & 0xff && Encode(q)[1] as bv32 == (q.a >> 8) & 0xff
    ensures Encode(q)[2] as bv32 == (q.a >> 16) & 0xff && Encode(q)[3] as bv32 == q.a >> 24
    ensures Encode(q)[4] as bv32 == q.b & 0xff && Encode(q)[5] as bv32 == (q.b >> 8) & 0xff
    ensures Encode(q)[6] as bv32 == (q.b >> 16) & 0xff && Encode(q)[7] as bv32 == q.b >> 24
    ensures Encode(q)[8] as bv32 == q.c & 0xff && Encode(q)[9] as bv32 == (q.c >> 8) & 0xff
    ensures Encode(q)[10] as bv32 == (q.c >> 16) & 0xff && Encode(q)[11] as bv32 == q.c >> 24
    ensures Encode(q)[12] as bv32 == q.d & 0xff && Encode(q)[13] as bv32 == (q.d >> 8) & 0xff
    ensures Encode(q)[14] as bv32 == (q.d >> 16) & 0xff && Encode(q)[15] as bv32 == q.d >> 24
  {
  }
}
