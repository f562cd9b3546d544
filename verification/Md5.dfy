/** Streaming MD5: input arrives in pieces of any size, is buffered up to 64 bytes and compressed
    block by block, while two 32-bit words count the bits; the digest is that of RFC 1321 on the
    whole input.

    The block function is a parameter here: nothing in the buffering and counting depends on it.
  */
module Md5 {
  import opened Bytes
  import opened Md5Count
  import Md5Block

  /** An initial chaining value, a block function and an encoding of the result. The MD5 ones are in
      `Md5Block`. */
  datatype Algorithm<!Q> = Algorithm(init: Q, compress: (Q, seq<byte>) -> Q, encode: Q -> seq<byte>)

  const MD5: Algorithm<Md5Block.Chain<bv32>> := Algorithm(Md5Block.INIT, Md5Block.Compress, Md5Block.Encode)

  // ----- The digest of RFC 1321 -----------------------------------------------------------------

  /** The chaining value after all full blocks of `m`, starting from `q` (section 3.4 of RFC 1321). */
  function Fold<Q>(alg: Algorithm<Q>, q: Q, m: seq<byte>): Q {
    if |m| < 64 then q else Fold(alg, alg.compress(q, m[..64]), m[64..])
  }

  /** What is left of `m` after its full blocks. */
  function Rest(m: seq<byte>): (r: seq<byte>)
    ensures |r| < 64
  {
    if |m| < 64 then m else Rest(m[64..])
  }

  /** How many padding bytes section 3.1 asks for after `n` message bytes. */
  function PadLength(n: nat): nat {
    1 + (119 - n % 64) % 64
  }

  function Zeros(n: nat): (r: seq<byte>)
    ensures |r| == n
  {
    if n == 0 then [] else Zeros(n - 1) + [0]
  }

  function Padding(n: nat): (r: seq<byte>)
    requires n > 0
    ensures |r| == n
  {
    [0x80] + Zeros(n - 1)
  }

  /** A 32-bit count, low-order byte first. */
  function Bytes4(n: int): (r: seq<byte>)
    requires 0 <= n < W32
    ensures |r| == 4
  {
    [Octet(n % 256), Octet(n / 256 % 256), Octet(n / 65536 % 256), Octet(n / 16777216)]
  }

  /** Section 3.2: the number of bits, as two words with the low-order one first. */
  function LengthBytes(low: int, high: int): (r: seq<byte>)
    requires 0 <= low < W32 && 0 <= high < W32
    ensures |r| == 8
  {
    Bytes4(low) + Bytes4(high)
  }

  function Padded(m: seq<byte>, low: int, high: int): seq<byte>
    requires 0 <= low < W32 && 0 <= high < W32
  {
    m + Padding(PadLength(|m|)) + LengthBytes(low, high)
  }

  lemma {:induction false} ZerosAre(n: nat, k: nat)
    requires k < n
    ensures Zeros(n)[k] == 0
  {
    if k < n - 1 {
      ZerosAre(n - 1, k);
    }
  }

  lemma Bytes4Are(n: int)
    requires 0 <= n < W32
    ensures Bytes4(n)[0] as int == n % 256 && Bytes4(n)[1] as int == n / 256 % 256
    ensures Bytes4(n)[2] as int == n / 65536 % 256 && Bytes4(n)[3] as int == n / 16777216 % 256
  {
    hide Octet;
  }

  lemma PaddedParts(m: seq<byte>, low: int, high: int, k: nat)
    requires 0 <= low < W32 && 0 <= high < W32
    ensures var p := Padded(m, low, high);
            && |p| == |m| + PadLength(|m|) + 8 && p[..|m|] == m && p[|m|] == 0x80
            && (|m| < k < |p| - 8 ==> p[k] == 0)
            && p[|p| - 8..] == Bytes4(low) + Bytes4(high)
  {
    hide Bytes4;
    if |m| < k < |m| + PadLength(|m|) {
      ZerosAre(PadLength(|m|) - 1, k - |m| - 1);
    }
  }

  /** The padded message byte by byte (sections 3.1 and 3.2 of RFC 1321): the message, the byte 0x80,
      zeros, and the bit length modulo 2^64 in eight bytes, low-order byte first. */
  lemma PaddedBytes(m: seq<byte>, k: nat)
    ensures var p, bits := Padded(m, LowWord(|m|), HighWord(|m|)), 8 * |m|;
            var end := |p| - 8;
            && |p| % 64 == 0 && |m| + 9 <= |p| <= |m| + 72
            && p[..|m|] == m && p[|m|] == 0x80 && (|m| < k < end ==> p[k] == 0)
            && p[end] as int == bits % 0x100 && p[end + 1] as int == bits / 0x100 % 0x100
            && p[end + 2] as int == bits / 0x1_0000 % 0x100 && p[end + 3] as int == bits / 0x100_0000 % 0x100
            && p[end + 4] as int == bits / 0x1_0000_0000 % 0x100
            && p[end + 5] as int == bits / 0x100_0000_0000 % 0x100
            && p[end + 6] as int == bits / 0x1_0000_0000_0000 % 0x100
            && p[end + 7] as int == bits / 0x100_0000_0000_0000 % 0x100
  {
    hide Bytes4, Padded, LowWord, HighWord;
    var low, high := LowWord(|m|), HighWord(|m|);
    var p := Padded(m, low, high);
    PaddedParts(m, low, high, k);
    PadLengthIsLeast(|m|, PadLength(|m|));
    PaddedLength(|m|);
    Bytes4Are(low);
    Bytes4Are(high);
    LowWordDigits(|m|);
    HighWordDigits(|m|);
    var end := |p| - 8;
    var tail := p[end..];
    assert tail[..4] == Bytes4(low) && tail[4..] == Bytes4(high);
    assert p[end] == tail[..4][0] && p[end + 1] == tail[..4][1];
    assert p[end + 2] == tail[..4][2] && p[end + 3] == tail[..4][3];
    assert p[end + 4] == tail[4..][0] && p[end + 5] == tail[4..][1];
    assert p[end + 6] == tail[4..][2] && p[end + 7] == tail[4..][3];
  }

  /** The message digest. */
  function Digest<Q>(alg: Algorithm<Q>, m: seq<byte>): seq<byte> {
    alg.encode(Fold(alg, alg.init, Padded(m, LowWord(|m|), HighWord(|m|))))
  }

  /** The padding is the shortest of at least one byte that leaves 56 modulo 64. */
  lemma PadLengthIsLeast(n: nat, k: nat)
    requires k >= 1 && (n + k) % 64 == 56
    ensures 1 <= PadLength(n) <= 64 && (n + PadLength(n)) % 64 == 56 && PadLength(n) <= k
  {
  }

  lemma {:induction false} RestLength(m: seq<byte>)
    ensures |Rest(m)| == |m| % 64
  {
    if |m| >= 64 {
      RestLength(m[64..]);
    }
  }

  lemma PaddedLength(n: nat)
    ensures (n + PadLength(n) + 8) % 64 == 0
  {
    var p := PadLength(n);
    PadLengthIsLeast(n, p);
    assert (n + p) % 64 == 56;
  }

  /** Nothing is left over of a padded message. */
  lemma PaddedIsBlocks(m: seq<byte>, low: int, high: int)
    requires 0 <= low < W32 && 0 <= high < W32
    ensures Rest(Padded(m, low, high)) == []
  {
    var p := Padded(m, low, high);
    RestLength(p);
    PaddedLength(|m|);
    assert |p| == |m| + PadLength(|m|) + 8;
  }

  /** The main fact about streaming: more input continues from the chaining value with the bytes left
      over in front of it. */
  lemma {:induction false} FoldContinues<Q>(alg: Algorithm<Q>, q: Q, m: seq<byte>, data: seq<byte>)
    ensures Fold(alg, q, m + data) == Fold(alg, Fold(alg, q, m), Rest(m) + data)
    ensures Rest(m + data) == Rest(Rest(m) + data)
  {
    if |m| >= 64 {
      FoldContinues(alg, alg.compress(q, m[..64]), m[64..], data);
      assert (m + data)[..64] == m[..64] && (m + data)[64..] == m[64..] + data;
    }
  }

  function Concat(chunks: seq<seq<byte>>): seq<byte> {
    if chunks == [] then [] else Concat(chunks[..|chunks| - 1]) + chunks[|chunks| - 1]
  }

  lemma ConcatPrefix(chunks: seq<seq<byte>>, i: nat)
    requires i < |chunks|
    ensures Concat(chunks[..i + 1]) == Concat(chunks[..i]) + chunks[i]
  {
    assert chunks[..i + 1][..i] == chunks[..i];
  }

  // ----- The object --------------------------------------------------------------------------------

  class Context<Q> {
    const alg: Algorithm<Q>
    var state: Q
    var count0: int
    var count1: int
    const buffer: array<byte>
    var digest: seq<byte>
    var finalized: bool
    ghost var message: seq<byte>

    /** What has been absorbed is in the chaining value block by block, the tail in the buffer. */
    ghost predicate Buffered()
      reads this, buffer
    {
      && buffer.Length == 64
      && state == Fold(alg, alg.init, message)
      && buffer[..|Rest(message)|] == Rest(message)
    }

    ghost predicate Counted()
      reads this
    {
      && 0 <= count0 < W32 && 0 <= count1 < W32
      && (!finalized ==> count0 == LowWord(|message|))
    }

    ghost predicate Valid()
      reads this, buffer
    {
      && buffer.Length == 64
      && Counted()
      && (!finalized ==> Buffered())
    }

    /** The high word of the count is right too. */
    ghost predicate CountExact()
      reads this
    {
      count1 == HighWord(|message|)
    }

    constructor (alg: Algorithm<Q>)
      ensures this.alg == alg
      ensures Valid() && fresh(buffer) && !finalized && message == [] && CountExact()
    {
      this.alg := alg;
      state, count0, count1, finalized, message := alg.init, 0, 0, false, [];
      buffer := new byte[64];
      digest := [];
      new;
      CountOfNothing();
    }

    method CopyIn(at: nat, data: seq<byte>)
      requires at + |data| <= buffer.Length
      modifies buffer
      ensures buffer[..at + |data|] == old(buffer[..at]) + data
    {
      forall k | 0 <= k < |data| {
        buffer[at + k] := data[k];
      }
    }

    method CountBits(len: nat)
      requires 0 <= count0 < W32 && 0 <= count1 < W32
      modifies this`count0, this`count1
      ensures count0 == CountLow(old(count0), len) && count1 == CountHigh(old(count0), old(count1), len)
    {
      count0 := (count0 + (8 * len) % W64) % W32;
      if count0 < (8 * len) % W64 {
        count1 := (count1 + 1) % W32;
      }
      count1 := (count1 + len / 0x2000_0000) % W32;
    }

    /** The loop of `update`: whole blocks straight from the input. */
    method CompressBlocks(data: seq<byte>, from: nat) returns (i: nat)
      requires from <= |data|
      modifies this`state
      ensures from <= i <= |data| && data[i..] == Rest(data[from..])
      ensures state == Fold(alg, old(state), data[from..])
    {
      i := from;
      while i + 63 < |data|
        invariant from <= i <= |data|
        invariant Fold(alg, state, data[i..]) == Fold(alg, old(state), data[from..])
        invariant Rest(data[i..]) == Rest(data[from..])
      {
        assert data[i..][..64] == data[i..i + 64] && data[i..][64..] == data[i + 64..];
        state := alg.compress(state, data[i..i + 64]);
        i := i + 64;
      }
    }

    /** The bytes of an update that completes at least one block. */
    method AbsorbBlocks(data: seq<byte>, index: nat)
      requires Buffered() && index == |Rest(message)| && |data| >= 64 - index
      modifies this`state, buffer
      ensures state == Fold(alg, alg.init, message + data)
      ensures buffer[..|Rest(message + data)|] == Rest(message + data)
    {
      var partLen := 64 - index;
      ghost var all := Rest(message) + data;
      FoldContinues(alg, alg.init, message, data);
      assert all[..64] == Rest(message) + data[..partLen] && all[64..] == data[partLen..];
      CopyIn(index, data[..partLen]);
      assert buffer[..] == buffer[..64];
      state := alg.compress(state, buffer[..]);
      var i := CompressBlocks(data, partLen);
      CopyIn(0, data[i..]);
    }

    /** The bytes of an update; the count is another matter. */
    method AbsorbBytes(data: seq<byte>, index: nat)
      requires Buffered() && index == |Rest(message)|
      modifies this`state, this`message, buffer
      ensures Buffered() && message == old(message) + data
    {
      if |data| >= 64 - index {
        AbsorbBlocks(data, index);
      } else {
        FoldContinues(alg, alg.init, message, data);
        CopyIn(index, data);
      }
      message := message + data;
    }

    /** `update` on a context that is not finalized. */
    method Absorb(data: seq<byte>)
      requires Valid() && !finalized
      modifies this, buffer
      ensures Valid() && !finalized && message == old(message) + data && digest == old(digest)
      ensures count0 == CountLow(old(count0), |data|) && count1 == CountHigh(old(count0), old(count1), |data|)
      ensures |data| < 0x2000_0000_0000_0000 && old(CountExact())
        ==> (CountExact() <==> |data| < 0x2000_0000 || Carries(old(count0), |data|))
    {
      LowWordRight(|message|, |data|);
      if |data| < 0x2000_0000_0000_0000 {
        CountExactIff(|message|, |data|);
      }
      var index := (count0 / 8) % 64;
      IndexRight(|message|);
      RestLength(message);
      CountBits(|data|);
      AbsorbBytes(data, index);
    }

    /** An update after the digest was taken is ignored. */
    method Update(data: seq<byte>)
      requires Valid()
      modifies this, buffer
      ensures Valid() && finalized == old(finalized) && digest == old(digest)
      ensures message == if finalized then old(message) else old(message) + data
      ensures !finalized && |data| < 0x2000_0000_0000_0000 && old(CountExact())
        ==> (CountExact() <==> |data| < 0x2000_0000 || Carries(old(count0), |data|))
      ensures finalized ==> state == old(state) && count0 == old(count0) && count1 == old(count1)
    {
      if finalized {
        return;
      }
      Absorb(data);
    }

    /** The padding and the count go through `update` themselves; the count is read off first. */
    method Pad()
      requires Valid() && !finalized
      modifies this, buffer
      ensures Valid() && !finalized && message == Padded(old(message), old(count0), old(count1))
    {
      var bits := LengthBytes(count0, count1);
      var index := (count0 / 8) % 64;
      var padLen := if index < 56 then 56 - index else 120 - index;
      IndexRight(|message|);
      PadIndex(|message|);
      Absorb(Padding(padLen));
      Absorb(bits);
    }

    method Final()
      requires Valid() && !finalized
      modifies this, buffer
      ensures Valid() && finalized
      ensures digest == alg.encode(Fold(alg, alg.init, Padded(old(message), old(count0), old(count1))))
    {
      Pad();
      digest := alg.encode(state);
      finalized := true;
    }

    /** Taking the digest is idempotent: later calls return the same bytes. */
    method TakeDigest() returns (d: seq<byte>)
      requires Valid()
      modifies this, buffer
      ensures Valid() && finalized && d == digest
      ensures old(finalized) ==> d == old(digest)
      ensures !old(finalized)
        ==> d == alg.encode(Fold(alg, alg.init, Padded(old(message), old(count0), old(count1))))
    {
      if !finalized {
        Final();
      }
      d := digest;
    }
  }

  lemma PadIndex(n: nat)
    ensures PadLength(n) == if n % 64 < 56 then 56 - n % 64 else 120 - n % 64
  {
  }

  /** Streaming equals one shot: whatever the pieces, as long as each is shorter than 2^29 bytes, the
      digest is that of RFC 1321 on their concatenation. */
  method HashChunks<Q>(alg: Algorithm<Q>, chunks: seq<seq<byte>>) returns (d: seq<byte>)
    requires forall i :: 0 <= i < |chunks| ==> |chunks[i]| < 0x2000_0000
    ensures d == Digest(alg, Concat(chunks))
  {
    var context := new Context(alg);
    var i := 0;
    while i < |chunks|
      invariant 0 <= i <= |chunks|
      invariant context.alg == alg && context.Valid() && !context.finalized && context.CountExact()
      invariant fresh(context) && fresh(context.buffer)
      invariant context.message == Concat(chunks[..i])
    {
      ConcatPrefix(chunks, i);
      context.Update(chunks[i]);
      i := i + 1;
    }
    assert chunks[..|chunks|] == chunks;
    d := context.TakeDigest();
  }

  // ----- Hexadecimal form --------------------------------------------------------------------------

  const HEX: string := "0123456789abcdef"

  function Upper(x: byte): (r: int)
    ensures 0 <= r < 16
  {
    (x >> 4) as int
  }

  function Lower(x: byte): (r: int)
    ensures 0 <= r < 16
  {
    (x & 0x0f) as int
  }

  function Hex(d: seq<byte>): string {
    if d == [] then [] else [HEX[Upper(d[0])], HEX[Lower(d[0])]] + Hex(d[1..])
  }

  /** Two digits for each byte, the upper four bits first. */
  lemma {:induction false} HexDigits(d: seq<byte>, k: nat)
    requires k < |d|
    ensures |Hex(d)| == 2 * |d|
    ensures Hex(d)[2 * k] == "0123456789abcdef"[Upper(d[k])]
    ensures Hex(d)[2 * k + 1] == "0123456789abcdef"[Lower(d[k])]
    ensures 16 * Upper(d[k]) + Lower(d[k]) == d[k] as int
  {
    HexLength(d);
    NibblesSum(d[k]);
    hide Upper, Lower;
    if k > 0 {
      HexDigits(d[1..], k - 1);
    }
  }

  lemma {:induction false} HexLength(d: seq<byte>)
    ensures |Hex(d)| == 2 * |d|
  {
    hide Upper, Lower;
    if d != [] {
      HexLength(d[1..]);
    }
  }

  lemma NibblesSum(x: byte)
    ensures 16 * Upper(x) + Lower(x) == x as int
  {
  }

  lemma NibblesTell(x: byte, y: byte)
    requires Upper(x) == Upper(y) && Lower(x) == Lower(y)
    ensures x == y
  {
    assert x >> 4 == y >> 4 && x & 0x0f == y & 0x0f;
    assert x == ((x >> 4) << 4) | (x & 0x0f);
  }

  lemma HexDigitsDiffer(i: nat, j: nat)
    requires i < 16 && j < 16 && HEX[i] == HEX[j]
    ensures i == j
  {
  }

  lemma FirstByteTold(x: byte, y: byte, r: string, t: string)
    requires [HEX[Upper(x)], HEX[Lower(x)]] + r == [HEX[Upper(y)], HEX[Lower(y)]] + t
    ensures x == y && r == t
  {
    var p, q := [HEX[Upper(x)], HEX[Lower(x)]] + r, [HEX[Upper(y)], HEX[Lower(y)]] + t;
    assert p[0] == q[0] && p[1] == q[1] && p[2..] == r && q[2..] == t;
    HexDigitsDiffer(Upper(x), Upper(y));
    HexDigitsDiffer(Lower(x), Lower(y));
    NibblesTell(x, y);
  }

  /** Different digests print differently. */
  lemma {:induction false} HexInjective(x: seq<byte>, y: seq<byte>)
    requires Hex(x) == Hex(y)
    ensures x == y
  {
    if x != [] && y != [] {
      FirstByteTold(x[0], y[0], Hex(x[1..]), Hex(y[1..]));
      HexInjective(x[1..], y[1..]);
      assert x == [x[0]] + x[1..] && y == [y[0]] + y[1..];
    }
  }

  /** The loop that prints the digest. */
  method PrintHex(d: seq<byte>) returns (result: string)
    ensures result == Hex(d)
  {
    result := [];
    for i := 0 to |d|
      invariant result + Hex(d[i..]) == Hex(d)
    {
      assert d[i..][1..] == d[i + 1..];
      var upper, lower := HEX[Upper(d[i])], HEX[Lower(d[i])];
      assert result + [upper] + [lower] + Hex(d[i + 1..]) == result + ([upper, lower] + Hex(d[i + 1..]));
      result := result + [upper];
      result := result + [lower];
    }
  }

  method HexDigest(chunks: seq<seq<byte>>) returns (result: string)
    requires forall i :: 0 <= i < |chunks| ==> |chunks[i]| < 0x2000_0000
    ensures result == Hex(Digest(MD5, Concat(chunks)))
  {
    var d := HashChunks(MD5, chunks);
    result := PrintHex(d);
  }
}
