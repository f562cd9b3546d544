/** A value of the whole computation: the digest of the alphabet, from the test suite in appendix A.5 of
    RFC 1321. It pins down what no law of streaming does: the constants, shifts and word order of the
    64 calls, the four auxiliary functions, the initial registers and the order of the result's bytes.
  */
module Md5Vector {
  import opened Bytes
  import opened Md5Block
  import opened Md5
  import opened Md5Count

  /** The 26 lower-case letters. */
  predicate Alphabet(m: seq<byte>) {
    && |m| == 26
    && m[0] == 0x61 && m[1] == 0x62 && m[2] == 0x63 && m[3] == 0x64
    && m[4] == 0x65 && m[5] == 0x66 && m[6] == 0x67 && m[7] == 0x68
    && m[8] == 0x69 && m[9] == 0x6a && m[10] == 0x6b && m[11] == 0x6c
    && m[12] == 0x6d && m[13] == 0x6e && m[14] == 0x6f && m[15] == 0x70
    && m[16] == 0x71 && m[17] == 0x72 && m[18] == 0x73 && m[19] == 0x74
    && m[20] == 0x75 && m[21] == 0x76 && m[22] == 0x77 && m[23] == 0x78
    && m[24] == 0x79 && m[25] == 0x7a
  }

  /** The words of the only block of the padded alphabet. */
  predicate AlphabetWords(b: seq<byte>) {
    && |b| == 64
    && Word(b, 0) == 0x64636261 && Word(b, 1) == 0x68676665
    && Word(b, 2) == 0x6c6b6a69 && Word(b, 3) == 0x706f6e6d
    && Word(b, 4) == 0x74737271 && Word(b, 5) == 0x78777675
    && Word(b, 6) == 0x00807a79 && Word(b, 7) == 0x00000000
    && Word(b, 8) == 0x00000000 && Word(b, 9) == 0x00000000
    && Word(b, 10) == 0x00000000 && Word(b, 11) == 0x00000000
    && Word(b, 12) == 0x00000000 && Word(b, 13) == 0x00000000
    && Word(b, 14) == 0x000000d0 && Word(b, 15) == 0x00000000
  }

  lemma CallFF(b: seq<byte>, i: nat, p: Chain<bv32>, x: bv32, s: nat, t: bv32)
    requires |b| == 64 && 0 <= i < 16 && 0 < s < 32
    requires Word(b, i) == x && S[0 + i % 4] == s && T1[i - 0] == t
    ensures CallOn(b)(i, p.a, p.b, p.c, p.d) == FF(p.a, p.b, p.c, p.d, x, s, t)
  {
    hide FF, GG, HH, II, Word;
  }

  lemma CallGG(b: seq<byte>, i: nat, p: Chain<bv32>, x: bv32, s: nat, t: bv32)
    requires |b| == 64 && 16 <= i < 32 && 0 < s < 32
    requires Word(b, (5 * i + 1) % 16) == x && S[4 + i % 4] == s && T2[i - 16] == t
    ensures CallOn(b)(i, p.a, p.b, p.c, p.d) == GG(p.a, p.b, p.c, p.d, x, s, t)
  {
    hide FF, GG, HH, II, Word;
  }

  lemma CallHH(b: seq<byte>, i: nat, p: Chain<bv32>, x: bv32, s: nat, t: bv32)
    requires |b| == 64 && 32 <= i < 48 && 0 < s < 32
    requires Word(b, (3 * i + 5) % 16) == x && S[8 + i % 4] == s && T3[i - 32] == t
    ensures CallOn(b)(i, p.a, p.b, p.c, p.d) == HH(p.a, p.b, p.c, p.d, x, s, t)
  {
    hide FF, GG, HH, II, Word;
  }

  lemma CallII(b: seq<byte>, i: nat, p: Chain<bv32>, x: bv32, s: nat, t: bv32)
    requires |b| == 64 && 48 <= i < 64 && 0 < s < 32
    requires Word(b, (7 * i) % 16) == x && S[12 + i % 4] == s && T4[i - 48] == t
    ensures CallOn(b)(i, p.a, p.b, p.c, p.d) == II(p.a, p.b, p.c, p.d, x, s, t)
  {
    hide FF, GG, HH, II, Word;
  }

  lemma Calls4(b: seq<byte>)
    requires AlphabetWords(b)
    ensures Steps(CallOn(b), INIT, 4) == Chain(0xd6d117a6, 0x4503b812, 0x227d8cf1, 0xaab1aaaa)
  {
    assert Steps(CallOn(b), INIT, 0) == INIT;
    hide Steps, Word, CallOn;
    CallFF(b, 0, Chain(0x67452301, 0xefcdab89, 0x98badcfe, 0x10325476),
           0x64636261, 7, 0xd76aa478);
    CallFF(b, 1, Chain(0x10325476, 0xd6d117a6, 0xefcdab89, 0x98badcfe),
           0x68676665, 12, 0xe8c7b756);
    CallFF(b, 2, Chain(0x98badcfe, 0xaab1aaaa, 0xd6d117a6, 0xefcdab89),
           0x6c6b6a69, 17, 0x242070db);
    CallFF(b, 3, Chain(0xefcdab89, 0x227d8cf1, 0xaab1aaaa, 0xd6d117a6),
           0x706f6e6d, 22, 0xc1bdceee);
    FourSteps(CallOn(b), INIT, 0);
  }

  lemma Calls8(b: seq<byte>)
    requires AlphabetWords(b)
    ensures Steps(CallOn(b), INIT, 8) == Chain(0xfe15f787, 0xda9bbb0d, 0xb71122fc, 0xa811b278)
  {
    hide Steps, Word, CallOn;
    Calls4(b);
    CallFF(b, 4, Chain(0xd6d117a6, 0x4503b812, 0x227d8cf1, 0xaab1aaaa),
           0x74737271, 7, 0xf57c0faf);
    CallFF(b, 5, Chain(0xaab1aaaa, 0xfe15f787, 0x4503b812, 0x227d8cf1),
           0x78777675, 12, 0x4787c62a);
    CallFF(b, 6, Chain(0x227d8cf1, 0xa811b278, 0xfe15f787, 0x4503b812),
           0x00807a79, 17, 0xa8304613);
    CallFF(b, 7, Chain(0x4503b812, 0xb71122fc, 0xa811b278, 0xfe15f787),
           0x00000000, 22, 0xfd469501);
    FourSteps(CallOn(b), INIT, 4);
  }

  lemma Calls12(b: seq<byte>)
    requires AlphabetWords(b)
    ensures Steps(CallOn(b), INIT, 12) == Chain(0xae752899, 0x56cfa5cb, 0x7d4bd80b, 0x2bbe757f)
  {
    hide Steps, Word, CallOn;
    Calls8(b);
    CallFF(b, 8, Chain(0xfe15f787, 0xda9bbb0d, 0xb71122fc, 0xa811b278),
           0x00000000, 7, 0x698098d8);
    CallFF(b, 9, Chain(0xa811b278, 0xae752899, 0xda9bbb0d, 0xb71122fc),
           0x00000000, 12, 0x8b44f7af);
    CallFF(b, 10, Chain(0xb71122fc, 0x2bbe757f, 0xae752899, 0xda9bbb0d),
           0x00000000, 17, 0xffff5bb1);
    CallFF(b, 11, Chain(0xda9bbb0d, 0x7d4bd80b, 0x2bbe757f, 0xae752899),
           0x00000000, 22, 0x895cd7be);
    FourSteps(CallOn(b), INIT, 8);
  }

  lemma Calls16(b: seq<byte>)
    requires AlphabetWords(b)
    ensures Steps(CallOn(b), INIT, 16) == Chain(0x1754a316, 0x608d6b7e, 0x00df74d5, 0x85567d90)
  {
    hide Steps, Word, CallOn;
    Calls12(b);
    CallFF(b, 12, Chain(0xae752899, 0x56cfa5cb, 0x7d4bd80b, 0x2bbe757f),
           0x00000000, 7, 0x6b901122);
    CallFF(b, 13, Chain(0x2bbe757f, 0x1754a316, 0x56cfa5cb, 0x7d4bd80b),
           0x00000000, 12, 0xfd987193);
    CallFF(b, 14, Chain(0x7d4bd80b, 0x85567d90, 0x1754a316, 0x56cfa5cb),
           0x000000d0, 17, 0xa679438e);
    CallFF(b, 15, Chain(0x56cfa5cb, 0x00df74d5, 0x85567d90, 0x1754a316),
           0x00000000, 22, 0x49b40821);
    FourSteps(CallOn(b), INIT, 12);
  }

  lemma Calls20(b: seq<byte>)
    requires AlphabetWords(b)
    ensures Steps(CallOn(b), INIT, 20) == Chain(0x2d8071cc, 0x4c2145b3, 0xedfe7e4b, 0x5dcee119)
  {
    hide Steps, Word, CallOn;
    Calls16(b);
    CallGG(b, 16, Chain(0x1754a316, 0x608d6b7e, 0x00df74d5, 0x85567d90),
           0x68676665, 5, 0xf61e2562);
    CallGG(b, 17, Chain(0x85567d90, 0x2d8071cc, 0x608d6b7e, 0x00df74d5),
           0x00807a79, 9, 0xc040b340);
    CallGG(b, 18, Chain(0x00df74d5, 0x5dcee119, 0x2d8071cc, 0x608d6b7e),
           0x00000000, 14, 0x265e5a51);
    CallGG(b, 19, Chain(0x608d6b7e, 0xedfe7e4b, 0x5dcee119, 0x2d8071cc),
           0x64636261, 20, 0xe9b6c7aa);
    FourSteps(CallOn(b), INIT, 16);
  }

  lemma Calls24(b: seq<byte>)
    requires AlphabetWords(b)
    ensures Steps(CallOn(b), INIT, 24) == Chain(0x570c43e0, 0xc9f162d4, 0xc28ab49d, 0x977efd2a)
  {
    hide Steps, Word, CallOn;
    Calls20(b);
    CallGG(b, 20, Chain(0x2d8071cc, 0x4c2145b3, 0xedfe7e4b, 0x5dcee119),
           0x78777675, 5, 0xd62f105d);
    CallGG(b, 21, Chain(0x5dcee119, 0x570c43e0, 0x4c2145b3, 0xedfe7e4b),
           0x00000000, 9, 0x02441453);
    CallGG(b, 22, Chain(0xedfe7e4b, 0x977efd2a, 0x570c43e0, 0x4c2145b3),
           0x00000000, 14, 0xd8a1e681);
    CallGG(b, 23, Chain(0x4c2145b3, 0xc28ab49d, 0x977efd2a, 0x570c43e0),
           0x74737271, 20, 0xe7d3fbc8);
    FourSteps(CallOn(b), INIT, 20);
  }

  lemma Calls28(b: seq<byte>)
    requires AlphabetWords(b)
    ensures Steps(CallOn(b), INIT, 28) == Chain(0x25bfae3b, 0xe6d3b398, 0xf8c8365f, 0x89980104)
  {
    hide Steps, Word, CallOn;
    Calls24(b);
    CallGG(b, 24, Chain(0x570c43e0, 0xc9f162d4, 0xc28ab49d, 0x977efd2a),
           0x00000000, 5, 0x21e1cde6);
    CallGG(b, 25, Chain(0x977efd2a, 0x25bfae3b, 0xc9f162d4, 0xc28ab49d),
           0x000000d0, 9, 0xc33707d6);
    CallGG(b, 26, Chain(0xc28ab49d, 0x89980104, 0x25bfae3b, 0xc9f162d4),
           0x706f6e6d, 14, 0xf4d50d87);
    CallGG(b, 27, Chain(0xc9f162d4, 0xf8c8365f, 0x89980104, 0x25bfae3b),
           0x00000000, 20, 0x455a14ed);
    FourSteps(CallOn(b), INIT, 24);
  }

  lemma Calls32(b: seq<byte>)
    requires AlphabetWords(b)
    ensures Steps(CallOn(b), INIT, 32) == Chain(0xf54d8710, 0xaeb35766, 0x2e69afc7, 0x927b72e2)
  {
    hide Steps, Word, CallOn;
    Calls28(b);
    CallGG(b, 28, Chain(0x25bfae3b, 0xe6d3b398, 0xf8c8365f, 0x89980104),
           0x00000000, 5, 0xa9e3e905);
    CallGG(b, 29, Chain(0x89980104, 0xf54d8710, 0xe6d3b398, 0xf8c8365f),
           0x6c6b6a69, 9, 0xfcefa3f8);
    CallGG(b, 30, Chain(0xf8c8365f, 0x927b72e2, 0xf54d8710, 0xe6d3b398),
           0x00000000, 14, 0x676f02d9);
    CallGG(b, 31, Chain(0xe6d3b398, 0x2e69afc7, 0x927b72e2, 0xf54d8710),
           0x00000000, 20, 0x8d2a4c8a);
    FourSteps(CallOn(b), INIT, 28);
  }

  lemma Calls36(b: seq<byte>)
    requires AlphabetWords(b)
    ensures Steps(CallOn(b), INIT, 36) == Chain(0xb4bf680e, 0x06a5e211, 0x2361ed0a, 0x4c8ffa80)
  {
    hide Steps, Word, CallOn;
    Calls32(b);
    CallHH(b, 32, Chain(0xf54d8710, 0xaeb35766, 0x2e69afc7, 0x927b72e2),
           0x78777675, 4, 0xfffa3942);
    CallHH(b, 33, Chain(0x927b72e2, 0xb4bf680e, 0xaeb35766, 0x2e69afc7),
           0x00000000, 11, 0x8771f681);
    CallHH(b, 34, Chain(0x2e69afc7, 0x4c8ffa80, 0xb4bf680e, 0xaeb35766),
           0x00000000, 16, 0x6d9d6122);
    CallHH(b, 35, Chain(0xaeb35766, 0x2361ed0a, 0x4c8ffa80, 0xb4bf680e),
           0x000000d0, 23, 0xfde5380c);
    FourSteps(CallOn(b), INIT, 32);
  }

  lemma Calls40(b: seq<byte>)
    requires AlphabetWords(b)
    ensures Steps(CallOn(b), INIT, 40) == Chain(0xb9c0c733, 0x8d41bf99, 0x23a9451b, 0xf1e6dc7a)
  {
    hide Steps, Word, CallOn;
    Calls36(b);
    CallHH(b, 36, Chain(0xb4bf680e, 0x06a5e211, 0x2361ed0a, 0x4c8ffa80),
           0x68676665, 4, 0xa4beea44);
    CallHH(b, 37, Chain(0x4c8ffa80, 0xb9c0c733, 0x06a5e211, 0x2361ed0a),
           0x74737271, 11, 0x4bdecfa9);
    CallHH(b, 38, Chain(0x2361ed0a, 0xf1e6dc7a, 0xb9c0c733, 0x06a5e211),
           0x00000000, 16, 0xf6bb4b60);
    CallHH(b, 39, Chain(0x06a5e211, 0x23a9451b, 0xf1e6dc7a, 0xb9c0c733),
           0x00000000, 23, 0xbebfbc70);
    FourSteps(CallOn(b), INIT, 36);
  }

  lemma Calls44(b: seq<byte>)
    requires AlphabetWords(b)
    ensures Steps(CallOn(b), INIT, 44) == Chain(0xa3e88ead, 0x90a35af5, 0x66f6468d, 0x02c0b11c)
  {
    hide Steps, Word, CallOn;
    Calls40(b);
    CallHH(b, 40, Chain(0xb9c0c733, 0x8d41bf99, 0x23a9451b, 0xf1e6dc7a),
           0x00000000, 4, 0x289b7ec6);
    CallHH(b, 41, Chain(0xf1e6dc7a, 0xa3e88ead, 0x8d41bf99, 0x23a9451b),
           0x64636261, 11, 0xeaa127fa);
    CallHH(b, 42, Chain(0x23a9451b, 0x02c0b11c, 0xa3e88ead, 0x8d41bf99),
           0x706f6e6d, 16, 0xd4ef3085);
    CallHH(b, 43, Chain(0x8d41bf99, 0x66f6468d, 0x02c0b11c, 0xa3e88ead),
           0x00807a79, 23, 0x04881d05);
    FourSteps(CallOn(b), INIT, 40);
  }

  lemma Calls48(b: seq<byte>)
    requires AlphabetWords(b)
    ensures Steps(CallOn(b), INIT, 48) == Chain(0xb5d41f9c, 0x71d10367, 0x703d54d8, 0xa04b4904)
  {
    hide Steps, Word, CallOn;
    Calls44(b);
    CallHH(b, 44, Chain(0xa3e88ead, 0x90a35af5, 0x66f6468d, 0x02c0b11c),
           0x00000000, 4, 0xd9d4d039);
    CallHH(b, 45, Chain(0x02c0b11c, 0xb5d41f9c, 0x90a35af5, 0x66f6468d),
           0x00000000, 11, 0xe6db99e5);
    CallHH(b, 46, Chain(0x66f6468d, 0xa04b4904, 0xb5d41f9c, 0x90a35af5),
           0x00000000, 16, 0x1fa27cf8);
    CallHH(b, 47, Chain(0x90a35af5, 0x703d54d8, 0xa04b4904, 0xb5d41f9c),
           0x6c6b6a69, 23, 0xc4ac5665);
    FourSteps(CallOn(b), INIT, 44);
  }

  lemma Calls52(b: seq<byte>)
    requires AlphabetWords(b)
    ensures Steps(CallOn(b), INIT, 52) == Chain(0xfc32dd6e, 0x33edb197, 0xb35602cb, 0x65456b34)
  {
    hide Steps, Word, CallOn;
    Calls48(b);
    CallII(b, 48, Chain(0xb5d41f9c, 0x71d10367, 0x703d54d8, 0xa04b4904),
           0x64636261, 6, 0xf4292244);
    CallII(b, 49, Chain(0xa04b4904, 0xfc32dd6e, 0x71d10367, 0x703d54d8),
           0x00000000, 10, 0x432aff97);
    CallII(b, 50, Chain(0x703d54d8, 0x65456b34, 0xfc32dd6e, 0x71d10367),
           0x000000d0, 15, 0xab9423a7);
    CallII(b, 51, Chain(0x71d10367, 0xb35602cb, 0x65456b34, 0xfc32dd6e),
           0x78777675, 21, 0xfc93a039);
    FourSteps(CallOn(b), INIT, 48);
  }

  lemma Calls56(b: seq<byte>)
    requires AlphabetWords(b)
    ensures Steps(CallOn(b), INIT, 56) == Chain(0xc1e942f1, 0x83877d1b, 0x23a68048, 0xd9bb987c)
  {
    hide Steps, Word, CallOn;
    Calls52(b);
    CallII(b, 52, Chain(0xfc32dd6e, 0x33edb197, 0xb35602cb, 0x65456b34),
           0x00000000, 6, 0x655b59c3);
    CallII(b, 53, Chain(0x65456b34, 0xc1e942f1, 0x33edb197, 0xb35602cb),
           0x706f6e6d, 10, 0x8f0ccc92);
    CallII(b, 54, Chain(0xb35602cb, 0xd9bb987c, 0xc1e942f1, 0x33edb197),
           0x00000000, 15, 0xffeff47d);
    CallII(b, 55, Chain(0x33edb197, 0x23a68048, 0xd9bb987c, 0xc1e942f1),
           0x68676665, 21, 0x85845dd1);
    FourSteps(CallOn(b), INIT, 52);
  }

  lemma Calls60(b: seq<byte>)
    requires AlphabetWords(b)
    ensures Steps(CallOn(b), INIT, 60) == Chain(0x0077c208, 0x5e6bc930, 0xa3e2247f, 0x847fc2e7)
  {
    hide Steps, Word, CallOn;
    Calls56(b);
    CallII(b, 56, Chain(0xc1e942f1, 0x83877d1b, 0x23a68048, 0xd9bb987c),
           0x00000000, 6, 0x6fa87e4f);
    CallII(b, 57, Chain(0xd9bb987c, 0x0077c208, 0x83877d1b, 0x23a68048),
           0x00000000, 10, 0xfe2ce6e0);
    CallII(b, 58, Chain(0x23a68048, 0x847fc2e7, 0x0077c208, 0x83877d1b),
           0x00807a79, 15, 0xa3014314);
    CallII(b, 59, Chain(0x83877d1b, 0xa3e2247f, 0x847fc2e7, 0x0077c208),
           0x00000000, 21, 0x4e0811a1);
    FourSteps(CallOn(b), INIT, 56);
  }

  lemma Calls64(b: seq<byte>)
    requires AlphabetWords(b)
    ensures Steps(CallOn(b), INIT, 64) == Chain(0x708ed9c2, 0x1116e6d8, 0xd38f1e7f, 0x2baf1354)
  {
    hide Steps, Word, CallOn;
    Calls60(b);
    CallII(b, 60, Chain(0x0077c208, 0x5e6bc930, 0xa3e2247f, 0x847fc2e7),
           0x74737271, 6, 0xf7537e82);
    CallII(b, 61, Chain(0x847fc2e7, 0x708ed9c2, 0x5e6bc930, 0xa3e2247f),
           0x00000000, 10, 0xbd3af235);
    CallII(b, 62, Chain(0xa3e2247f, 0x2baf1354, 0x708ed9c2, 0x5e6bc930),
           0x6c6b6a69, 15, 0x2ad7d2bb);
    CallII(b, 63, Chain(0x5e6bc930, 0xd38f1e7f, 0x2baf1354, 0x708ed9c2),
           0x00000000, 21, 0xeb86d391);
    FourSteps(CallOn(b), INIT, 60);
  }

  lemma AlphabetCompressed(b: seq<byte>)
    requires AlphabetWords(b)
    ensures Compress(INIT, b) == Chain(0xd7d3fcc3, 0x00e49261, 0x6c49fb7d, 0x3be167ca)
  {
    Calls64(b);
    hide Steps, Word, CallOn;
  }

  function JoinBytes(x0: byte, x1: byte, x2: byte, x3: byte): bv32 {
    (x0 as bv32) | ((x1 as bv32) << 8) | ((x2 as bv32) << 16) | ((x3 as bv32) << 24)
  }

  lemma WordIs(b: seq<byte>, k: nat, x0: byte, x1: byte, x2: byte, x3: byte)
    requires |b| == 64 && k < 16
    requires b[4 * k] == x0 && b[4 * k + 1] == x1 && b[4 * k + 2] == x2 && b[4 * k + 3] == x3
    ensures Word(b, k) == JoinBytes(x0, x1, x2, x3)
  {
  }

  /** The padded alphabet: its letters, 0x80, zeros and the bit length 208. */
  lemma PaddedAlphabet(m: seq<byte>, p: seq<byte>)
    requires Alphabet(m) && p == Padded(m, LowWord(|m|), HighWord(|m|))
    ensures |p| == 64 && p[26] == 0x80 && p[56] == 0xd0
    ensures forall k :: 0 <= k < 26 ==> p[k] == m[k]
    ensures forall k :: 26 < k < 64 && k != 56 ==> p[k] == 0
  {
    hide Padded, LowWord, HighWord, Alphabet;
    PaddedAlphabetLength(m, p);
    PaddedAlphabetEnd(m, p);
    forall k | 0 <= k < 26
      ensures p[k] == m[k]
    {
      assert p[..26][k] == m[k];
    }
    forall k | 26 < k < 56
      ensures p[k] == 0
    {
      PaddedZero(m, p, k);
    }
  }

  lemma PaddedAlphabetLength(m: seq<byte>, p: seq<byte>)
    requires Alphabet(m) && p == Padded(m, LowWord(|m|), HighWord(|m|))
    ensures |m| == 26 && |p| == 64 && p[..26] == m && p[26] == 0x80
  {
    hide Padded, LowWord, HighWord, Alphabet;
    assert |m| == 26 by { AlphabetLength(m); }
    PaddedBytes(m, 0);
  }

  lemma PaddedZero(m: seq<byte>, p: seq<byte>, k: nat)
    requires Alphabet(m) && p == Padded(m, LowWord(|m|), HighWord(|m|)) && 26 < k < 56 <= |p|
    ensures p[k] == 0
  {
    hide Padded, LowWord, HighWord, Alphabet;
    PaddedAlphabetLength(m, p);
    PaddedBytes(m, k);
  }

  /** The bytes of the bit length. */
  lemma PaddedAlphabetEnd(m: seq<byte>, p: seq<byte>)
    requires Alphabet(m) && p == Padded(m, LowWord(|m|), HighWord(|m|))
    ensures |p| == 64 && p[56] == 0xd0
    ensures p[57] == 0 && p[58] == 0 && p[59] == 0 && p[60] == 0 && p[61] == 0 && p[62] == 0 && p[63] == 0
  {
    hide Padded, LowWord, HighWord, Alphabet;
    PaddedAlphabetLength(m, p);
    EndDigits(m, p);
    hide Octet;
    ZeroByte(p[57]);
    ZeroByte(p[58]);
    ZeroByte(p[59]);
    ZeroByte(p[60]);
    ZeroByte(p[61]);
    ZeroByte(p[62]);
    ZeroByte(p[63]);
    ByteOfInt(p[56], 0xd0);
  }

  lemma EndDigits(m: seq<byte>, p: seq<byte>)
    requires |m| == 26 && |p| == 64 && p == Padded(m, LowWord(|m|), HighWord(|m|))
    ensures p[56] as int == 208 && p[57] as int == 0 && p[58] as int == 0 && p[59] as int == 0
    ensures p[60] as int == 0 && p[61] as int == 0 && p[62] as int == 0 && p[63] as int == 0
  {
    hide Padded, LowWord, HighWord, Alphabet;
    PaddedBytes(m, 0);
  }

  lemma ZeroByte(b: byte)
    ensures b as int == 0 ==> b == 0
  {
    if b as int == 0 {
      ByteOfInt(b, 0);
    }
  }

  lemma AlphabetLength(m: seq<byte>)
    requires Alphabet(m)
    ensures |m| == 26
  {
  }

  lemma PaddedWords(m: seq<byte>, p: seq<byte>)
    requires Alphabet(m) && p == Padded(m, LowWord(|m|), HighWord(|m|))
    ensures AlphabetWords(p)
  {
    PaddedAlphabet(m, p);
    hide Word, Padded, LowWord, HighWord;
    WordIs(p, 0, 0x61, 0x62, 0x63, 0x64);
    WordIs(p, 1, 0x65, 0x66, 0x67, 0x68);
    WordIs(p, 2, 0x69, 0x6a, 0x6b, 0x6c);
    WordIs(p, 3, 0x6d, 0x6e, 0x6f, 0x70);
    WordIs(p, 4, 0x71, 0x72, 0x73, 0x74);
    WordIs(p, 5, 0x75, 0x76, 0x77, 0x78);
    WordIs(p, 6, 0x79, 0x7a, 0x80, 0x00);
    WordIs(p, 7, 0x00, 0x00, 0x00, 0x00);
    WordIs(p, 8, 0x00, 0x00, 0x00, 0x00);
    WordIs(p, 9, 0x00, 0x00, 0x00, 0x00);
    WordIs(p, 10, 0x00, 0x00, 0x00, 0x00);
    WordIs(p, 11, 0x00, 0x00, 0x00, 0x00);
    WordIs(p, 12, 0x00, 0x00, 0x00, 0x00);
    WordIs(p, 13, 0x00, 0x00, 0x00, 0x00);
    WordIs(p, 14, 0xd0, 0x00, 0x00, 0x00);
    WordIs(p, 15, 0x00, 0x00, 0x00, 0x00);
  }

  /** The digest of the alphabet is c3fcd3d76192e4007dfb496cca67e13b. */
  lemma AlphabetDigest(m: seq<byte>)
    requires Alphabet(m)
    ensures Digest(MD5, m) == [
    0xc3, 0xfc, 0xd3, 0xd7, 0x61, 0x92, 0xe4, 0x00,
    0x7d, 0xfb, 0x49, 0x6c, 0xca, 0x67, 0xe1, 0x3b]
  {
    var p := Padded(m, LowWord(|m|), HighWord(|m|));
    PaddedWords(m, p);
    AlphabetCompressed(p);
    OneBlock(p);
    hide Padded, LowWord, HighWord, Compress, Fold, AlphabetWords, Alphabet, Encode;
    assert MD5.encode(Compress(INIT, p)) == Encode(Compress(INIT, p));
    AlphabetEncoded();
  }

  lemma AlphabetEncoded()
    ensures Encode(Chain(0xd7d3fcc3, 0x00e49261, 0x6c49fb7d, 0x3be167ca)) == [
    0xc3, 0xfc, 0xd3, 0xd7, 0x61, 0x92, 0xe4, 0x00,
    0x7d, 0xfb, 0x49, 0x6c, 0xca, 0x67, 0xe1, 0x3b]
  {
  }

  lemma OneBlock(b: seq<byte>)
    requires |b| == 64
    ensures Fold(MD5, INIT, b) == Compress(INIT, b)
  {
    hide Compress;
    assert b[..64] == b && b[64..] == [];
  }
}
