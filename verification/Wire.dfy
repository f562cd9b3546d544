/** Integers on the wire: the byte swaps of the buffer and the streams, and what a `memcpy` of an
    integer stores on a little-endian host.
  */
module Wire {
  import opened Bytes

  function Swap16(v: bv16): bv16 {
    (v >> 8) | (v << 8)
  }

  function Swap32(v: bv32): bv32 {
    (v >> 24) | ((v >> 8) & 0xFF00) | ((v << 8) & 0xFF0000) | (v << 24)
  }

  function Swap64(v: bv64): bv64 {
    ((v >> 56) & 0x00000000000000FF) |
    ((v >> 40) & 0x000000000000FF00) |
    ((v >> 24) & 0x0000000000FF0000) |
    ((v >> 8) & 0x00000000FF000000) |
    ((v << 8) & 0x000000FF00000000) |
    ((v << 24) & 0x0000FF0000000000) |
    ((v << 40) & 0x00FF000000000000) |
    ((v << 56) & 0xFF00000000000000)
  }

  /** Each swap undoes itself. */
  lemma SwapsAreInvolutions(x: bv16, y: bv32, z: bv64)
    ensures Swap16(Swap16(x)) == x && Swap32(Swap32(y)) == y && Swap64(Swap64(z)) == z
  {
  }

  // ----- Memory images ----------------------------------------------------------------------------

  function Store16(v: bv16): (r: seq<byte>)
    ensures |r| == 2
  {
    [(v & 0xFF) as byte, (v >> 8) as byte]
  }

  function Load16(s: seq<byte>): bv16
    requires |s| == 2
  {
    (s[0] as bv16) | ((s[1] as bv16) << 8)
  }

  function Store32(v: bv32): (r: seq<byte>)
    ensures |r| == 4
  {
    [(v & 0xFF) as byte, ((v >> 8) & 0xFF) as byte, ((v >> 16) & 0xFF) as byte, (v >> 24) as byte]
  }

  function Load32(s: seq<byte>): bv32
    requires |s| == 4
  {
    (s[0] as bv32) | ((s[1] as bv32) << 8) | ((s[2] as bv32) << 16) | ((s[3] as bv32) << 24)
  }

  function Store64(v: bv64): (r: seq<byte>)
    ensures |r| == 8
  {
    [(v & 0xFF) as byte, ((v >> 8) & 0xFF) as byte, ((v >> 16) & 0xFF) as byte, ((v >> 24) & 0xFF) as byte,
     ((v >> 32) & 0xFF) as byte, ((v >> 40) & 0xFF) as byte, ((v >> 48) & 0xFF) as byte, (v >> 56) as byte]
  }

  function Load64(s: seq<byte>): bv64
    requires |s| == 8
  {
    (s[0] as bv64) | ((s[1] as bv64) << 8) | ((s[2] as bv64) << 16) | ((s[3] as bv64) << 24)
    | ((s[4] as bv64) << 32) | ((s[5] as bv64) << 40) | ((s[6] as bv64) << 48) | ((s[7] as bv64) << 56)
  }

  lemma Loads16(v: bv16)
    ensures Load16(Store16(v)) == v
  {
  }

  lemma Loads32(v: bv32)
    ensures Load32(Store32(v)) == v
  {
  }

  lemma Loads64(v: bv64)
    ensures Load64(Store64(v)) == v
  {
  }

  // ----- Unsigned values --------------------------------------------------------------------------

  /** The number a word stands for: its bytes as digits to base 256, the first stored the lowest. */
  function Number16(v: bv16): int {
    var s := Store16(v);
    s[0] as int + 256 * (s[1] as int)
  }

  function Number32(v: bv32): int {
    var s := Store32(v);
    s[0] as int + 256 * (s[1] as int) + 65536 * (s[2] as int) + 16777216 * (s[3] as int)
  }

  /** The word that stands for `n` modulo its range: what a cast to `uint16` or `uint32` leaves. */
  function Word16(n: nat): bv16 {
    Load16([Octet(n % 256), Octet(n / 256 % 256)])
  }

  function Word32(n: nat): bv32 {
    Load32([Octet(n % 256), Octet(n / 256 % 256), Octet(n / 65536 % 256), Octet(n / 16777216 % 256)])
  }

  const RANGE16: int := 0x1_0000
  const RANGE32: int := 0x1_0000_0000

  lemma NumberOfWord16(n: nat)
    ensures Number16(Word16(n)) == n % RANGE16
  {
    Stores16([Octet(n % 256), Octet(n / 256 % 256)]);
  }

  lemma NumberOfWord32(n: nat)
    ensures Number32(Word32(n)) == n % RANGE32
  {
    Stores32([Octet(n % 256), Octet(n / 256 % 256), Octet(n / 65536 % 256), Octet(n / 16777216 % 256)]);
    Digits32(n);
  }

  lemma Digits32(n: nat)
    ensures n % 256 + 256 * (n / 256 % 256) + 65536 * (n / 65536 % 256) + 16777216 * (n / 16777216 % 256)
         == n % RANGE32
  {
    var a, b, c, d := n / 256, n / 65536, n / 16777216, n / RANGE32;
    assert b == a / 256 && c == b / 256 && d == c / 256;
  }

  lemma Number16InRange(v: bv16)
    ensures 0 <= Number16(v) < RANGE16
  {
  }

  lemma Digits16(a: int, b: int)
    requires 0 <= a < 256 && 0 <= b < 256
    ensures (a + 256 * b) % 256 == a && (a + 256 * b) / 256 % 256 == b
  {
  }

  /** The octets of the number of two bytes are these bytes. */
  lemma OctetsBack(x: byte, y: byte)
    ensures var n := x as int + 256 * (y as int);
            Octet(n % 256) == x && Octet(n / 256 % 256) == y
  {
    Digits16(x as int, y as int);
    OctetOfByte(x);
    OctetOfByte(y);
  }

  lemma WordOfOctets(x: byte, y: byte)
    ensures Word16(x as int + 256 * (y as int)) == Load16([x, y])
  {
    hide Octet, Load16;
    OctetsBack(x, y);
  }

  lemma Word16OfNumber(v: bv16)
    ensures Word16(Number16(v)) == v
  {
    var s := Store16(v);
    Loads16(v);
    WordOfOctets(s[0], s[1]);
    assert [s[0], s[1]] == s;
  }

  // ----- What goes over the wire ------------------------------------------------------------------

  function Put16(v: bv16): (r: seq<byte>)
    ensures |r| == 2
  {
    Store16(Swap16(v))
  }

  function Get16(s: seq<byte>): bv16
    requires |s| == 2
  {
    Swap16(Load16(s))
  }

  function Put32(v: bv32): (r: seq<byte>)
    ensures |r| == 4
  {
    Store32(Swap32(v))
  }

  function Get32(s: seq<byte>): bv32
    requires |s| == 4
  {
    Swap32(Load32(s))
  }

  function Put64(v: bv64): (r: seq<byte>)
    ensures |r| == 8
  {
    Store64(Swap64(v))
  }

  function Get64(s: seq<byte>): bv64
    requires |s| == 8
  {
    Swap64(Load64(s))
  }

  lemma Stores16(s: seq<byte>)
    requires |s| == 2
    ensures Store16(Load16(s)) == s
  {
  }

  lemma Stores32(s: seq<byte>)
    requires |s| == 4
    ensures Store32(Load32(s)) == s
  {
  }

  lemma Stores64(s: seq<byte>)
    requires |s| == 8
    ensures Store64(Load64(s)) == s
  {
  }

  /** Reading undoes writing and writing undoes reading, so four bytes and a 32-bit integer are the
      same information; likewise for the other widths. */
  lemma Wire16(v: bv16, s: seq<byte>)
    requires |s| == 2
    ensures s == Put16(v) <==> Get16(s) == v
  {
    SwapsAreInvolutions(v, 0, 0);
    SwapsAreInvolutions(Load16(s), 0, 0);
    Loads16(Swap16(v));
    Stores16(s);
  }

  lemma Wire32(v: bv32, s: seq<byte>)
    requires |s| == 4
    ensures s == Put32(v) <==> Get32(s) == v
  {
    SwapsAreInvolutions(0, v, 0);
    SwapsAreInvolutions(0, Load32(s), 0);
    Loads32(Swap32(v));
    Stores32(s);
  }

  lemma Wire64(v: bv64, s: seq<byte>)
    requires |s| == 8
    ensures s == Put64(v) <==> Get64(s) == v
  {
    SwapsAreInvolutions(0, 0, v);
    SwapsAreInvolutions(0, 0, Load64(s));
    Loads64(Swap64(v));
    Stores64(s);
  }

  /** The order is big-endian: the most significant byte goes first. */
  lemma BigEndian(v: bv32)
    ensures Put32(v) == [(v >> 24) as byte, ((v >> 16) & 0xFF) as byte, ((v >> 8) & 0xFF) as byte, (v & 0xFF) as byte]
  {
  }

  lemma BigEndian16(v: bv16)
    ensures Put16(v) == [(v >> 8) as byte, (v & 0xFF) as byte]
  {
  }

  lemma BigEndian64(v: bv64)
    ensures Put64(v) == [(v >> 56) as byte, ((v >> 48) & 0xFF) as byte, ((v >> 40) & 0xFF) as byte,
                         ((v >> 32) & 0xFF) as byte, ((v >> 24) & 0xFF) as byte, ((v >> 16) & 0xFF) as byte,
                         ((v >> 8) & 0xFF) as byte, (v & 0xFF) as byte]
  {
  }

  lemma Reversed16(v: bv16)
    ensures Put16(v) == [Store16(v)[1], Store16(v)[0]]
  {
  }

  lemma Reversed32(v: bv32)
    ensures Put32(v) == [Store32(v)[3], Store32(v)[2], Store32(v)[1], Store32(v)[0]]
  {
  }

  /** A length on the wire: the digits of the number to base 256, most significant first, as far as two
      or four bytes go. */
  lemma LengthOnWire(n: nat)
    ensures var p := Put16(Word16(n));
            p[0] as int == n / 0x100 % 0x100 && p[1] as int == n % 0x100
    ensures var p := Put32(Word32(n));
            && p[0] as int == n / 0x100_0000 % 0x100 && p[1] as int == n / 0x1_0000 % 0x100
            && p[2] as int == n / 0x100 % 0x100 && p[3] as int == n % 0x100
  {
    hide Octet, Put16, Put32, Store16, Store32, Load16, Load32;
    Reversed16(Word16(n));
    Reversed32(Word32(n));
    Stores16([Octet(n % 256), Octet(n / 256 % 256)]);
    Stores32([Octet(n % 256), Octet(n / 256 % 256), Octet(n / 65536 % 256), Octet(n / 16777216 % 256)]);
  }

  /** And read back: the number that the bytes spell. */
  lemma NumberOnWire(s: seq<byte>, t: seq<byte>)
    requires |s| == 2 && |t| == 4
    ensures Number16(Get16(s)) == 0x100 * (s[0] as int) + s[1] as int
    ensures Number32(Get32(t))
         == 0x100_0000 * (t[0] as int) + 0x1_0000 * (t[1] as int) + 0x100 * (t[2] as int) + t[3] as int
  {
    hide Store16, Store32, Load16, Load32, Swap16, Swap32;
    assert Store16(Get16(s)) == Put16(Load16(s)) && Store32(Get32(t)) == Put32(Load32(t));
    Reversed16(Load16(s));
    Reversed32(Load32(t));
    Stores16(s);
    Stores32(t);
  }
}
