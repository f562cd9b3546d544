/** Octets, shared by the modules that move bytes around. */
module Bytes {
  type byte = bv8

  lemma NextOctet(v: byte)
    requires v != 0xFF
    ensures (v + 1) as int == v as int + 1
  {
  }

  /** The byte of value `n`, by counting up. */
  function Octet(n: int): (r: byte)
    requires 0 <= n < 256
    ensures r as int == n
  {
    if n == 0 then 0
    else
      var v := Octet(n - 1);
      assert v != 0xFF;
      NextOctet(v);
      v + 1
  }

  lemma OctetOfByte(x: byte)
    ensures Octet(x as int) == x
  {
    ByteOfInt(Octet(x as int), x);
  }

  lemma ByteOfInt(x: byte, y: byte)
    requires x as int == y as int
    ensures x == y
  {
  }
}
