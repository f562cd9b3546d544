/** The typed streams over a buffer: a printer and a parser for unsigned bytes, 16-, 32- and 64-bit
    integers (signed ones are the same bits) and strings with a 16-bit length.
  */
module Streams {
  import opened Bytes
  import opened Wire
  import opened Buffer

  datatype Value = U8(x8: byte) | U16(x16: bv16) | U32(x32: bv32) | U64(x64: bv64) | Text(s: seq<byte>)

  datatype Kind = K8 | K16 | K32 | K64 | KText

  datatype Parsed<T> = Parsed(value: T, rest: seq<byte>) | Overrun

  function KindOf(v: Value): Kind {
    match v
    case U8(_) => K8
    case U16(_) => K16
    case U32(_) => K32
    case U64(_) => K64
    case Text(_) => KText
  }

  /** What a write puts into the buffer; a string's length is cast to 16 bits. */
  function Put(v: Value): seq<byte> {
    match v
    case U8(x) => [x]
    case U16(x) => Put16(x)
    case U32(x) => Put32(x)
    case U64(x) => Put64(x)
    case Text(s) => Put16(Word16(|s|)) + s
  }

  /** A read at the front of the buffer. The source does not check that the bytes are there;
      `Overrun` stands for a read past them. */
  function Read(k: Kind, s: seq<byte>): Parsed<Value> {
    match k
    case K8 => if |s| < 1 then Overrun else Parsed(U8(s[0]), s[1..])
    case K16 => if |s| < 2 then Overrun else Parsed(U16(Get16(s[..2])), s[2..])
    case K32 => if |s| < 4 then Overrun else Parsed(U32(Get32(s[..4])), s[4..])
    case K64 => if |s| < 8 then Overrun else Parsed(U64(Get64(s[..8])), s[8..])
    case KText => ReadText(s)
  }

  function ReadText(s: seq<byte>): Parsed<Value> {
    if |s| < 2 then Overrun
    else
      var n := Number16(Get16(s[..2]));
      if |s| < 2 + n then Overrun else Parsed(Text(s[2..2 + n]), s[2 + n..])
  }

  /** Strings the length field can express. */
  predicate Fits(v: Value) {
    v.Text? ==> |v.s| < RANGE16
  }

  // ----- Printer and parser -----------------------------------------------------------------------

  lemma TextHeader(s: seq<byte>, rest: seq<byte>)
    ensures Get16((Put(Text(s)) + rest)[..2]) == Word16(|s|)
    ensures Number16(Word16(|s|)) == |s| % RANGE16
  {
    assert (Put(Text(s)) + rest)[..2] == Put16(Word16(|s|));
    Wire16(Word16(|s|), Put16(Word16(|s|)));
    NumberOfWord16(|s|);
  }

  /** Exactly which values are read back and leave what follows alone: all but strings of 65536 bytes
      and more, whose length field is cut short. */
  lemma ReadBackIff(v: Value, rest: seq<byte>)
    ensures Read(KindOf(v), Put(v) + rest) == Parsed(v, rest) <==> Fits(v)
  {
    hide Get16, Word16, Number16, Put16, Put32, Get32, Put64, Get64;
    var all := Put(v) + rest;
    match v {
      case U8(x) =>
        assert all[1..] == rest;
      case U16(x) =>
        assert all[..2] == Put16(x) && all[2..] == rest;
        Wire16(x, Put16(x));
      case U32(x) =>
        assert all[..4] == Put32(x) && all[4..] == rest;
        Wire32(x, Put32(x));
      case U64(x) =>
        assert all[..8] == Put64(x) && all[8..] == rest;
        Wire64(x, Put64(x));
      case Text(s) =>
        TextHeader(s, rest);
        var n := |s| % RANGE16;
        assert all[2..2 + n] == s[..n];
        if Fits(v) {
          assert all[2 + n..] == rest;
        }
    }
  }

  /** A string that can be read is there in full, and its bytes are its value. */
  lemma TextThere(s: seq<byte>)
    requires ReadText(s).Parsed?
    ensures |s| >= 2 && 0 <= Number16(Get16(s[..2])) <= |s[2..]|
  {
    hide Get16, Number16;
    Number16InRange(Get16(s[..2]));
  }

  lemma TextFound(s: seq<byte>, value: seq<byte>, rest: seq<byte>)
    requires |s| >= 2 && s[2..] == value + rest && |value| == Number16(Get16(s[..2]))
    ensures ReadText(s) == Parsed(Text(value), rest)
  {
    hide Get16, Number16;
    var n := |value|;
    assert s[2..2 + n] == s[2..][..n] && s[2 + n..] == s[2..][n..];
  }

  lemma TextCanonical(s: seq<byte>)
    requires ReadText(s).Parsed?
    ensures var p := ReadText(s);
            s == Put(p.value) + p.rest && Fits(p.value)
  {
    hide Get16, Word16, Number16, Put16;
    var w := Get16(s[..2]);
    var n := Number16(w);
    Number16InRange(w);
    Word16OfNumber(w);
    Wire16(w, s[..2]);
    assert s == s[..2] + s[2..2 + n] + s[2 + n..];
  }

  /** The parser accepts nothing but what the printer prints. */
  lemma ReadCanonical(k: Kind, s: seq<byte>)
    requires Read(k, s).Parsed?
    ensures var p := Read(k, s);
            s == Put(p.value) + p.rest && KindOf(p.value) == k && Fits(p.value)
  {
    match k {
      case K8 =>
        assert s == [s[0]] + s[1..];
      case K16 =>
        Wire16(Get16(s[..2]), s[..2]);
        assert s == s[..2] + s[2..];
      case K32 =>
        Wire32(Get32(s[..4]), s[..4]);
        assert s == s[..4] + s[4..];
      case K64 =>
        Wire64(Get64(s[..8]), s[..8]);
        assert s == s[..8] + s[8..];
      case KText =>
        TextCanonical(s);
    }
  }

  /** The bytes of each value: integers with the most significant byte first, strings after their length
      modulo 65536. */
  lemma ValueBytes(v: Value)
    ensures v.U8? ==> Put(v) == [v.x8]
    ensures v.U16? ==> Put(v) == [(v.x16 >> 8) as byte, (v.x16 & 0xFF) as byte]
    ensures v.U32? ==> Put(v) == [(v.x32 >> 24) as byte, ((v.x32 >> 16) & 0xFF) as byte,
                                  ((v.x32 >> 8) & 0xFF) as byte, (v.x32 & 0xFF) as byte]
    ensures v.U64? ==> Put(v) == [(v.x64 >> 56) as byte, ((v.x64 >> 48) & 0xFF) as byte,
                                  ((v.x64 >> 40) & 0xFF) as byte, ((v.x64 >> 32) & 0xFF) as byte,
                                  ((v.x64 >> 24) & 0xFF) as byte, ((v.x64 >> 16) & 0xFF) as byte,
                                  ((v.x64 >> 8) & 0xFF) as byte, (v.x64 & 0xFF) as byte]
    ensures v.Text? ==> && |Put(v)| == 2 + |v.s| && Put(v)[2..] == v.s
                        && Put(v)[0] as int == |v.s| / 0x100 % 0x100 && Put(v)[1] as int == |v.s| % 0x100
  {
    hide Put16, Put32, Put64, Word16;
    match v {
      case U8(x) =>
      case U16(x) => BigEndian16(x);
      case U32(x) => BigEndian(x);
      case U64(x) => BigEndian64(x);
      case Text(s) => LengthOnWire(|s|);
    }
  }

  // ----- Sequences of values ----------------------------------------------------------------------

  function PutAll(vs: seq<Value>): seq<byte> {
    if vs == [] then [] else Put(vs[0]) + PutAll(vs[1..])
  }

  function ReadAll(ks: seq<Kind>, s: seq<byte>): Parsed<seq<Value>> {
    if ks == [] then Parsed([], s)
    else
      match Read(ks[0], s)
      case Overrun => Overrun
      case Parsed(v, rest) =>
        match ReadAll(ks[1..], rest)
        case Overrun => Overrun
        case Parsed(vs, end) => Parsed([v] + vs, end)
  }

  function Kinds(vs: seq<Value>): seq<Kind> {
    if vs == [] then [] else [KindOf(vs[0])] + Kinds(vs[1..])
  }

  predicate AllFit(vs: seq<Value>) {
    vs == [] || (Fits(vs[0]) && AllFit(vs[1..]))
  }

  /** Any sequence of values, followed by anything, is read back by the same sequence of reads. */
  lemma {:induction false} ReadAllBack(vs: seq<Value>, rest: seq<byte>)
    requires AllFit(vs)
    ensures ReadAll(Kinds(vs), PutAll(vs) + rest) == Parsed(vs, rest)
    decreases |vs|
  {
    hide Put, Read, Fits, KindOf;
    if vs == [] {
      assert PutAll(vs) + rest == rest;
    } else {
      ReadBackIff(vs[0], PutAll(vs[1..]) + rest);
      assert PutAll(vs) + rest == Put(vs[0]) + (PutAll(vs[1..]) + rest);
      ReadAllBack(vs[1..], rest);
      assert Kinds(vs)[1..] == Kinds(vs[1..]) && [vs[0]] + vs[1..] == vs;
    }
  }

  /** And the reads accept nothing else. */
  lemma {:induction false} ReadAllCanonical(ks: seq<Kind>, s: seq<byte>)
    requires ReadAll(ks, s).Parsed?
    ensures var p := ReadAll(ks, s);
            s == PutAll(p.value) + p.rest && Kinds(p.value) == ks && AllFit(p.value)
    decreases |ks|
  {
    hide Put, Read, Fits, KindOf;
    var p := ReadAll(ks, s);
    if ks == [] {
      assert s == PutAll([]) + s;
    } else {
      var first := Read(ks[0], s);
      var more := ReadAll(ks[1..], first.rest);
      ReadCanonical(ks[0], s);
      ReadAllCanonical(ks[1..], first.rest);
      assert p.value[1..] == more.value && p.value[0] == first.value;
      assert s == Put(first.value) + (PutAll(more.value) + more.rest);
      assert s == PutAll(p.value) + p.rest;
    }
  }

  // ----- The stream objects -----------------------------------------------------------------------

  class BufferOutputStream {
    const buffer: Buffer

    constructor (buffer: Buffer)
      ensures this.buffer == buffer
    {
      this.buffer := buffer;
    }

    method WriteUInt8(value: byte)
      requires buffer.Valid()
      modifies buffer, buffer.data
      ensures buffer.Valid() && (buffer.data == old(buffer.data) || fresh(buffer.data))
      ensures buffer.Contents() == old(buffer.Contents()) + Put(U8(value))
    {
      buffer.Append([value]);
    }

    method WriteUInt16(value: bv16)
      requires buffer.Valid()
      modifies buffer, buffer.data
      ensures buffer.Valid() && (buffer.data == old(buffer.data) || fresh(buffer.data))
      ensures buffer.Contents() == old(buffer.Contents()) + Put(U16(value))
    {
      buffer.Append(Store16(Swap16(value)));
    }

    method WriteUInt32(value: bv32)
      requires buffer.Valid()
      modifies buffer, buffer.data
      ensures buffer.Valid() && (buffer.data == old(buffer.data) || fresh(buffer.data))
      ensures buffer.Contents() == old(buffer.Contents()) + Put(U32(value))
    {
      buffer.WriteUInt32(value);
    }

    method WriteUInt64(value: bv64)
      requires buffer.Valid()
      modifies buffer, buffer.data
      ensures buffer.Valid() && (buffer.data == old(buffer.data) || fresh(buffer.data))
      ensures buffer.Contents() == old(buffer.Contents()) + Put(U64(value))
    {
      buffer.Append(Store64(Swap64(value)));
    }

    method WriteString(value: seq<byte>)
      requires buffer.Valid()
      modifies buffer, buffer.data
      ensures buffer.Valid() && (buffer.data == old(buffer.data) || fresh(buffer.data))
      ensures buffer.Contents() == old(buffer.Contents()) + Put(Text(value))
    {
      hide Put16, Word16;
      ghost var before, length := buffer.Contents(), Put16(Word16(|value|));
      WriteUInt16(Word16(|value|));
      buffer.Append(value);
      assert before + length + value == before + (length + value);
    }
  }

  /** A read gives the value whose bytes it consumes; the caller sees to it that they are there. */
  class BufferInputStream {
    const buffer: Buffer

    constructor (buffer: Buffer)
      ensures this.buffer == buffer
    {
      this.buffer := buffer;
    }

    method ReadUInt8() returns (value: byte)
      requires buffer.Valid() && Read(K8, buffer.Contents()).Parsed?
      modifies buffer`reader, buffer`writer
      ensures buffer.Valid() && Read(K8, old(buffer.Contents())) == Parsed(U8(value), buffer.Contents())
    {
      value := buffer.data[buffer.reader];
      buffer.Retrieve(1);
    }

    method ReadUInt16() returns (value: bv16)
      requires buffer.Valid() && Read(K16, buffer.Contents()).Parsed?
      modifies buffer`reader, buffer`writer
      ensures buffer.Valid() && Read(K16, old(buffer.Contents())) == Parsed(U16(value), buffer.Contents())
    {
      var bytes := buffer.RetrieveAsString(2);
      value := Swap16(Load16(bytes));
      assert old(buffer.Contents())[..2] == bytes;
    }

    method ReadUInt32() returns (value: bv32)
      requires buffer.Valid() && Read(K32, buffer.Contents()).Parsed?
      modifies buffer`reader, buffer`writer
      ensures buffer.Valid() && Read(K32, old(buffer.Contents())) == Parsed(U32(value), buffer.Contents())
    {
      value := buffer.ReadUInt32();
      Wire32(value, Put32(value));
      assert old(buffer.Contents())[..4] == Put32(value);
    }

    method ReadUInt64() returns (value: bv64)
      requires buffer.Valid() && Read(K64, buffer.Contents()).Parsed?
      modifies buffer`reader, buffer`writer
      ensures buffer.Valid() && Read(K64, old(buffer.Contents())) == Parsed(U64(value), buffer.Contents())
    {
      var bytes := buffer.RetrieveAsString(8);
      value := Swap64(Load64(bytes));
      assert old(buffer.Contents())[..8] == bytes;
    }

    method ReadString() returns (value: seq<byte>)
      requires buffer.Valid() && Read(KText, buffer.Contents()).Parsed?
      modifies buffer`reader, buffer`writer
      ensures buffer.Valid() && Read(KText, old(buffer.Contents())) == Parsed(Text(value), buffer.Contents())
    {
      hide Get16, Number16, ReadText;
      ghost var all := buffer.Contents();
      TextThere(all);
      var length := ReadUInt16();
      value := buffer.RetrieveAsString(Number16(length));
      TextFound(all, value, buffer.Contents());
    }
  }
}
