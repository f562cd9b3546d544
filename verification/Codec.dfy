/** Message framing: a 13-byte header (magic, version, length, message id) and a body that the message
    writes and reads itself.

    `Format` stands for the registered messages: their ids, their own `serialize` and `deserialize`,
    and which ids the factory knows.
  */
module Codec {
  import opened Bytes
  import opened Wire
  import opened Buffer
  import opened Options
  import Streams

  const MAGIC_NUMBER: bv32 := 0x4C475356
  const PROTOCOL_VERSION: byte := 1
  const HEADER_SIZE: nat := 13

  /** The outcome of a `deserialize`: a message if it succeeds, and how many bytes it retrieves. */
  datatype Body<+M> = Body(message: Option<M>, consumed: nat)

  datatype Format<!M> = Format(
    id: M -> bv32,
    serialize: M -> seq<byte>,
    registered: bv32 -> bool,
    deserialize: (bv32, seq<byte>) -> Body<M>)

  /** The outcome of a `decode`: a message or null, and what is left in the buffer. */
  datatype Decoded<+M> = Decoded(message: Option<M>, rest: seq<byte>)

  datatype Header = Header(magic: bv32, version: byte, length: int, messageId: bv32)

  // ----- Header -----------------------------------------------------------------------------------

  /** The length is cast to 32 bits. */
  function PutHeader(length: nat, id: bv32): (r: seq<byte>)
    ensures |r| == HEADER_SIZE
  {
    Put32(MAGIC_NUMBER) + [PROTOCOL_VERSION] + Put32(Word32(length)) + Put32(id)
  }

  function GetHeader(s: seq<byte>): Header
    requires |s| >= HEADER_SIZE
  {
    Header(Get32(s[0..4]), s[4], Number32(Get32(s[5..9])), Get32(s[9..13]))
  }

  predicate Acceptable(h: Header) {
    h.magic == MAGIC_NUMBER && h.version == PROTOCOL_VERSION
  }

  lemma HeaderBack(length: nat, id: bv32, rest: seq<byte>)
    ensures var s := PutHeader(length, id) + rest;
            && GetHeader(s) == Header(MAGIC_NUMBER, PROTOCOL_VERSION, length % RANGE32, id)
            && s[HEADER_SIZE..] == rest
  {
    hide Get32, Put32, Word32, Number32;
    var s := PutHeader(length, id) + rest;
    assert s[0..4] == Put32(MAGIC_NUMBER) && s[5..9] == Put32(Word32(length)) && s[9..13] == Put32(id);
    Wire32(MAGIC_NUMBER, s[0..4]);
    Wire32(Word32(length), s[5..9]);
    Wire32(id, s[9..13]);
    NumberOfWord32(length);
  }

  /** The fields of a header one after the other. */
  lemma HeaderParts(magic: bv32, version: byte, length: bv32, id: bv32, rest: seq<byte>)
    ensures var s := Put32(magic) + ([version] + (Put32(length) + (Put32(id) + rest)));
            GetHeader(s) == Header(magic, version, Number32(length), id) && s[HEADER_SIZE..] == rest
  {
    hide Get32, Put32, Number32;
    var end := Put32(id) + rest;
    var s := Put32(magic) + ([version] + (Put32(length) + end));
    assert s[0..4] == Put32(magic) && s[5..9] == Put32(length);
    assert s[9..] == end && end[..4] == Put32(id) && s[9..13] == end[..4];
    assert s[13..] == end[4..];
    Wire32(magic, s[0..4]);
    Wire32(length, s[5..9]);
    Wire32(id, s[9..13]);
  }

  // ----- Frames -----------------------------------------------------------------------------------

  function Encode<M>(f: Format<M>, m: M): seq<byte> {
    PutHeader(HEADER_SIZE + |f.serialize(m)|, f.id(m)) + f.serialize(m)
  }

  /** `retrieve`. */
  function Drop(s: seq<byte>, n: nat): seq<byte> {
    if n < |s| then s[n..] else []
  }

  /** The body length a header announces: the subtraction wraps in 32 bits. */
  function Announced(h: Header): int {
    (h.length - HEADER_SIZE) % RANGE32
  }

  /** `decode`. For an incomplete frame the source means to restore the read index but moves it
      on by the size of the header. */
  function Decode<M>(f: Format<M>, s: seq<byte>): Decoded<M> {
    if |s| < HEADER_SIZE then Decoded(None, s)
    else
      var h, rest := GetHeader(s), s[HEADER_SIZE..];
      if !Acceptable(h) then Decoded(None, rest)
      else if |rest| < Announced(h) then Decoded(None, Drop(rest, HEADER_SIZE))
      else if !f.registered(h.messageId) then Decoded(None, rest)
      else
        var b := f.deserialize(h.messageId, rest);
        Decoded(b.message, Drop(rest, b.consumed))
  }

  /** What round trips rest on: the id is registered and `deserialize` undoes `serialize`, whatever
      comes after. */
  ghost predicate ReadsBack<M(!new)>(f: Format<M>, m: M) {
    && f.registered(f.id(m))
    && forall rest: seq<byte> ::
         f.deserialize(f.id(m), f.serialize(m) + rest) == Body(Some(m), |f.serialize(m)|)
  }

  lemma AnnouncedBack(n: nat)
    ensures ((HEADER_SIZE + n) % RANGE32 - HEADER_SIZE) % RANGE32 == n % RANGE32
  {
    var q, r := (HEADER_SIZE + n) / RANGE32, (HEADER_SIZE + n) % RANGE32;
    assert n == RANGE32 * q + (r - HEADER_SIZE);
  }

  /** A frame comes back as its message and what follows it stays. The length field plays no part:
      even where it wraps it announces no more than there is. */
  lemma FrameRoundTrip<M(!new)>(f: Format<M>, m: M, rest: seq<byte>)
    requires ReadsBack(f, m)
    ensures Decode(f, Encode(f, m) + rest) == Decoded(Some(m), rest)
  {
    hide PutHeader, GetHeader;
    var body := f.serialize(m);
    var header := PutHeader(HEADER_SIZE + |body|, f.id(m));
    assert Encode(f, m) + rest == header + (body + rest);
    HeaderBack(HEADER_SIZE + |body|, f.id(m), body + rest);
    AnnouncedBack(|body|);
    assert f.deserialize(f.id(m), body + rest) == Body(Some(m), |body|);
    assert Drop(body + rest, |body|) == rest;
  }

  // ----- Byte by byte -----------------------------------------------------------------------------

  /** The bytes "LGSV" and the version that a header has to begin with. */
  const PREAMBLE: seq<byte> := [0x4C, 0x47, 0x53, 0x56, 1]

  /** A frame on the wire: the four bytes of the magic number and the version, the length of the whole
      frame and the message id, most significant byte first, and the body. */
  lemma FrameLayout<M>(f: Format<M>, m: M)
    ensures var e, n := Encode(f, m), HEADER_SIZE + |f.serialize(m)|;
            && |e| == n && e[..5] == PREAMBLE && e[13..] == f.serialize(m)
            && e[5] as int == n / 0x100_0000 % 0x100 && e[6] as int == n / 0x1_0000 % 0x100
            && e[7] as int == n / 0x100 % 0x100 && e[8] as int == n % 0x100
            && e[9..13] == [(f.id(m) >> 24) as byte, ((f.id(m) >> 16) & 0xFF) as byte,
                            ((f.id(m) >> 8) & 0xFF) as byte, (f.id(m) & 0xFF) as byte]
  {
    hide Word32, Put32;
    var e, n := Encode(f, m), HEADER_SIZE + |f.serialize(m)|;
    BigEndian(MAGIC_NUMBER);
    BigEndian(f.id(m));
    LengthOnWire(n);
    assert e[5..9] == Put32(Word32(n)) && e[9..13] == Put32(f.id(m));
    assert e[5] == e[5..9][0] && e[6] == e[5..9][1] && e[7] == e[5..9][2] && e[8] == e[5..9][3];
    assert e[..5] == Put32(MAGIC_NUMBER) + [PROTOCOL_VERSION];
  }

  /** The length that a header announces, from its bytes. */
  function LengthField(s: seq<byte>): int
    requires |s| >= HEADER_SIZE
  {
    0x100_0000 * (s[5] as int) + 0x1_0000 * (s[6] as int) + 0x100 * (s[7] as int) + s[8] as int
  }

  lemma PreambleIff(s: seq<byte>)
    requires |s| >= HEADER_SIZE
    ensures Acceptable(GetHeader(s)) <==> s[..5] == PREAMBLE
    ensures GetHeader(s).length == LengthField(s)
  {
    hide Get32, Put32, Number32;
    BigEndian(MAGIC_NUMBER);
    Wire32(MAGIC_NUMBER, s[0..4]);
    NumberOnWire([0, 0], s[5..9]);
    assert s[..5] == s[0..4] + [s[4]];
    assert PREAMBLE == PREAMBLE[..4] + [1] && PREAMBLE[..4] == Put32(MAGIC_NUMBER);
    assert s[5..9][0] == s[5] && s[5..9][1] == s[6] && s[5..9][2] == s[7] && s[5..9][3] == s[8];
  }

  /** Exactly what `decode` does with any bytes at all. */
  lemma DecodeCases<M>(f: Format<M>, s: seq<byte>)
    ensures |s| < 13 ==> Decode(f, s) == Decoded(None, s)
    ensures |s| >= 13 && s[..5] != PREAMBLE ==> Decode(f, s) == Decoded(None, s[13..])
    ensures |s| >= 13 && s[..5] == PREAMBLE ==>
              var announced := if LengthField(s) >= 13 then LengthField(s) - 13 else LengthField(s) + 0xFFFF_FFF3;
              var id := Get32(s[9..13]);
              if |s| - 13 < announced then Decode(f, s) == Decoded(None, if |s| >= 26 then s[26..] else [])
              else if !f.registered(id) then Decode(f, s) == Decoded(None, s[13..])
              else
                var body := f.deserialize(id, s[13..]);
                Decode(f, s) == Decoded(body.message, if 13 + body.consumed <= |s| then s[13 + body.consumed..] else [])
  {
    hide Get32, Number32, PREAMBLE;
    if |s| >= 13 {
      PreambleIff(s);
      assert |s| >= 26 ==> s[13..][13..] == s[26..];
      var body := f.deserialize(Get32(s[9..13]), s[13..]);
      assert 13 + body.consumed <= |s| ==> s[13..][body.consumed..] == s[13 + body.consumed..];
      AnnouncedIs(s);
    }
  }

  lemma AnnouncedIs(s: seq<byte>)
    requires |s| >= 13
    ensures 0 <= LengthField(s) < RANGE32
    ensures (LengthField(s) - HEADER_SIZE) % RANGE32
         == if LengthField(s) >= 13 then LengthField(s) - 13 else LengthField(s) + 0xFFFF_FFF3
  {
  }

  // ----- Streams of frames ------------------------------------------------------------------------

  function EncodeAll<M>(f: Format<M>, ms: seq<M>): seq<byte> {
    if ms == [] then [] else Encode(f, ms[0]) + EncodeAll(f, ms[1..])
  }

  /** `n` calls of `decode`. */
  function DecodeTimes<M>(f: Format<M>, s: seq<byte>, n: nat): (seq<Option<M>>, seq<byte>)
    decreases n
  {
    if n == 0 then ([], s)
    else
      var d := Decode(f, s);
      var (more, rest) := DecodeTimes(f, d.rest, n - 1);
      ([d.message] + more, rest)
  }

  function Somes<M>(ms: seq<M>): seq<Option<M>> {
    if ms == [] then [] else [Some(ms[0])] + Somes(ms[1..])
  }

  ghost predicate AllReadBack<M(!new)>(f: Format<M>, ms: seq<M>) {
    ms == [] || (ReadsBack(f, ms[0]) && AllReadBack(f, ms[1..]))
  }

  /** Any messages back to back, followed by any bytes: as many decodes give the same messages and
      leave those bytes. */
  lemma {:induction false} StreamRoundTrip<M(!new)>(f: Format<M>, ms: seq<M>, rest: seq<byte>)
    requires AllReadBack(f, ms)
    ensures DecodeTimes(f, EncodeAll(f, ms) + rest, |ms|) == (Somes(ms), rest)
    decreases |ms|
  {
    hide Encode, Decode;
    if ms == [] {
      assert EncodeAll(f, ms) + rest == rest;
    } else {
      FrameRoundTrip(f, ms[0], EncodeAll(f, ms[1..]) + rest);
      assert EncodeAll(f, ms) + rest == Encode(f, ms[0]) + (EncodeAll(f, ms[1..]) + rest);
      StreamRoundTrip(f, ms[1..], rest);
    }
  }

  // ----- Incomplete frames ------------------------------------------------------------------------

  /** A null result leaves the buffer as it was exactly if not even a header is there. */
  lemma NullKeepsBufferIff<M>(f: Format<M>, s: seq<byte>)
    requires Decode(f, s).message.None?
    ensures Decode(f, s).rest == s <==> |s| < HEADER_SIZE
  {
    hide GetHeader;
    if |s| >= HEADER_SIZE {
      assert |Decode(f, s).rest| <= |s[HEADER_SIZE..]|;
    }
  }

  /** A format that retrieves what it is given at most, and gets no message out of fewer bytes than
      it would write for it. */
  ghost predicate Frugal<M(!new)>(f: Format<M>) {
    forall id, s :: EnoughRead(f, id, s)
  }

  ghost predicate EnoughRead<M>(f: Format<M>, id: bv32, s: seq<byte>) {
    var b := f.deserialize(id, s);
    b.message.Some? ==> |f.serialize(b.message.value)| <= b.consumed <= |s|
  }

  lemma DecodedLength<M(!new)>(f: Format<M>, s: seq<byte>, m: M)
    requires Frugal(f) && Decode(f, s).message == Some(m)
    ensures |Encode(f, m)| + |Decode(f, s).rest| <= |s|
  {
    hide GetHeader, PutHeader;
    var h, rest := GetHeader(s), s[HEADER_SIZE..];
    assert EnoughRead(f, h.messageId, rest);
  }

  /** What decoding the first `k` bytes of a frame leaves. */
  lemma FirstPart<M(!new)>(f: Format<M>, m: M, k: nat)
    requires HEADER_SIZE <= k < |Encode(f, m)| && |f.serialize(m)| < RANGE32
    ensures Decode(f, Encode(f, m)[..k]) == Decoded(None, Drop(f.serialize(m)[..k - HEADER_SIZE], HEADER_SIZE))
  {
    hide GetHeader, PutHeader;
    var body := f.serialize(m);
    var part := body[..k - HEADER_SIZE];
    assert Encode(f, m)[..k] == PutHeader(HEADER_SIZE + |body|, f.id(m)) + part;
    HeaderBack(HEADER_SIZE + |body|, f.id(m), part);
    AnnouncedBack(|body|);
  }

  /** A frame that arrives in two pieces, with a `decode` after each: the message comes out exactly if
      the cut is inside the header or at the end. */
  lemma SplitDeliveryIff<M(!new)>(f: Format<M>, m: M, k: nat)
    requires ReadsBack(f, m) && Frugal(f) && |f.serialize(m)| < RANGE32 && k <= |Encode(f, m)|
    ensures var first := Decode(f, Encode(f, m)[..k]);
            var second := Decode(f, first.rest + Encode(f, m)[k..]);
            (first.message == Some(m) || second.message == Some(m)) <==> k < HEADER_SIZE || k == |Encode(f, m)|
  {
    hide GetHeader, PutHeader;
    var frame := Encode(f, m);
    FrameRoundTrip(f, m, []);
    assert frame + [] == frame;
    if k < HEADER_SIZE {
      assert frame[..k] + frame[k..] == frame;
    } else if k == |frame| {
      assert frame[..k] == frame;
    } else {
      FirstPart(f, m, k);
      var t := Drop(f.serialize(m)[..k - HEADER_SIZE], HEADER_SIZE) + frame[k..];
      if Decode(f, t).message == Some(m) {
        DecodedLength(f, t, m);
      }
    }
  }

  // ----- Messages made of stream values -----------------------------------------------------------

  datatype Record = Record(id: bv32, fields: seq<Streams.Value>)

  function ReadRecord(schemas: map<bv32, seq<Streams.Kind>>, id: bv32, s: seq<byte>): Body<Record> {
    if id !in schemas then Body(None, 0)
    else
      match Streams.ReadAll(schemas[id], s)
      case Overrun => Body(None, |s|)
      case Parsed(fields, rest) =>
        Streams.ReadAllCanonical(schemas[id], s);
        Body(Some(Record(id, fields)), |s| - |rest|)
  }

  /** One schema of field kinds for each registered id. */
  function Records(schemas: map<bv32, seq<Streams.Kind>>): Format<Record> {
    Format((r: Record) => r.id,
           (r: Record) => Streams.PutAll(r.fields),
           (id: bv32) => id in schemas,
           (id: bv32, s: seq<byte>) => ReadRecord(schemas, id, s))
  }

  /** Such messages meet the demands above: they read back if they follow their schema and their
      strings are under 65536 bytes, and no message comes out of fewer bytes than it is written in. */
  lemma RecordReadsBack(schemas: map<bv32, seq<Streams.Kind>>, r: Record)
    requires r.id in schemas && schemas[r.id] == Streams.Kinds(r.fields) && Streams.AllFit(r.fields)
    ensures ReadsBack(Records(schemas), r)
  {
    forall rest: seq<byte>
      ensures ReadRecord(schemas, r.id, Streams.PutAll(r.fields) + rest)
           == Body(Some(r), |Streams.PutAll(r.fields)|)
    {
      Streams.ReadAllBack(r.fields, rest);
    }
  }

  lemma RecordsFrugal(schemas: map<bv32, seq<Streams.Kind>>)
    ensures Frugal(Records(schemas))
  {
    var f := Records(schemas);
    forall id, s
      ensures EnoughRead(f, id, s)
    {
      if id in schemas && Streams.ReadAll(schemas[id], s).Parsed? {
        Streams.ReadAllCanonical(schemas[id], s);
      }
    }
  }

  lemma Joined(before: seq<byte>, a: seq<byte>, b: seq<byte>, c: seq<byte>, d: seq<byte>)
    ensures before + a + b + c + d == before + (a + b + c + d)
  {
  }

  // ----- The codec --------------------------------------------------------------------------------

  class DefaultCodec<M> {
    const format: Format<M>

    constructor (format: Format<M>)
      ensures this.format == format
    {
      this.format := format;
    }

    /** `MessageHeader::serialize`. */
    method WriteHeader(buffer: Buffer, length: nat, id: bv32)
      requires buffer.Valid()
      modifies buffer, buffer.data
      ensures buffer.Valid() && (buffer.data == old(buffer.data) || fresh(buffer.data))
      ensures buffer.Contents() == old(buffer.Contents()) + PutHeader(length, id)
    {
      hide Put32, Word32;
      ghost var before := buffer.Contents();
      buffer.WriteUInt32(MAGIC_NUMBER);
      buffer.Append([PROTOCOL_VERSION]);
      buffer.WriteUInt32(Word32(length));
      buffer.WriteUInt32(id);
      Joined(before, Put32(MAGIC_NUMBER), [PROTOCOL_VERSION], Put32(Word32(length)), Put32(id));
    }

    method EncodeTo(m: M, buffer: Buffer)
      requires buffer.Valid()
      modifies buffer, buffer.data
      ensures buffer.Valid() && (buffer.data == old(buffer.data) || fresh(buffer.data))
      ensures buffer.Contents() == old(buffer.Contents()) + Encode(format, m)
    {
      hide PutHeader, Encode;
      ghost var before := buffer.Contents();
      var bodyBuffer := new Buffer(INITIAL_SIZE);
      bodyBuffer.Append(format.serialize(m));
      var body := bodyBuffer.RetrieveAllAsString();
      WriteHeader(buffer, HEADER_SIZE + |body|, format.id(m));
      buffer.Append(body);
      EncodedParts(before, m);
    }

    lemma EncodedParts(before: seq<byte>, m: M)
      ensures var body := format.serialize(m);
              before + PutHeader(HEADER_SIZE + |body|, format.id(m)) + body == before + Encode(format, m)
    {
      hide PutHeader;
    }

    /** `MessageHeader::deserialize`. */
    method ReadHeader(buffer: Buffer) returns (h: Header)
      requires buffer.Valid() && |buffer.Contents()| >= HEADER_SIZE
      modifies buffer`reader, buffer`writer
      ensures buffer.Valid() && h == GetHeader(old(buffer.Contents()))
      ensures buffer.Contents() == old(buffer.Contents())[HEADER_SIZE..]
    {
      hide Put32, Number32, GetHeader;
      var magic := buffer.ReadUInt32();
      var version := buffer.RetrieveAsString(1);
      var length := buffer.ReadUInt32();
      var id := buffer.ReadUInt32();
      assert version == [version[0]];
      HeaderParts(magic, version[0], length, id, buffer.Contents());
      h := Header(magic, version[0], Number32(length), id);
    }

    method DecodeFrom(buffer: Buffer) returns (message: Option<M>)
      requires buffer.Valid()
      modifies buffer`reader, buffer`writer
      ensures buffer.Valid()
      ensures Decode(format, old(buffer.Contents())) == Decoded(message, buffer.Contents())
    {
      hide GetHeader;
      if buffer.Readable() < HEADER_SIZE {
        return None;
      }
      var oldReadable := buffer.Readable();
      var h := ReadHeader(buffer);
      if !Acceptable(h) {
        return None;
      }
      if buffer.Readable() < Announced(h) {
        buffer.Retrieve(oldReadable - buffer.Readable());
        return None;
      }
      if !format.registered(h.messageId) {
        return None;
      }
      var body := format.deserialize(h.messageId, buffer.data[buffer.reader..buffer.writer]);
      buffer.Retrieve(body.consumed);
      message := body.message;
    }
  }
}
