/** The network buffer: an array with a read and a write index, room for a prefix in front, and
    compaction or growth when the tail is too small. It stands for a queue of bytes.
  */
module Buffer {
  import opened Bytes
  import opened Wire

  const CHEAP_PREPEND: nat := 8
  const INITIAL_SIZE: nat := 1024
  const EXTRA_SIZE: nat := 65536

  class Buffer {
    var data: array<byte>
    var reader: nat
    var writer: nat

    ghost predicate Valid()
      reads this
    {
      reader <= writer <= data.Length && CHEAP_PREPEND <= data.Length
    }

    /** The readable bytes. */
    ghost function Contents(): (s: seq<byte>)
      requires Valid()
      reads this, data
      ensures |s| == writer - reader
    {
      data[reader..writer]
    }

    constructor (initialSize: nat)
      ensures Valid() && fresh(data) && Contents() == [] && Writable() == initialSize && reader == 8
    {
      data := new byte[CHEAP_PREPEND + initialSize];
      reader, writer := CHEAP_PREPEND, CHEAP_PREPEND;
    }

    function Readable(): int
      reads this
    {
      writer - reader
    }

    function Writable(): int
      reads this
    {
      data.Length - writer
    }

    // ----- Taking from the front ------------------------------------------------------------------

    method RetrieveAll()
      requires Valid()
      modifies this`reader, this`writer
      ensures Valid() && Contents() == []
    {
      reader, writer := CHEAP_PREPEND, CHEAP_PREPEND;
    }

    /** Drops `len` bytes, or all there are. */
    method Retrieve(len: nat)
      requires Valid()
      modifies this`reader, this`writer
      ensures Valid()
      ensures Contents() == if len < |old(Contents())| then old(Contents())[len..] else []
    {
      if len < Readable() {
        reader := reader + len;
      } else {
        RetrieveAll();
      }
    }

    /** The source reads `len` bytes from the read index on, so they must be there. */
    method RetrieveAsString(len: nat) returns (result: seq<byte>)
      requires Valid() && len <= |Contents()|
      modifies this`reader, this`writer
      ensures Valid() && result + Contents() == old(Contents()) && |result| == len
    {
      result := data[reader..reader + len];
      Retrieve(len);
    }

    method RetrieveAllAsString() returns (result: seq<byte>)
      requires Valid()
      modifies this`reader, this`writer
      ensures Valid() && result == old(Contents()) && Contents() == []
    {
      result := RetrieveAsString(Readable());
    }

    // ----- Making room ----------------------------------------------------------------------------

    /** `resize`: a larger array with the same bytes in front. */
    method Grow(size: nat)
      requires Valid() && size >= data.Length
      modifies this`data
      ensures Valid() && fresh(data) && data.Length == size && Contents() == old(Contents())
    {
      var larger := new byte[size];
      var i := 0;
      while i < data.Length
        invariant 0 <= i <= data.Length && data == old(data) && data[..] == old(data[..])
        invariant forall k :: 0 <= k < i ==> larger[k] == data[k]
      {
        larger[i] := data[i];
        i := i + 1;
      }
      SameSlice(data, larger, reader, writer);
      data := larger;
    }

    static lemma SameSlice(a: array<byte>, b: array<byte>, from: nat, to: nat)
      requires from <= to <= a.Length <= b.Length
      requires forall k :: 0 <= k < a.Length ==> b[k] == a[k]
      ensures b[from..to] == a[from..to]
    {
      forall k | 0 <= k < to - from
        ensures b[from..to][k] == a[from..to][k]
      {
      }
    }

    /** The forward copy to the front. The ranges may overlap; because the target is in front of the
        source, no byte is overwritten before it has been copied. */
    method Compact()
      requires Valid() && reader > CHEAP_PREPEND
      modifies this`reader, this`writer, data
      ensures Valid() && Contents() == old(Contents())
      ensures reader == CHEAP_PREPEND && Writable() == old(Writable()) + old(reader) - CHEAP_PREPEND
    {
      var readable, source := writer - reader, reader;
      ghost var all := data[reader..writer];
      var i := 0;
      while i < readable
        invariant 0 <= i <= readable && reader == source && writer == source + readable
        invariant data[CHEAP_PREPEND..CHEAP_PREPEND + i] == all[..i]
        invariant data[source + i..source + readable] == all[i..]
      {
        CopyByte(source, i, readable, all);
        i := i + 1;
      }
      reader := CHEAP_PREPEND;
      writer := CHEAP_PREPEND + readable;
    }

    /** One step of that copy: the byte at the front of what is left goes to the end of what is done. */
    method CopyByte(source: nat, i: nat, readable: nat, ghost all: seq<byte>)
      requires CHEAP_PREPEND < source && i < readable == |all| && source + readable <= data.Length
      requires data[CHEAP_PREPEND..CHEAP_PREPEND + i] == all[..i]
      requires data[source + i..source + readable] == all[i..]
      modifies data
      ensures data[CHEAP_PREPEND..CHEAP_PREPEND + i + 1] == all[..i + 1]
      ensures data[source + i + 1..source + readable] == all[i + 1..]
    {
      ghost var rest := data[source + i..source + readable];
      ghost var done := data[CHEAP_PREPEND..CHEAP_PREPEND + i];
      assert rest[0] == all[i] && all[..i] + [all[i]] == all[..i + 1] && all[i..][1..] == all[i + 1..];
      data[CHEAP_PREPEND + i] := data[source + i];
      assert data[CHEAP_PREPEND..CHEAP_PREPEND + i + 1] == done + [all[i]];
      assert data[source + i + 1..source + readable] == rest[1..];
    }

    /** There is always enough room afterwards, and it compacts only when the read index is above
        the reserve. */
    method MakeSpace(len: nat)
      requires Valid() && Writable() < len
      modifies this, data
      ensures Valid() && (data == old(data) || fresh(data))
      ensures Contents() == old(Contents()) && Writable() >= len
    {
      if Writable() + reader < len + CHEAP_PREPEND {
        Grow(writer + len);
      } else {
        Compact();
      }
    }

    method EnsureWritable(len: nat)
      requires Valid()
      modifies this, data
      ensures Valid() && (data == old(data) || fresh(data))
      ensures Contents() == old(Contents()) && Writable() >= len
      ensures old(Writable()) >= len ==> data == old(data) && writer == old(writer)
    {
      if Writable() < len {
        MakeSpace(len);
      }
    }

    // ----- Adding at the ends ---------------------------------------------------------------------

    /** Fills the tail and moves the write index past it. */
    method Fill(bytes: seq<byte>)
      requires Valid() && |bytes| <= Writable()
      modifies this`writer, data
      ensures Valid() && Contents() == old(Contents()) + bytes
      ensures writer == old(writer) + |bytes| && reader == old(reader)
    {
      forall k | 0 <= k < |bytes| {
        data[writer + k] := bytes[k];
      }
      writer := writer + |bytes|;
    }

    method Append(bytes: seq<byte>)
      requires Valid()
      modifies this, data
      ensures Valid() && (data == old(data) || fresh(data))
      ensures Contents() == old(Contents()) + bytes
      ensures old(Writable()) >= |bytes| ==> data == old(data) && Writable() == old(Writable()) - |bytes|
    {
      EnsureWritable(|bytes|);
      Fill(bytes);
    }

    /** The source does not check that the prefix fits. */
    method Prepend(bytes: seq<byte>)
      requires Valid() && |bytes| <= reader
      modifies this`reader, data
      ensures Valid() && Contents() == bytes + old(Contents())
    {
      reader := reader - |bytes|;
      forall k | 0 <= k < |bytes| {
        data[reader + k] := bytes[k];
      }
    }

    // ----- Integers -------------------------------------------------------------------------------

    method WriteUInt32(value: bv32)
      requires Valid()
      modifies this, data
      ensures Valid() && (data == old(data) || fresh(data))
      ensures Contents() == old(Contents()) + Put32(value)
    {
      Append(Put32(value));
    }

    method PeekUInt32() returns (value: bv32)
      requires Valid() && |Contents()| >= 4
      ensures value == Get32(Contents()[..4])
    {
      assert Contents()[..4] == data[reader..reader + 4];
      value := Get32(data[reader..reader + 4]);
    }

    /** Whatever value was written at the front is read, and just its bytes are consumed. */
    method ReadUInt32() returns (value: bv32)
      requires Valid() && |Contents()| >= 4
      modifies this`reader, this`writer
      ensures Valid() && Put32(value) + Contents() == old(Contents())
    {
      value := PeekUInt32();
      Wire32(value, Contents()[..4]);
      Retrieve(4);
    }

    // ----- Whole buffers --------------------------------------------------------------------------

    method Swap(other: Buffer)
      requires Valid() && other.Valid()
      modifies this, other
      ensures Valid() && other.Valid()
      ensures data == old(other.data) && reader == old(other.reader) && writer == old(other.writer)
      ensures other.data == old(data) && other.reader == old(reader) && other.writer == old(writer)
    {
      data, other.data := other.data, data;
      reader, other.reader := other.reader, reader;
      writer, other.writer := other.writer, writer;
    }

    /** The same bytes in an array of their own, with at least `reserve` bytes of room. */
    method Shrink(reserve: nat)
      requires Valid()
      modifies this
      ensures Valid() && fresh(data) && Contents() == old(Contents()) && Writable() >= reserve
    {
      var other := new Buffer(INITIAL_SIZE);
      other.EnsureWritable(Readable() + reserve);
      other.Append(data[reader..writer]);
      Swap(other);
    }

    /** `readv` into the tail and a spill area: `incoming` is what it read (at most what both hold), or
        nothing if it failed. */
    method ReadFd(incoming: seq<byte>, fails: bool) returns (n: int)
      requires Valid() && |incoming| <= Writable() + EXTRA_SIZE
      modifies this, data
      ensures Valid() && (data == old(data) || fresh(data))
      ensures Contents() == if fails then old(Contents()) else old(Contents()) + incoming
      ensures n == if fails then -1 else |incoming|
    {
      if fails {
        return -1;
      }
      n := |incoming|;
      var writable := Writable();
      if n <= writable {
        Fill(incoming);
      } else {
        Fill(incoming[..writable]);
        Append(incoming[writable..]);
        assert incoming[..writable] + incoming[writable..] == incoming;
      }
    }
  }
}
