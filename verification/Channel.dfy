/** The interest bits of a channel. Reading stands for two poll events and writing for one, yet the
    channel behaves as two independent switches, which is how `Connection` models it.
  */
module Channel {
  const NONE_EVENT: bv32 := 0
  /** EPOLLIN and EPOLLPRI. */
  const READ_EVENT: bv32 := 0x003
  /** EPOLLOUT. */
  const WRITE_EVENT: bv32 := 0x004

  /** The bits for a pair of switches. */
  function Bits(reading: bool, writing: bool): bv32 {
    (if reading then READ_EVENT else 0) | (if writing then WRITE_EVENT else 0)
  }

  class Channel {
    var events: bv32

    /** Only whole groups of bits are ever set. */
    ghost predicate Valid()
      reads this
    {
      events == Bits(IsReading(), IsWriting())
    }

    constructor ()
      ensures Valid() && !IsReading() && !IsWriting()
    {
      events := 0;
    }

    predicate IsReading()
      reads this
    {
      events & READ_EVENT != 0
    }

    predicate IsWriting()
      reads this
    {
      events & WRITE_EVENT != 0
    }

    predicate IsNoneEvent()
      reads this
    {
      events == NONE_EVENT
    }

    /** No interest is left exactly if both switches are off. */
    lemma NoneIff()
      requires Valid()
      ensures IsNoneEvent() <==> !IsReading() && !IsWriting()
    {
      assert Bits(false, false) == 0;
    }

    method EnableReading()
      requires Valid()
      modifies this
      ensures Valid() && IsReading() && IsWriting() == old(IsWriting()) && events == old(events) | 0x003
    {
      events := events | READ_EVENT;
    }

    method DisableReading()
      requires Valid()
      modifies this
      ensures Valid() && !IsReading() && IsWriting() == old(IsWriting()) && events == old(events) & !0x003
    {
      events := events & !READ_EVENT;
    }

    method EnableWriting()
      requires Valid()
      modifies this
      ensures Valid() && IsWriting() && IsReading() == old(IsReading()) && events == old(events) | 0x004
    {
      events := events | WRITE_EVENT;
    }

    method DisableWriting()
      requires Valid()
      modifies this
      ensures Valid() && !IsWriting() && IsReading() == old(IsReading()) && events == old(events) & !0x004
    {
      events := events & !WRITE_EVENT;
    }

    method DisableAll()
      requires Valid()
      modifies this
      ensures Valid() && !IsReading() && !IsWriting() && events == 0
    {
      events := NONE_EVENT;
    }
  }
}
