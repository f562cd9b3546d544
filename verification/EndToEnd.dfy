/** Messages over a connection: what the codec frames and the connection sends is what the other end
    decodes.
  */
module EndToEnd {
  import opened Bytes
  import Codec
  import Connection

  /** The frames of `ms` are the payloads that were processed, in order. */
  ghost predicate Frames<M(!new)>(f: Codec.Format<M>, ps: seq<Connection.Payload>, ms: seq<M>) {
    && |ps| == |ms|
    && forall i :: 0 <= i < |ms| ==> ps[i].data == Codec.Encode(f, ms[i]) && Codec.ReadsBack(f, ms[i])
  }

  /** The messages whose frames were not dropped. */
  function KeptMessages<M>(ps: seq<Connection.Payload>, ms: seq<M>): seq<M>
    requires |ps| == |ms|
  {
    if ps == [] then []
    else
      KeptMessages(ps[..|ps| - 1], ms[..|ms| - 1])
      + if ps[|ps| - 1].fate.Kept? then [ms[|ms| - 1]] else []
  }

  lemma {:induction false} EncodeAllSnoc<M>(f: Codec.Format<M>, ms: seq<M>, m: M)
    ensures Codec.EncodeAll(f, ms + [m]) == Codec.EncodeAll(f, ms) + Codec.Encode(f, m)
  {
    hide Codec.Encode;
    if ms == [] {
      assert ms + [m] == [m] && [m][1..] == [];
    } else {
      assert (ms + [m])[1..] == ms[1..] + [m];
      EncodeAllSnoc(f, ms[1..], m);
    }
  }

  lemma {:induction false} AllReadBackSnoc<M(!new)>(f: Codec.Format<M>, ms: seq<M>, m: M)
    requires Codec.AllReadBack(f, ms) && Codec.ReadsBack(f, m)
    ensures Codec.AllReadBack(f, ms + [m])
  {
    if ms == [] {
      assert ms + [m] == [m] && [m][1..] == [];
    } else {
      assert (ms + [m])[1..] == ms[1..] + [m];
      AllReadBackSnoc(f, ms[1..], m);
    }
  }

  /** The bytes of the kept payloads are the frames of the kept messages, back to back. */
  lemma {:induction false} KeptFrames<M(!new)>(f: Codec.Format<M>, ps: seq<Connection.Payload>, ms: seq<M>)
    requires Frames(f, ps, ms)
    ensures Connection.KeptBytes(ps) == Codec.EncodeAll(f, KeptMessages(ps, ms))
    ensures Codec.AllReadBack(f, KeptMessages(ps, ms))
    decreases |ps|
  {
    hide Codec.Encode;
    if ps != [] {
      var n := |ps| - 1;
      KeptFrames(f, ps[..n], ms[..n]);
      var kept := KeptMessages(ps[..n], ms[..n]);
      if ps[n].fate.Kept? {
        EncodeAllSnoc(f, kept, ms[n]);
        AllReadBackSnoc(f, kept, ms[n]);
      } else {
        assert kept + [] == kept;
      }
    }
  }

  /** Over every run of the connection, with any short writes and errors: what is on the wire and
      still buffered decodes to the messages whose frames were not dropped whole, in the order they
      were sent, and to nothing else. */
  lemma FramesArriveInOrder<M(!new)>(
    c: Connection.Config, steps: seq<Connection.Step>, f: Codec.Format<M>, ms: seq<M>)
    requires Frames(f, Connection.Run(c, Connection.INITIAL, steps).processed, ms)
    ensures var s := Connection.Run(c, Connection.INITIAL, steps);
            var kept := KeptMessages(s.processed, ms);
            Codec.DecodeTimes(f, s.wire + s.out, |kept|) == (Codec.Somes(kept), [])
  {
    hide Codec.Encode, Codec.Decode;
    var s := Connection.Run(c, Connection.INITIAL, steps);
    var kept := KeptMessages(s.processed, ms);
    Connection.ByteStreamConservation(c, steps);
    KeptFrames(f, s.processed, ms);
    Codec.StreamRoundTrip(f, kept, []);
    assert Codec.EncodeAll(f, kept) + [] == Codec.EncodeAll(f, kept);
  }

  /** `n` decodes that all succeed have taken at least the frames of their messages. */
  lemma {:induction false} DecodedLengths<M(!new)>(f: Codec.Format<M>, s: seq<byte>, ms: seq<M>)
    requires Codec.Frugal(f) && Codec.DecodeTimes(f, s, |ms|).0 == Codec.Somes(ms)
    ensures |Codec.EncodeAll(f, ms)| <= |s|
    decreases |ms|
  {
    hide Codec.Encode, Codec.Decode;
    if ms != [] {
      var d := Codec.Decode(f, s);
      var (more, rest) := Codec.DecodeTimes(f, d.rest, |ms| - 1);
      assert Codec.Somes(ms) == [d.message] + more;
      assert Codec.Somes(ms)[0] == d.message && Codec.Somes(ms)[1..] == more;
      assert Codec.Somes(ms)[1..] == Codec.Somes(ms[1..]);
      Codec.DecodedLength(f, s, ms[0]);
      DecodedLengths(f, d.rest, ms[1..]);
    }
  }

  /** And at a half-close of a connection that is not disconnected the wire alone does - the peer that
      reads to the end of the stream gets every message that was processed and not dropped -
      if the write interest was right, which only a late store can break; and only then, if messages
      cannot come out of fewer bytes than they are written in. */
  lemma HalfCloseDeliversMessages<M(!new)>(
    c: Connection.Config, steps: seq<Connection.Step>, step: Connection.Step, f: Codec.Format<M>, ms: seq<M>)
    requires var s := Connection.Run(c, Connection.INITIAL, steps);
             var n := Connection.Next(c, s, step);
             && Frames(f, n.processed, ms)
             && n.halfCloses > s.halfCloses && !n.state.Disconnected?
    ensures var s := Connection.Run(c, Connection.INITIAL, steps);
            var n := Connection.Next(c, s, step);
            var kept := KeptMessages(n.processed, ms);
            var delivered := Codec.DecodeTimes(f, n.wire, |kept|) == (Codec.Somes(kept), []);
            && (Connection.WriteRight(s) ==> delivered)
            && (Codec.Frugal(f) ==> (delivered <==> Connection.WriteRight(s)))
            && (s.late == 0 ==> Connection.WriteRight(s))
  {
    hide Connection.Next, Connection.Run, Connection.WriteRight, Codec.Encode, Codec.Decode;
    var n := Connection.Next(c, Connection.Run(c, Connection.INITIAL, steps), step);
    var kept := KeptMessages(n.processed, ms);
    Connection.DrainBeforeHalfClose(c, steps, step);
    Connection.RunSnoc(c, Connection.INITIAL, steps, step);
    FramesArriveInOrder(c, steps + [step], f, ms);
    Connection.ByteStreamConservation(c, steps + [step]);
    KeptFrames(f, n.processed, ms);
    if n.out == [] {
      assert n.wire + [] == n.wire;
    } else if Codec.Frugal(f) && Codec.DecodeTimes(f, n.wire, |kept|) == (Codec.Somes(kept), []) {
      DecodedLengths(f, n.wire, kept);
    }
  }
}
