/** Frames that arrive in pieces: the receiver appends each piece to its buffer and decodes until it
    gets null.
  */
module Delivery {
  import opened Bytes
  import opened Options
  import opened Codec
  import Wire

  lemma MessageShrinks<M>(f: Format<M>, s: seq<byte>)
    requires Decode(f, s).message.Some?
    ensures |Decode(f, s).rest| < |s|
  {
    hide GetHeader;
  }

  /** Decoding until null: the messages, and what is left. */
  function DecodeAll<M>(f: Format<M>, s: seq<byte>): (seq<M>, seq<byte>)
    decreases |s|
  {
    var d := Decode(f, s);
    match d.message
    case None => ([], d.rest)
    case Some(m) =>
      MessageShrinks(f, s);
      var (more, rest) := DecodeAll(f, d.rest);
      ([m] + more, rest)
  }

  /** The messages from a series of pieces, with `buffered` left over from before. */
  function Receive<M>(f: Format<M>, buffered: seq<byte>, pieces: seq<seq<byte>>): seq<M>
    decreases |pieces|
  {
    if pieces == [] then []
    else
      var (ms, rest) := DecodeAll(f, buffered + pieces[0]);
      ms + Receive(f, rest, pieces[1..])
  }

  function Joined(pieces: seq<seq<byte>>): seq<byte> {
    if pieces == [] then [] else pieces[0] + Joined(pieces[1..])
  }

  // ----- Positions in a stream of frames ----------------------------------------------------------

  /** How many whole frames the first `n` bytes hold, and how far they reach into the next one. */
  function Whole<M>(f: Format<M>, ms: seq<M>, n: nat): nat
    decreases |ms|
  {
    if ms == [] || n < |Encode(f, ms[0])| then 0 else 1 + Whole(f, ms[1..], n - |Encode(f, ms[0])|)
  }

  function Into<M>(f: Format<M>, ms: seq<M>, n: nat): nat
    decreases |ms|
  {
    if ms == [] || n < |Encode(f, ms[0])| then n else Into(f, ms[1..], n - |Encode(f, ms[0])|)
  }

  /** A cut after `n` bytes is harmless: it falls between frames or inside a header. */
  predicate SafeCut<M>(f: Format<M>, ms: seq<M>, n: nat) {
    Into(f, ms, n) < HEADER_SIZE
  }

  /** All the pieces, the first of which begins after `n` bytes, end at harmless cuts. */
  predicate SafeCuts<M>(f: Format<M>, ms: seq<M>, n: nat, pieces: seq<seq<byte>>)
    decreases |pieces|
  {
    pieces == [] || (SafeCut(f, ms, n + |pieces[0]|) && SafeCuts(f, ms, n + |pieces[0]|, pieces[1..]))
  }

  /** The n-th byte of the stream, seen from the frame it is in. */
  lemma {:induction false} Position<M>(f: Format<M>, ms: seq<M>, n: nat)
    requires n <= |EncodeAll(f, ms)|
    ensures var j, k := Whole(f, ms, n), Into(f, ms, n);
            j <= |ms| && k <= n && EncodeAll(f, ms)[n - k..] == EncodeAll(f, ms[j..])
    decreases |ms|
  {
    hide Encode;
    if ms != [] && n >= |Encode(f, ms[0])| {
      var e := Encode(f, ms[0]);
      Position(f, ms[1..], n - |e|);
      var j, k := Whole(f, ms, n), Into(f, ms, n);
      assert ms[1..][j - 1..] == ms[j..];
      assert EncodeAll(f, ms)[n - k..] == EncodeAll(f, ms[1..])[n - |e| - k..];
    }
  }

  /** A later position, seen from there. */
  lemma {:induction false} LaterPosition<M>(f: Format<M>, ms: seq<M>, n: nat, later: nat)
    requires n <= |EncodeAll(f, ms)|
    ensures var j, k := Whole(f, ms, n), Into(f, ms, n);
            j <= |ms| && k <= n && Into(f, ms, n + later) == Into(f, ms[j..], k + later)
    decreases |ms|
  {
    hide Encode;
    if ms != [] && n >= |Encode(f, ms[0])| {
      LaterPosition(f, ms[1..], n - |Encode(f, ms[0])|, later);
      assert ms[1..][Whole(f, ms, n) - 1..] == ms[Whole(f, ms, n)..];
    }
  }

  lemma {:induction false} LaterCuts<M>(f: Format<M>, ms: seq<M>, n: nat, later: nat, pieces: seq<seq<byte>>)
    requires n <= |EncodeAll(f, ms)|
    ensures var j, k := Whole(f, ms, n), Into(f, ms, n);
            j <= |ms| && k <= n && (SafeCuts(f, ms, n + later, pieces) <==> SafeCuts(f, ms[j..], k + later, pieces))
    decreases |pieces|
  {
    LaterPosition(f, ms, n, later);
    if pieces != [] {
      LaterPosition(f, ms, n, later + |pieces[0]|);
      LaterCuts(f, ms, n, later + |pieces[0]|, pieces[1..]);
    }
  }

  // ----- What the decodes take --------------------------------------------------------------------

  ghost predicate AllShort<M>(f: Format<M>, ms: seq<M>) {
    ms == [] || (|f.serialize(ms[0])| < Wire.RANGE32 && AllShort(f, ms[1..]))
  }

  lemma DecodeAllFrame<M(!new)>(f: Format<M>, m: M, t: seq<byte>)
    requires ReadsBack(f, m)
    ensures DecodeAll(f, Encode(f, m) + t) == ([m] + DecodeAll(f, t).0, DecodeAll(f, t).1)
  {
    FrameRoundTrip(f, m, t);
    hide Encode, Decode, ReadsBack;
    assert Decode(f, Encode(f, m) + t) == Decoded(Some(m), t);
  }

  /** Decoding `t`, a beginning of a stream of frames, gives the whole frames in it. A beginning of a
      header stays; of a longer beginning at least the length of a header is lost. */
  ghost predicate Begun<M>(f: Format<M>, ms: seq<M>, t: seq<byte>) {
    var j, k := Whole(f, ms, |t|), Into(f, ms, |t|);
    && j <= |ms| && k <= |t| && DecodeAll(f, t).0 == ms[..j]
    && (k < HEADER_SIZE ==> DecodeAll(f, t).1 == t[|t| - k..])
    && (k >= HEADER_SIZE ==> |DecodeAll(f, t).1| <= k - HEADER_SIZE)
  }

  lemma BegunNothing<M>(f: Format<M>)
    ensures Begun(f, [], [])
  {
    assert Decode(f, []) == Decoded(None, []);
  }

  lemma PastFirst<M>(f: Format<M>, ms: seq<M>, n: nat)
    requires ms != []
    ensures Whole(f, ms, |Encode(f, ms[0])| + n) == 1 + Whole(f, ms[1..], n)
    ensures Into(f, ms, |Encode(f, ms[0])| + n) == Into(f, ms[1..], n)
  {
    hide Encode;
  }

  lemma BegunFrame<M(!new)>(f: Format<M>, ms: seq<M>, t: seq<byte>)
    requires ms != [] && ReadsBack(f, ms[0]) && Begun(f, ms[1..], t)
    ensures Begun(f, ms, Encode(f, ms[0]) + t)
  {
    hide Encode, DecodeAll, ReadsBack, Whole, Into;
    DecodeAllFrame(f, ms[0], t);
    PastFirst(f, ms, |t|);
    var j, k := 1 + Whole(f, ms[1..], |t|), Into(f, ms[1..], |t|);
    assert [ms[0]] + ms[1..][..j - 1] == ms[..j];
    if k <= |t| {
      SameEnd(Encode(f, ms[0]), t, k);
    }
  }

  lemma SameEnd(first: seq<byte>, t: seq<byte>, k: nat)
    requires k <= |t|
    ensures (first + t)[|first + t| - k..] == t[|t| - k..]
  {
  }

  lemma {:induction false} DecodeBeginning<M(!new)>(f: Format<M>, ms: seq<M>, t: seq<byte>)
    requires AllReadBack(f, ms) && AllShort(f, ms) && t <= EncodeAll(f, ms)
    ensures Begun(f, ms, t)
    decreases |ms|
  {
    hide Encode, Begun, ReadsBack;
    if ms == [] {
      BegunNothing(f);
    } else if |t| < |Encode(f, ms[0])| {
      PartOfFrame(f, ms, t);
    } else {
      var e := Encode(f, ms[0]);
      var t' := t[|e|..];
      assert t == e + t' && t' <= EncodeAll(f, ms[1..]);
      DecodeBeginning(f, ms[1..], t');
      BegunFrame(f, ms, t');
    }
  }

  lemma PartOfFrame<M(!new)>(f: Format<M>, ms: seq<M>, t: seq<byte>)
    requires ms != [] && |t| < |Encode(f, ms[0])| && t <= EncodeAll(f, ms) && |f.serialize(ms[0])| < Wire.RANGE32
    ensures Begun(f, ms, t)
  {
    hide GetHeader, PutHeader;
    assert t == Encode(f, ms[0])[..|t|];
    if |t| >= HEADER_SIZE {
      FirstPart(f, ms[0], |t|);
    }
    assert t[|t| - |t|..] == t && ms[..0] == [];
  }

  lemma {:induction false} EncodeAllAppend<M>(f: Format<M>, a: seq<M>, b: seq<M>)
    ensures |EncodeAll(f, a + b)| == |EncodeAll(f, a)| + |EncodeAll(f, b)|
  {
    hide Encode;
    if a == [] {
      assert a + b == b;
    } else {
      assert (a + b)[1..] == a[1..] + b;
      EncodeAllAppend(f, a[1..], b);
    }
  }

  lemma {:induction false} DecodeAllTakes<M(!new)>(f: Format<M>, s: seq<byte>)
    requires Frugal(f)
    ensures |EncodeAll(f, DecodeAll(f, s).0)| + |DecodeAll(f, s).1| <= |s|
    decreases |s|
  {
    var d := Decode(f, s);
    match d.message
    case None => NullTakes(f, s);
    case Some(m) =>
      hide Encode, Decode;
      DecodedLength(f, s, m);
      MessageShrinks(f, s);
      DecodeAllTakes(f, d.rest);
      var more := DecodeAll(f, d.rest).0;
      assert ([m] + more)[1..] == more;
  }

  lemma NullTakes<M>(f: Format<M>, s: seq<byte>)
    ensures |Decode(f, s).rest| <= |s|
  {
    hide GetHeader;
  }

  /** The frames of what is received are no longer than what arrived. */
  lemma {:induction false} ReceiveTakes<M(!new)>(f: Format<M>, buffered: seq<byte>, pieces: seq<seq<byte>>)
    requires Frugal(f)
    ensures |EncodeAll(f, Receive(f, buffered, pieces))| <= |buffered| + |Joined(pieces)|
    decreases |pieces|
  {
    hide Encode, Decode, DecodeAll;
    if pieces != [] {
      var (ms, rest) := DecodeAll(f, buffered + pieces[0]);
      DecodeAllTakes(f, buffered + pieces[0]);
      ReceiveTakes(f, rest, pieces[1..]);
      EncodeAllAppend(f, ms, Receive(f, rest, pieces[1..]));
    }
  }

  // ----- The theorem ------------------------------------------------------------------------------

  lemma {:induction false} Later<M(!new)>(f: Format<M>, ms: seq<M>, j: nat)
    requires AllReadBack(f, ms) && AllShort(f, ms) && j <= |ms|
    ensures AllReadBack(f, ms[j..]) && AllShort(f, ms[j..])
    decreases |ms|
  {
    if j > 0 {
      Later(f, ms[1..], j - 1);
      assert ms[1..][j - 1..] == ms[j..];
    } else {
      assert ms[j..] == ms;
    }
  }

  /** Any messages, their frames back to back, cut into any pieces: all of them come out, in order, if
      and only if every cut falls between frames or inside a header. */
  lemma PiecewiseDeliveryIff<M(!new)>(f: Format<M>, ms: seq<M>, pieces: seq<seq<byte>>)
    requires AllReadBack(f, ms) && AllShort(f, ms) && Frugal(f)
    requires Joined(pieces) == EncodeAll(f, ms)
    ensures Receive(f, [], pieces) == ms <==> SafeCuts(f, ms, 0, pieces)
  {
    assert [] + Joined(pieces) == Joined(pieces);
    PiecesIff(f, [], ms, pieces);
  }

  /** The first piece: what it gives, and what is then to come. */
  lemma FirstPieceReceived<M>(f: Format<M>, buffered: seq<byte>, ms: seq<M>, pieces: seq<seq<byte>>, j: nat)
    requires pieces != [] && j <= |ms| && DecodeAll(f, buffered + pieces[0]).0 == ms[..j]
    ensures Receive(f, buffered, pieces) == ms
       <==> Receive(f, DecodeAll(f, buffered + pieces[0]).1, pieces[1..]) == ms[j..]
  {
    hide DecodeAll;
    SamePrefix(ms[..j], Receive(f, DecodeAll(f, buffered + pieces[0]).1, pieces[1..]), ms[j..]);
    assert ms == ms[..j] + ms[j..];
  }

  lemma FirstPieceCut<M>(f: Format<M>, n: nat, ms: seq<M>, pieces: seq<seq<byte>>)
    requires pieces != [] && n + |pieces[0]| <= |EncodeAll(f, ms)|
    ensures var j, k := Whole(f, ms, n + |pieces[0]|), Into(f, ms, n + |pieces[0]|);
            j <= |ms| && (SafeCuts(f, ms, n, pieces) <==> k < HEADER_SIZE && SafeCuts(f, ms[j..], k, pieces[1..]))
  {
    hide Encode, EncodeAll;
    LaterCuts(f, ms, n + |pieces[0]|, 0, pieces[1..]);
  }

  lemma NoPieces<M>(f: Format<M>, buffered: seq<byte>, ms: seq<M>)
    requires |buffered| < HEADER_SIZE && buffered == EncodeAll(f, ms)
    ensures ms == []
  {
  }

  lemma EndsAlike(t: seq<byte>, later: seq<byte>, k: nat)
    requires k <= |t|
    ensures (t + later)[|t| - k..] == t[|t| - k..] + later
  {
  }

  lemma {:induction false} PiecesIff<M(!new)>(f: Format<M>, buffered: seq<byte>, ms: seq<M>, pieces: seq<seq<byte>>)
    requires AllReadBack(f, ms) && AllShort(f, ms) && Frugal(f)
    requires |buffered| < HEADER_SIZE && buffered + Joined(pieces) == EncodeAll(f, ms)
    ensures Receive(f, buffered, pieces) == ms <==> SafeCuts(f, ms, |buffered|, pieces)
    decreases |pieces|
  {
    if pieces == [] {
      assert buffered + [] == buffered;
      NoPieces(f, buffered, ms);
    } else {
      hide *;
      var t, later := buffered + pieces[0], Joined(pieces[1..]);
      JoinedFirst(buffered, pieces);
      DecodeBeginning(f, ms, t);
      OnePiece(f, buffered, ms, pieces, t, later);
      var j, k := Whole(f, ms, |t|), Into(f, ms, |t|);
      if k < HEADER_SIZE {
        PiecesIff(f, DecodeAll(f, t).1, ms[j..], pieces[1..]);
      } else {
        ReceiveTakes(f, DecodeAll(f, t).1, pieces[1..]);
      }
    }
  }

  lemma JoinedFirst(buffered: seq<byte>, pieces: seq<seq<byte>>)
    requires pieces != []
    ensures buffered + pieces[0] + Joined(pieces[1..]) == buffered + Joined(pieces)
  {
  }

  /** What is true after one piece. */
  lemma OnePiece<M(!new)>(
    f: Format<M>, buffered: seq<byte>, ms: seq<M>, pieces: seq<seq<byte>>, t: seq<byte>, later: seq<byte>)
    requires AllReadBack(f, ms) && AllShort(f, ms)
    requires pieces != [] && t == buffered + pieces[0] && later == Joined(pieces[1..])
    requires t + later == EncodeAll(f, ms) && Begun(f, ms, t)
    ensures var j, k, rest := Whole(f, ms, |t|), Into(f, ms, |t|), DecodeAll(f, t).1;
            && j <= |ms| && k <= |t|
            && AllReadBack(f, ms[j..]) && AllShort(f, ms[j..])
            && (k < HEADER_SIZE ==> |rest| == k && rest + later == EncodeAll(f, ms[j..]))
            && (k >= HEADER_SIZE ==> |rest| + |later| < |EncodeAll(f, ms[j..])|)
            && (Receive(f, buffered, pieces) == ms <==> Receive(f, rest, pieces[1..]) == ms[j..])
            && (SafeCuts(f, ms, |buffered|, pieces) <==> k < HEADER_SIZE && SafeCuts(f, ms[j..], k, pieces[1..]))
  {
    hide Encode, DecodeAll, AllReadBack, AllShort, Whole, Into, SafeCuts, Receive, EncodeAll;
    var j, k := Whole(f, ms, |t|), Into(f, ms, |t|);
    FirstPieceReceived(f, buffered, ms, pieces, j);
    FirstPieceCut(f, |buffered|, ms, pieces);
    Position(f, ms, |t|);
    Later(f, ms, j);
    EndsAlike(t, later, k);
  }

  lemma SamePrefix<T>(a: seq<T>, b: seq<T>, c: seq<T>)
    ensures a + b == a + c <==> b == c
  {
    if a + b == a + c {
      assert (a + b)[|a|..] == b && (a + c)[|a|..] == c;
    }
  }
}
