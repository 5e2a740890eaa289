// What a byte stream means to the deframer: the one way to cut it into noise,
// rejected candidates, accepted frames and a pending tail.

module Framing {
  import opened Bytes

  datatype Frame = Frame(command: byte, payload: seq<byte>, raw: seq<byte>)

  datatype Piece = Noise(b: byte) | Rejected(bytes: seq<byte>) | Accepted(bytes: seq<byte>)

  datatype Parsed = Parsed(pieces: seq<Piece>, rest: seq<byte>)

  datatype Decoded = Decoded(frames: seq<Frame>, rest: seq<byte>)

  /** Length of the candidate whose length byte is `b`. */
  function Total(b: byte): (n: nat)
    ensures 4 <= n <= 259
  {
    b as nat + 4
  }

  /** A complete run of bytes that has the outline of a frame. */
  predicate Candidate(s: seq<byte>) {
    |s| >= 4 && s[0] == START && |s| == Total(s[2])
  }

  predicate ChecksumHolds(s: seq<byte>)
    requires |s| >= 1
  {
    Xor(s[..|s| - 1]) == s[|s| - 1]
  }

  predicate ValidPiece(p: Piece) {
    match p
    case Noise(b) => b != START
    case Rejected(s) => Candidate(s) && !ChecksumHolds(s)
    case Accepted(s) => Candidate(s) && ChecksumHolds(s)
  }

  predicate ValidPieces(ps: seq<Piece>) {
    forall i :: 0 <= i < |ps| ==> ValidPiece(ps[i])
  }

  /** A tail that cannot be cut yet: empty, or a candidate still to be completed. */
  predicate Pending(s: seq<byte>) {
    s == [] || (s[0] == START && (|s| < 4 || |s| < Total(s[2])))
  }

  function Raw(p: Piece): seq<byte> {
    match p
    case Noise(b) => [b]
    case Rejected(s) => s
    case Accepted(s) => s
  }

  function Flatten(ps: seq<Piece>): seq<byte> {
    if ps == [] then [] else Raw(ps[0]) + Flatten(ps[1..])
  }

  function FrameOf(s: seq<byte>): Frame
    requires Candidate(s)
  {
    Frame(s[1], s[3..|s| - 1], s)
  }

  /** The frames among the pieces, in order. */
  function Frames(ps: seq<Piece>): seq<Frame>
    requires ValidPieces(ps)
  {
    if ps == [] then []
    else (if ps[0].Accepted? then [FrameOf(ps[0].bytes)] else []) + Frames(ps[1..])
  }

  /** The piece the deframer cuts off the front of a buffer that is not pending. */
  function FirstPiece(s: seq<byte>): (p: Piece)
    requires !Pending(s)
    ensures ValidPiece(p) && 1 <= |Raw(p)| <= |s| && s == Raw(p) + s[|Raw(p)|..]
  {
    if s[0] != START then Noise(s[0])
    else
      var raw := s[..Total(s[2])];
      if ChecksumHolds(raw) then Accepted(raw) else Rejected(raw)
  }

  /** Cuts a byte string into pieces. */
  function Parse(s: seq<byte>): (r: Parsed)
    ensures ValidPieces(r.pieces) && Pending(r.rest)
    decreases |s|
  {
    if Pending(s) then Parsed([], s)
    else
      var p := FirstPiece(s);
      var tail := Parse(s[|Raw(p)|..]);
      Parsed([p] + tail.pieces, tail.rest)
  }

  /** The meaning of a byte string: its frames, and the tail to keep for later. */
  function Decode(s: seq<byte>): Decoded {
    Decoded(Frames(Parse(s).pieces), Parse(s).rest)
  }

  /** `d` with frames put in front. */
  function Prepend(fs: seq<Frame>, d: Decoded): Decoded {
    d.(frames := fs + d.frames)
  }

  lemma PrependTwice(a: seq<Frame>, b: seq<Frame>, d: Decoded)
    ensures Prepend(a, Prepend(b, d)) == Prepend(a + b, d)
  {
    assert a + (b + d.frames) == (a + b) + d.frames;
  }

  // ---- Unique segmentation -------------------------------------------------

  /** The pieces and the tail concatenate back to the input. */
  lemma {:induction false} ParseFlattens(s: seq<byte>)
    ensures Flatten(Parse(s).pieces) + Parse(s).rest == s
    decreases |s|
  {
    if !Pending(s) {
      var p := FirstPiece(s);
      var tail := Parse(s[|Raw(p)|..]);
      ParseFlattens(s[|Raw(p)|..]);
      FlattenCons(p, tail.pieces);
      Associates(Raw(p), Flatten(tail.pieces), tail.rest);
    }
  }

  lemma FlattenCons(p: Piece, ps: seq<Piece>)
    ensures Flatten([p] + ps) == Raw(p) + Flatten(ps)
  {
    assert ([p] + ps)[1..] == ps;
  }

  /** A valid piece in front of anything is the piece that is cut off. */
  lemma ParseStep(p: Piece, s: seq<byte>)
    requires ValidPiece(p)
    ensures Parse(Raw(p) + s) == Parsed([p] + Parse(s).pieces, Parse(s).rest)
  {
    assert (Raw(p) + s)[..|Raw(p)|] == Raw(p);
    assert (Raw(p) + s)[|Raw(p)|..] == s;
  }

  /** Any way to cut a byte string into valid pieces and a pending tail is the one `Parse` finds. */
  lemma {:induction false} UniqueSegmentation(ps: seq<Piece>, rest: seq<byte>)
    requires ValidPieces(ps) && Pending(rest)
    ensures Parse(Flatten(ps) + rest) == Parsed(ps, rest)
  {
    if ps == [] {
      assert Flatten(ps) + rest == rest;
    } else {
      UniqueSegmentation(ps[1..], rest);
      var p, tail := ps[0], Flatten(ps[1..]) + rest;
      Associates(Raw(p), Flatten(ps[1..]), rest);
      ParseStep(p, tail);
      assert ps == [p] + ps[1..];
    }
  }

  lemma Associates<T>(a: seq<T>, b: seq<T>, c: seq<T>)
    ensures (a + b) + c == a + (b + c)
  {
  }

  lemma {:induction false} FlattenAppend(a: seq<Piece>, b: seq<Piece>)
    ensures Flatten(a + b) == Flatten(a) + Flatten(b)
  {
    if a == [] {
      assert a + b == b;
    } else {
      FlattenAppend(a[1..], b);
      assert (a + b)[1..] == a[1..] + b && (a + b)[0] == a[0];
      Associates(Raw(a[0]), Flatten(a[1..]), Flatten(b));
    }
  }

  lemma {:induction false} FramesAppend(a: seq<Piece>, b: seq<Piece>)
    requires ValidPieces(a) && ValidPieces(b)
    ensures Frames(a + b) == Frames(a) + Frames(b)
  {
    if a == [] {
      assert a + b == b;
    } else {
      FramesAppend(a[1..], b);
      assert a + b == [a[0]] + (a[1..] + b);
      FramesCons(a[0], a[1..] + b);
    }
  }

  lemma FramesCons(p: Piece, ps: seq<Piece>)
    requires ValidPiece(p) && ValidPieces(ps)
    ensures ValidPieces([p] + ps)
    ensures Frames([p] + ps) == (if p.Accepted? then [FrameOf(p.bytes)] else []) + Frames(ps)
  {
    assert ([p] + ps)[1..] == ps;
  }

  lemma Regroup(a: seq<byte>, r: seq<byte>, b: seq<byte>, c: seq<byte>, d: seq<byte>)
    requires r + b == c + d
    ensures (a + r) + b == (a + c) + d
  {
    assert (a + r) + b == a + (r + b);
    assert (a + c) + d == a + (c + d);
  }

  // ---- Chunking ------------------------------------------------------------

  /** Decoding can stop anywhere and resume from the pending tail. */
  lemma DecodeAppend(a: seq<byte>, b: seq<byte>)
    ensures Decode(a + b) == Prepend(Decode(a).frames, Decode(Decode(a).rest + b))
  {
    var p := Parse(a);
    var q := Parse(p.rest + b);
    FramesAppend(p.pieces, q.pieces);
    assert a + b == Flatten(p.pieces + q.pieces) + q.rest by {
      ParseFlattens(a);
      ParseFlattens(p.rest + b);
      FlattenAppend(p.pieces, q.pieces);
      Regroup(Flatten(p.pieces), p.rest, b, Flatten(q.pieces), q.rest);
    }
    UniqueSegmentation(p.pieces + q.pieces, q.rest);
  }

  /** What a byte string leaves to be decoded stays so when more bytes follow. */
  lemma DecodeResumes(a: seq<byte>, heard: seq<Frame>, rest: seq<byte>, b: seq<byte>)
    requires Decode(a) == Prepend(heard, Decode(rest))
    ensures Decode(a + b) == Prepend(heard, Decode(rest + b))
  {
    hide Decode;
    DecodeAppend(a, b);
    DecodeAppend(rest, b);
    PrependTwice(heard, Decode(rest).frames, Decode(Decode(rest).rest + b));
  }

  /** A pending tail holds no frame, nor does the empty string. */
  lemma PendingDecodes(s: seq<byte>)
    requires Pending(s)
    ensures Decode(s) == Decoded([], s)
  {
  }

  /** The checksum of a run holds exactly when all its bytes cancel out. */
  lemma ChecksumIsXor(s: seq<byte>)
    requires |s| >= 1
    ensures ChecksumHolds(s) <==> Xor(s) == 0
  {
  }

  /** What is at the front of a stream is decoded first, whatever follows. */
  lemma DecodeStep(p: Piece, s: seq<byte>)
    requires ValidPiece(p)
    ensures Decode(Raw(p) + s)
         == Prepend(if p.Accepted? then [FrameOf(p.bytes)] else [], Decode(s))
  {
    ParseStep(p, s);
    FramesAppend([p], Parse(s).pieces);
  }

  function Concat(chunks: seq<seq<byte>>): seq<byte> {
    if chunks == [] then [] else chunks[0] + Concat(chunks[1..])
  }

  /** Append each chunk to the tail kept so far and drain, as the receive loops do. */
  function Feed(buffer: seq<byte>, chunks: seq<seq<byte>>): Decoded
    decreases |chunks|
  {
    if chunks == [] then Decoded([], buffer)
    else
      var d := Decode(buffer + chunks[0]);
      Prepend(d.frames, Feed(d.rest, chunks[1..]))
  }

  /** How the bytes are split into reads does not matter; empty reads do not either. */
  lemma {:induction false} ChunkingInvariance(buffer: seq<byte>, chunks: seq<seq<byte>>)
    requires Pending(buffer)
    decreases |chunks|
    ensures Feed(buffer, chunks) == Decode(buffer + Concat(chunks))
  {
    if chunks == [] {
      assert buffer + Concat(chunks) == buffer;
    } else {
      var d := Decode(buffer + chunks[0]);
      ChunkingInvariance(d.rest, chunks[1..]);
      Associates(buffer, chunks[0], Concat(chunks[1..]));
      DecodeAppend(buffer + chunks[0], Concat(chunks[1..]));
    }
  }

  // ---- Size and identity of what is emitted --------------------------------

  /** Every frame needs at least four bytes of its own. */
  lemma {:induction false} FramesAreScarce(ps: seq<Piece>)
    requires ValidPieces(ps)
    ensures 4 * |Frames(ps)| <= |Flatten(ps)|
  {
    if ps != [] {
      FramesAreScarce(ps[1..]);
    }
  }

  lemma FramesBoundedByBytes(s: seq<byte>)
    ensures 4 * |Decode(s).frames| <= |s| - |Decode(s).rest|
  {
    ParseFlattens(s);
    FramesAreScarce(Parse(s).pieces);
  }

  /** A pending tail never holds more than 258 bytes. */
  lemma PendingIsShort(s: seq<byte>)
    requires Pending(s)
    ensures |s| <= 258 && (s != [] ==> s[0] == START)
  {
  }

  // ---- One extraction ------------------------------------------------------

  /** One call of the deframer: the next frame if there is one, and the buffer left behind. */
  function Next(s: seq<byte>): (r: (Option<Frame>, seq<byte>))
    ensures r.0.Some? ==> |r.1| < |s|
    decreases |s|
  {
    if Pending(s) then (None, s)
    else
      var p := FirstPiece(s);
      if p.Accepted? then (Some(FrameOf(p.bytes)), s[|p.bytes|..])
      else Next(s[|Raw(p)|..])
  }

  lemma NextAfterNoise(s: seq<byte>)
    requires s != [] && s[0] != START
    ensures Next(s) == Next(s[1..])
  {
  }

  lemma NextAtCandidate(s: seq<byte>)
    requires |s| >= 4 && s[0] == START && |s| >= Total(s[2])
    ensures var raw, tail := s[..Total(s[2])], s[Total(s[2])..];
            && Candidate(raw)
            && Next(s) == if ChecksumHolds(raw) then (Some(FrameOf(raw)), tail) else Next(tail)
  {
  }

  /** One call takes exactly the first frame of the stream; a refusal means there is none. */
  lemma {:induction false} NextMeaning(s: seq<byte>)
    ensures Next(s).0.Some? ==> Decode(s) == Prepend([Next(s).0.value], Decode(Next(s).1))
    ensures Next(s).0.None? ==> Decode(s) == Decoded([], Next(s).1) && Pending(Next(s).1)
    decreases |s|
  {
    if !Pending(s) {
      var p := FirstPiece(s);
      var tail := s[|Raw(p)|..];
      DecodeStep(p, tail);
      if !p.Accepted? {
        NextMeaning(tail);
      }
    }
  }

  /** `s` is a run of noise and rejected candidates, then the bytes of `f` if any, then `t`. */
  ghost predicate CutsTo(s: seq<byte>, dead: seq<Piece>, f: Option<Frame>, t: seq<byte>) {
    && ValidPieces(dead) && (forall i :: 0 <= i < |dead| ==> !dead[i].Accepted?)
    && s == Flatten(dead) + (if f.Some? then f.value.raw else []) + t
  }

  /** The noise and the rejected candidates in front of the next frame. */
  ghost function Discarded(s: seq<byte>): seq<Piece>
    decreases |s|
  {
    if Pending(s) || FirstPiece(s).Accepted? then []
    else [FirstPiece(s)] + Discarded(s[|Raw(FirstPiece(s))|..])
  }

  /** One call removes nothing but noise and rejected candidates in front of its frame. */
  lemma {:induction false} NextConsumes(s: seq<byte>)
    ensures CutsTo(s, Discarded(s), Next(s).0, Next(s).1)
    decreases |s|
  {
    if !Pending(s) && !FirstPiece(s).Accepted? {
      var p := FirstPiece(s);
      var tail := s[|Raw(p)|..];
      NextConsumes(tail);
      CutsToLonger(p, tail, Discarded(tail), Next(s).0, Next(s).1);
    }
  }

  lemma CutsToLonger(p: Piece, s: seq<byte>, dead: seq<Piece>, f: Option<Frame>, t: seq<byte>)
    requires CutsTo(s, dead, f, t) && ValidPiece(p) && !p.Accepted?
    ensures CutsTo(Raw(p) + s, [p] + dead, f, t)
  {
    var raw := if f.Some? then f.value.raw else [];
    FlattenCons(p, dead);
    Associates(Raw(p), Flatten(dead), raw);
    Associates(Raw(p), Flatten(dead) + raw, t);
  }
}
