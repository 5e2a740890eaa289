// Building frames, and what the deframer makes of streams of built frames.

module Codec {
  import opened Bytes
  import opened Framing

  /** The length byte: the payload length narrowed to one byte, so that 256 wraps to 0. */
  function LengthByte(n: nat): (b: byte)
    ensures b as nat == n % 256
  {
    if n == 0 then 0
    else
      var b := LengthByte(n - 1);
      ByteSuccessor(b);
      ModSuccessor(n);
      b + 1
  }

  lemma ByteSuccessor(b: byte)
    ensures (b + 1) as nat == if b as nat == 255 then 0 else b as nat + 1
  {
  }

  lemma ModSuccessor(n: nat)
    requires n > 0
    ensures n % 256 == if (n - 1) % 256 == 255 then 0 else (n - 1) % 256 + 1
  {
  }

  function Body(command: byte, payload: seq<byte>): (s: seq<byte>)
    ensures |s| == |payload| + 3
  {
    [START, command, LengthByte(|payload|)] + payload
  }

  /** The frame carrying `payload` under `command`. */
  function Encode(command: byte, payload: seq<byte>): (s: seq<byte>)
    ensures |s| == |payload| + 4
  {
    Body(command, payload) + [Xor(Body(command, payload))]
  }

  /** The encoding of a short payload, byte for byte. */
  lemma ShortFrame(command: byte, payload: seq<byte>, n: byte)
    requires n as nat == |payload| <= 3
    ensures Encode(command, payload) == [START, command, n] + payload + [START ^ command ^ n ^ Xor(payload)]
  {
    hide LengthByte, Xor;
    LengthByteOf(n, |payload|);
    XorOfThree(START, command, n);
    XorAppend([START, command, n], payload);
  }

  lemma XorOfFew(p: byte, q: byte, r: byte)
    ensures Xor([]) == 0 && Xor([p]) == p && Xor([p, q]) == p ^ q && Xor([p, q, r]) == p ^ q ^ r
  {
    XorSnoc([], p);
    XorSnoc([p], q);
    XorOfThree(p, q, r);
    assert [] + [p] == [p] && [p] + [q] == [p, q];
  }

  method BuildFrame(command: byte, payload: seq<byte>) returns (frame: seq<byte>)
    ensures frame == Encode(command, payload)
  {
    var a := new byte[|payload| + 4];
    a[0] := START;
    a[1] := command;
    a[2] := LengthByte(|payload|);
    for i := 0 to |payload|
      invariant a[0] == START && a[1] == command && a[2] == LengthByte(|payload|)
      invariant a[3..3 + i] == payload[..i]
    {
      a[3 + i] := payload[i];
    }
    assert a[..a.Length - 1] == Body(command, payload);
    var checksum := Checksum(a[..a.Length - 1]);
    a[a.Length - 1] := checksum;
    assert a[..a.Length - 1] == Body(command, payload);
    frame := a[..];
    assert frame == a[..a.Length - 1] + [a[a.Length - 1]];
  }

  lemma SameByte(a: byte, b: byte)
    requires a as nat == b as nat
    ensures a == b
  {
  }

  lemma LengthByteValue(n: nat)
    ensures LengthByte(n) as nat == n % 256
  {
  }

  lemma LengthByteOf(b: byte, n: nat)
    requires n % 256 == b as nat
    ensures LengthByte(n) == b
  {
    LengthByteValue(n);
    SameByte(LengthByte(n), b);
  }

  // ---- Built frames and accepted frames are the same thing -------------------

  lemma EncodeIsAccepted(command: byte, payload: seq<byte>)
    requires |payload| <= 255
    ensures ValidPiece(Accepted(Encode(command, payload)))
    ensures FrameOf(Encode(command, payload)) == Frame(command, payload, Encode(command, payload))
  {
    LengthByteTotal(|payload|);
    EncodeParts(command, payload);
  }

  lemma LengthByteTotal(n: nat)
    requires n <= 255
    ensures Total(LengthByte(n)) == n + 4
  {
    LengthByteValue(n);
  }

  lemma EncodeParts(command: byte, payload: seq<byte>)
    ensures var s := Encode(command, payload);
            && s[0] == START && s[1] == command && s[2] == LengthByte(|payload|)
            && s[..|s| - 1] == Body(command, payload) && s[|s| - 1] == Xor(Body(command, payload))
            && s[3..|s| - 1] == payload
  {
  }

  lemma CutBody(s: seq<byte>)
    requires |s| >= 4 && s[0] == START && s[2] == LengthByte(|s| - 4)
    ensures s[..|s| - 1] == Body(s[1], s[3..|s| - 1])
    ensures s == s[..|s| - 1] + [s[|s| - 1]]
  {
    hide LengthByte;
    assert s[..|s| - 1] == [s[0], s[1], s[2]] + s[3..|s| - 1];
  }

  lemma CandidateLength(s: seq<byte>)
    requires Candidate(s)
    ensures |s| - 4 <= 255 && s[2] == LengthByte(|s| - 4)
  {
    hide LengthByte;
    LengthByteOf(s[2], |s| - 4);
  }

  /** An accepted run of bytes is the canonical encoding of the frame read from it. */
  lemma AcceptedIsCanonical(s: seq<byte>)
    requires Candidate(s) && ChecksumHolds(s)
    ensures |FrameOf(s).payload| <= 255
    ensures s == Encode(FrameOf(s).command, FrameOf(s).payload)
  {
    CandidateLength(s);
    hide Xor, LengthByte, Total;
    CutBody(s);
  }

  lemma {:induction false} FramesAreCanonical(ps: seq<Piece>)
    requires ValidPieces(ps)
    ensures forall f :: f in Frames(ps) ==> |f.payload| <= 255 && f.raw == Encode(f.command, f.payload)
  {
    if ps != [] {
      FramesAreCanonical(ps[1..]);
      if ps[0].Accepted? {
        AcceptedIsCanonical(ps[0].bytes);
      }
    }
  }

  /** Parse then print: every frame taken from any stream re-encodes to the bytes it came from. */
  lemma ParseThenPrint(s: seq<byte>)
    ensures forall f :: f in Decode(s).frames ==> |f.payload| <= 255 && f.raw == Encode(f.command, f.payload)
  {
    FramesAreCanonical(Parse(s).pieces);
  }

  /** Print then parse: a built frame comes back whole exactly when its length byte did not wrap. */
  lemma BuiltFrameComesBack(command: byte, payload: seq<byte>)
    ensures (Decode(Encode(command, payload))
             == Decoded([Frame(command, payload, Encode(command, payload))], [])) <==> |payload| <= 255
  {
    var s := Encode(command, payload);
    if |payload| <= 255 {
      EncodeIsAccepted(command, payload);
      DecodeStep(Accepted(s), []);
      assert s + [] == s;
    } else {
      ParseThenPrint(s);
      var f := Frame(command, payload, s);
      assert |f.payload| > 255;
      assert f !in Decode(s).frames;
      assert f in [f];
    }
  }

  // ---- Streams of built frames with noise in between -------------------------

  /** One message on the line: some noise without a start byte, then a built frame. */
  datatype Item = Item(noise: seq<byte>, command: byte, payload: seq<byte>)

  predicate Quiet(s: seq<byte>) {
    START !in s
  }

  predicate Sendable(items: seq<Item>) {
    forall i :: 0 <= i < |items| ==> Quiet(items[i].noise) && |items[i].payload| <= 255
  }

  function ItemBytes(it: Item): (s: seq<byte>)
    ensures |s| >= 4
  {
    it.noise + Encode(it.command, it.payload)
  }

  function ItemFrame(it: Item): Frame {
    Frame(it.command, it.payload, Encode(it.command, it.payload))
  }

  function Wire(items: seq<Item>): seq<byte> {
    if items == [] then [] else ItemBytes(items[0]) + Wire(items[1..])
  }

  function Sent(items: seq<Item>): (fs: seq<Frame>)
    ensures |fs| == |items|
  {
    seq(|items|, i requires 0 <= i < |items| => ItemFrame(items[i]))
  }

  lemma {:induction false} NoiseIsSkipped(noise: seq<byte>, s: seq<byte>)
    requires Quiet(noise)
    ensures Decode(noise + s) == Decode(s)
  {
    if noise == [] {
      assert noise + s == s;
    } else {
      NoiseIsSkipped(noise[1..], s);
      DecodeStep(Noise(noise[0]), noise[1..] + s);
      assert noise == [noise[0]] + noise[1..];
      Associates([noise[0]], noise[1..], s);
    }
  }

  lemma PieceAfterNoise(noise: seq<byte>, p: Piece, s: seq<byte>)
    requires Quiet(noise) && ValidPiece(p)
    ensures Decode((noise + Raw(p)) + s)
         == Prepend(if p.Accepted? then [FrameOf(p.bytes)] else [], Decode(s))
  {
    Associates(noise, Raw(p), s);
    NoiseIsSkipped(noise, Raw(p) + s);
    DecodeStep(p, s);
  }

  lemma ItemDecodes(it: Item, s: seq<byte>)
    requires Quiet(it.noise) && |it.payload| <= 255
    ensures Decode(ItemBytes(it) + s) == Prepend([ItemFrame(it)], Decode(s))
  {
    EncodeIsAccepted(it.command, it.payload);
    PieceAfterNoise(it.noise, Accepted(Encode(it.command, it.payload)), s);
  }

  lemma SentCons(items: seq<Item>)
    requires items != []
    ensures Sent(items) == [ItemFrame(items[0])] + Sent(items[1..])
  {
  }

  /** What was sent is decoded first, whatever follows it on the line. */
  lemma {:induction false} WireDecodes(items: seq<Item>, s: seq<byte>)
    requires Sendable(items)
    ensures Decode(Wire(items) + s) == Prepend(Sent(items), Decode(s))
  {
    hide Decode, Encode;
    if items == [] {
      assert Wire(items) + s == s;
    } else {
      WireDecodes(items[1..], s);
      ItemDecodes(items[0], Wire(items[1..]) + s);
      Associates(ItemBytes(items[0]), Wire(items[1..]), s);
      SentCons(items);
      PrependTwice([ItemFrame(items[0])], Sent(items[1..]), Decode(s));
    }
  }

  lemma WireAlone(items: seq<Item>)
    requires Sendable(items)
    ensures Decode(Wire(items)) == Decoded(Sent(items), [])
  {
    WireDecodes(items, []);
    assert Wire(items) + [] == Wire(items);
  }

  /** Stream round trip: built frames and any quiet noise decode to exactly the frames sent. */
  lemma StreamRoundTrip(items: seq<Item>, noise: seq<byte>)
    requires Sendable(items) && Quiet(noise)
    ensures Decode(Wire(items) + noise) == Decoded(Sent(items), [])
  {
    WireDecodes(items, noise);
    NoiseIsSkipped(noise, []);
    assert noise + [] == noise;
  }
}
