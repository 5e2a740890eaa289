// A frame damaged on the line: when it disappears alone, and when it does not.

module Corruption {
  import opened Bytes
  import opened Framing
  import opened Codec
  import opened Resynchronisation

  /** `raw` with the bits of the error pattern `e` flipped. */
  function Corrupt(raw: seq<byte>, e: seq<byte>): (s: seq<byte>)
    requires |raw| == |e|
    ensures |s| == |raw|
  {
    seq(|raw|, i requires 0 <= i < |raw| => raw[i] ^ e[i])
  }

  lemma {:induction false} XorOfCorrupt(raw: seq<byte>, e: seq<byte>)
    requires |raw| == |e|
    ensures Xor(Corrupt(raw, e)) == Xor(raw) ^ Xor(e)
  {
    if raw != [] {
      var n := |raw| - 1;
      XorOfCorrupt(raw[..n], e[..n]);
      assert Corrupt(raw, e)[..n] == Corrupt(raw[..n], e[..n]);
    }
  }

  /** The line with one message damaged by `e`. */
  function DamagedLine(before: seq<Item>, it: Item, e: seq<byte>, after: seq<Item>): seq<byte>
    requires |e| == |Encode(it.command, it.payload)|
  {
    Wire(before) + ((it.noise + Corrupt(Encode(it.command, it.payload), e)) + Wire(after))
  }

  /** What becomes of the one damaged run of bytes. */
  lemma DamagedPiece(it: Item, e: seq<byte>)
    requires |it.payload| <= 255 && |e| == |Encode(it.command, it.payload)| && e[0] == 0 && e[2] == 0
    ensures var hit := Corrupt(Encode(it.command, it.payload), e);
            Candidate(hit) && (ChecksumHolds(hit) <==> Xor(e) == 0)
  {
    var raw := Encode(it.command, it.payload);
    EncodeIsAccepted(it.command, it.payload);
    ChecksumIsXor(raw);
    ChecksumIsXor(Corrupt(raw, e));
    XorOfCorrupt(raw, e);
    assert Corrupt(raw, e)[0] == raw[0] && Corrupt(raw, e)[2] == raw[2];
  }

  lemma OnePieceAmongFrames(before: seq<Item>, noise: seq<byte>, p: Piece, after: seq<Item>)
    requires Sendable(before) && Quiet(noise) && ValidPiece(p) && Sendable(after)
    ensures Decode(Wire(before) + ((noise + Raw(p)) + Wire(after)))
         == Decoded(Sent(before) + (if p.Accepted? then [FrameOf(p.bytes)] else []) + Sent(after), [])
  {
    var own := if p.Accepted? then [FrameOf(p.bytes)] else [];
    WireAlone(after);
    PieceAfterNoise(noise, p, Wire(after));
    WireDecodes(before, (noise + Raw(p)) + Wire(after));
    PrependTwice(Sent(before), own, Decode(Wire(after)));
  }

  lemma DamagedLineDecodes(before: seq<Item>, it: Item, e: seq<byte>, after: seq<Item>)
    requires Sendable(before) && Sendable([it]) && Sendable(after)
    requires |e| == |Encode(it.command, it.payload)| && e[0] == 0 && e[2] == 0
    ensures var hit := Corrupt(Encode(it.command, it.payload), e);
            && Candidate(hit)
            && Decode(DamagedLine(before, it, e, after))
            == Decoded(Sent(before) + (if Xor(e) == 0 then [FrameOf(hit)] else []) + Sent(after), [])
  {
    assert Quiet([it][0].noise) && |[it][0].payload| <= 255;
    var hit := Corrupt(Encode(it.command, it.payload), e);
    DamagedPiece(it, e);
    OnePieceAmongFrames(before, it.noise, if Xor(e) == 0 then Accepted(hit) else Rejected(hit), after);
  }

  /**
   * Damage that spares the start and length bytes removes its own frame and no other
   * exactly when the flipped bits do not cancel out in the checksum.
   */
  lemma DamageIsContained(before: seq<Item>, it: Item, e: seq<byte>, after: seq<Item>)
    requires Sendable(before) && Sendable([it]) && Sendable(after)
    requires |e| == |Encode(it.command, it.payload)| && e[0] == 0 && e[2] == 0
    ensures (Decode(DamagedLine(before, it, e, after)) == Decoded(Sent(before) + Sent(after), []))
            <==> Xor(e) != 0
  {
    DamagedLineDecodes(before, it, e, after);
    assert Sent(before) + [] == Sent(before);
    assert |Sent(before) + Sent(after)| == |before| + |after|;
  }

  // ---- Damage anywhere -------------------------------------------------------

  /**
   * Whatever happens to the bytes of one frame, its start and length included, the frames before it come
   * through; of the sturdy frames after it at most 65 are lost. What comes in between is at most one
   * frame for four damaged bytes and one more.
   */
  lemma DamageAnywhere(before: seq<Item>, it: Item, e: seq<byte>, after: seq<Item>)
    requires Sendable(before) && Sendable([it]) && Sturdy(after)
    requires |e| == |Encode(it.command, it.payload)|
    ensures exists k: nat, more: seq<Frame> ::
              && k <= |after| && k <= 65 && 4 * |more| <= |e| + 4
              && Decode(DamagedLine(before, it, e, after)).frames == Sent(before) + more + Sent(after[k..])
              && (k < |after| ==> Decode(DamagedLine(before, it, e, after)).rest == [])
  {
    hide Decode, Encode, Wire, Sturdy, Sent, AtFront;
    assert Quiet([it][0].noise);
    var hit := Corrupt(Encode(it.command, it.payload), e);
    var garbage := it.noise + hit;
    WireDecodes(before, garbage + Wire(after));
    Resynchronises(garbage, after);
    var k: nat, extra :| k <= 65 && Recovers(garbage, after, k, extra);
    NoiseIsSkipped(it.noise, hit);
    FramesBoundedByBytes(hit);
    var own := Decode(garbage).frames;
    assert Sent(before) + ((own + extra) + Sent(after[k..])) == Sent(before) + (own + extra) + Sent(after[k..]);
  }

  // ---- Bursts --------------------------------------------------------------

  function Bit(k: nat): byte
    requires k < 8
  {
    if k == 0 then 1 else if k == 1 then 2 else if k == 2 then 4 else if k == 3 then 8
    else if k == 4 then 16 else if k == 5 then 32 else if k == 6 then 64 else 128
  }

  predicate IsSet(b: byte, k: nat)
    requires k < 8
  {
    b & Bit(k) != 0
  }

  /**
   * Some bits are flipped, all of them within eight consecutive positions from `from` on;
   * bit k of byte j, counted from the least significant, is at position 8 * j + k.
   */
  ghost predicate Burst(e: seq<byte>, from: nat) {
    && (exists j, k :: 0 <= j < |e| && 0 <= k < 8 && IsSet(e[j], k))
    && (forall j, k :: 0 <= j < |e| && 0 <= k < 8 && IsSet(e[j], k) ==> from <= 8 * j + k < from + 8)
  }

  lemma NoBits(b: byte)
    requires forall k :: 0 <= k < 8 ==> !IsSet(b, k)
    ensures b == 0
  {
    assert !IsSet(b, 0) && !IsSet(b, 1) && !IsSet(b, 2) && !IsSet(b, 3);
    assert !IsSet(b, 4) && !IsSet(b, 5) && !IsSet(b, 6) && !IsSet(b, 7);
  }

  lemma DisjointBits(a: byte, b: byte)
    requires forall k :: 0 <= k < 8 ==> !IsSet(a, k) || !IsSet(b, k)
    ensures a ^ b == 0 ==> a == 0 && b == 0
  {
    if a == b {
      forall k | 0 <= k < 8 ensures !IsSet(a, k) {
      }
      NoBits(a);
    }
    EqualIfCancels(a, b);
  }

  lemma EqualIfCancels(a: byte, b: byte)
    ensures a ^ b == 0 ==> a == b
  {
  }

  lemma {:induction false} XorOfZeros(s: seq<byte>)
    requires forall i :: 0 <= i < |s| ==> s[i] == 0
    ensures Xor(s) == 0
  {
    if s != [] {
      XorOfZeros(s[..|s| - 1]);
    }
  }

  lemma XorOfTwo(e: seq<byte>, q: nat)
    requires q + 1 < |e|
    requires forall i :: 0 <= i < |e| && i != q && i != q + 1 ==> e[i] == 0
    ensures Xor(e) == e[q] ^ e[q + 1]
  {
    XorOfZeros(e[..q]);
    XorOfZeros(e[q + 2..]);
    assert e[..q + 1][..q] == e[..q];
    assert e[..q + 2][..q + 1] == e[..q + 1];
    assert e == e[..q + 2] + e[q + 2..];
    XorAppend(e[..q + 2], e[q + 2..]);
  }

  lemma XorOfOne(e: seq<byte>)
    requires e != [] && forall i :: 0 <= i < |e| - 1 ==> e[i] == 0
    ensures Xor(e) == e[|e| - 1]
  {
    XorOfZeros(e[..|e| - 1]);
  }

  /** A burst of at most eight bits always changes the checksum. */
  lemma BurstChangesXor(e: seq<byte>, from: nat)
    requires Burst(e, from)
    ensures Xor(e) != 0
  {
    var j, k :| 0 <= j < |e| && 0 <= k < 8 && IsSet(e[j], k);
    var q := from / 8;
    assert e[j] != 0;
    forall i | 0 <= i < |e| && i != q && i != q + 1 ensures e[i] == 0 {
      NoBits(e[i]);
    }
    if q + 1 < |e| {
      XorOfTwo(e, q);
      DisjointBits(e[q], e[q + 1]);
    } else {
      XorOfOne(e);
    }
  }

  /** One burst that spares the start and length bytes costs exactly the frame it hits. */
  lemma BurstIsContained(before: seq<Item>, it: Item, e: seq<byte>, from: nat, after: seq<Item>)
    requires Sendable(before) && Sendable([it]) && Sendable(after)
    requires |e| == |Encode(it.command, it.payload)| && e[0] == 0 && e[2] == 0
    requires Burst(e, from)
    ensures Decode(DamagedLine(before, it, e, after)) == Decoded(Sent(before) + Sent(after), [])
  {
    BurstChangesXor(e, from);
    DamageIsContained(before, it, e, after);
  }
}
