// How the deframer finds its way back to the frame boundaries after garbage.

module Resynchronisation {
  import opened Bytes
  import opened Framing
  import opened Codec

  /** Built frames among quiet noise, none with a start byte after its first byte. */
  predicate Clean(items: seq<Item>) {
    Sendable(items)
    && forall i :: 0 <= i < |items| ==> Quiet(Encode(items[i].command, items[i].payload)[1..])
  }

  /** No part of a frame without its beginning leaves a trace. */
  predicate Sturdy(items: seq<Item>) {
    Sendable(items)
    && forall i :: 0 <= i < |items| ==> NoTrace(Encode(items[i].command, items[i].payload))
  }

  predicate NoTrace(raw: seq<byte>) {
    forall j :: 1 <= j <= |raw| ==> Decode(raw[j..]) == Decoded([], [])
  }

  lemma CleanIsSturdy(items: seq<Item>)
    requires Clean(items)
    ensures Sturdy(items)
  {
    hide Encode, Decode;
    forall i | 0 <= i < |items| ensures NoTrace(Encode(items[i].command, items[i].payload)) {
      QuietLeavesNoTrace(Encode(items[i].command, items[i].payload));
    }
  }

  lemma QuietLeavesNoTrace(raw: seq<byte>)
    requires raw != [] && Quiet(raw[1..])
    ensures NoTrace(raw)
  {
    hide Decode;
    forall j | 1 <= j <= |raw| ensures Decode(raw[j..]) == Decoded([], []) {
      assert raw[j..] == raw[1..][j - 1..];
      NoiseIsSkipped(raw[j..], []);
      assert raw[j..] + [] == raw[j..];
      PendingDecodes([]);
    }
  }

  /**
   * The decoding of `garbage` and then `items` loses the first `k` items and may add one frame that
   * starts where the garbage's pending tail does; everything after them comes through.
   */
  ghost predicate Recovers(garbage: seq<byte>, items: seq<Item>, k: nat, extra: seq<Frame>) {
    var g, d := Decode(garbage), Decode(garbage + Wire(items));
    && k <= |items| && |extra| <= 1 && AtFront(extra, g.rest + Wire(items))
    && d.frames == g.frames + extra + Sent(items[k..])
    && (k < |items| ==> d.rest == [])
  }

  predicate AtFront(fs: seq<Frame>, s: seq<byte>) {
    forall f :: f in fs ==> f.raw <= s
  }

  ghost predicate RecoversFrom(garbage: seq<byte>, items: seq<Item>) {
    exists k: nat, extra :: Recovers(garbage, items, k, extra)
  }

  /** Cutting `n` bytes off a sturdy line loses only the frames that are touched. */
  lemma {:induction false} SuffixDecodes(items: seq<Item>, n: nat) returns (k: nat)
    requires Sturdy(items) && n <= |Wire(items)|
    ensures k <= |items| && (k > 0 ==> 4 * (k - 1) < n)
    ensures Decode(Wire(items)[n..]) == Decoded(Sent(items[k..]), [])
  {
    hide Encode, Decode;
    if items == [] || n == 0 {
      k := 0;
      WireAlone(items);
      assert items[0..] == items;
      assert Wire(items)[0..] == Wire(items);
    } else {
      var it, tail := items[0], items[1..];
      var raw := Encode(it.command, it.payload);
      var own := |ItemBytes(it)|;
      WireAlone(tail);
      if n >= own {
        var k' := SuffixDecodes(tail, n - own);
        k := k' + 1;
        DropBeyond(ItemBytes(it), Wire(tail), n);
        assert items[k..] == tail[k'..];
      } else if n <= |it.noise| {
        k := 0;
        DropWithin(ItemBytes(it), Wire(tail), n);
        DropWithin(it.noise, raw, n);
        EncodeIsAccepted(it.command, it.payload);
        PieceAfterNoise(it.noise[n..], Accepted(raw), Wire(tail));
        assert items[0..] == items;
        SentCons(items);
      } else {
        k := 1;
        DropWithin(ItemBytes(it), Wire(tail), n);
        DropBeyond(it.noise, raw, n);
        var torn := raw[n - |it.noise|..];
        DecodeAppend(torn, Wire(tail));
        assert [] + Wire(tail) == Wire(tail) && [] + Sent(tail) == Sent(tail);
      }
    }
  }

  lemma DropBeyond(a: seq<byte>, b: seq<byte>, n: nat)
    requires |a| <= n <= |a| + |b|
    ensures (a + b)[n..] == b[n - |a|..]
  {
  }

  lemma DropWithin(a: seq<byte>, b: seq<byte>, n: nat)
    requires n <= |a|
    ensures (a + b)[n..] == a[n..] + b
  {
  }

  lemma {:induction false} WireLength(items: seq<Item>)
    ensures |Wire(items)| >= 4 * |items|
  {
    if items != [] {
      WireLength(items[1..]);
    }
  }

  // ---- When a line recovers from every garbage -----------------------------------

  /**
   * The places where a candidate that began in some garbage can end inside `line`: anywhere in the
   * first 256 bytes, or where a length byte of the line itself puts it.
   */
  predicate Cut(line: seq<byte>, n: nat) {
    && 1 <= n <= |line|
    && (n <= 256 || (n == 257 && line[0] == START) || n == line[1] as nat + 3)
  }

  /** Without its first `n` bytes the line decodes to the last of its items and nothing else. */
  predicate LeavesSuffix(items: seq<Item>, n: nat)
    requires n <= |Wire(items)|
  {
    var d := Decode(Wire(items)[n..]);
    && |d.frames| <= |items| && d.frames == Sent(items[|items| - |d.frames|..])
    && (d.frames != [] ==> d.rest == [])
  }

  predicate EveryCutLeavesSuffix(items: seq<Item>) {
    forall n :: 1 <= n <= |Wire(items)| && Cut(Wire(items), n) ==> LeavesSuffix(items, n)
  }

  /** A candidate that `line` completes ends at a cut. */
  lemma CompletedCandidate(rest: seq<byte>, line: seq<byte>) returns (p: Piece)
    requires Pending(rest) && rest != [] && !Pending(rest + line)
    ensures ValidPiece(p) && |rest| < |Raw(p)| && Cut(line, |Raw(p)| - |rest|)
    ensures rest + line == Raw(p) + line[|Raw(p)| - |rest|..]
  {
    var s := rest + line;
    p := FirstPiece(s);
    assert s[0] == rest[0] && (|rest| >= 3 ==> s[2] == rest[2]);
    assert |rest| == 2 ==> s[2] == line[0];
    assert |rest| == 1 ==> s[2] == line[1];
    if |rest| == 2 && line[0] as nat == 255 {
      SameByte(line[0], START);
    }
    DropBeyond(rest, line, |Raw(p)|);
  }

  /** The pending candidate swallows the line, or its start up to the cut `n`. */
  lemma AfterPending(rest: seq<byte>, items: seq<Item>) returns (n: nat, k: nat, extra: seq<Frame>)
    requires Pending(rest) && rest != [] && EveryCutLeavesSuffix(items)
    ensures if n == 0 then k == |items| && |Wire(items)| <= 257
            else Cut(Wire(items), n) && k + |Decode(Wire(items)[n..]).frames| == |items|
    ensures Recovers(rest, items, k, extra)
  {
    hide Recovers, LeavesSuffix, Decode, Wire, Cut;
    var line := Wire(items);
    if Pending(rest + line) {
      PendingIsShort(rest + line);
      PendingDecodes(rest + line);
      n, k, extra := 0, |items|, [];
      RecoversPending(rest, items, k, extra);
    } else {
      hide Pending;
      var p := CompletedCandidate(rest, line);
      n := |Raw(p)| - |rest|;
      CutsAreInside(line, n);
      k, extra := CutOff(rest, items, p, n);
    }
  }

  lemma RecoversPending(rest: seq<byte>, items: seq<Item>, k: nat, extra: seq<Frame>)
    requires Pending(rest) && k <= |items| && |extra| <= 1
    requires AtFront(extra, rest + Wire(items))
    requires Decode(rest + Wire(items)).frames == extra + Sent(items[k..])
    requires k < |items| ==> Decode(rest + Wire(items)).rest == []
    ensures Recovers(rest, items, k, extra)
  {
    hide Decode, Wire, Pending, AtFront, Sent;
    PendingDecodes(rest);
    assert [] + extra == extra;
  }

  lemma CutOff(rest: seq<byte>, items: seq<Item>, p: Piece, n: nat) returns (k: nat, extra: seq<Frame>)
    requires Pending(rest) && ValidPiece(p) && n <= |Wire(items)| && LeavesSuffix(items, n)
    requires rest + Wire(items) == Raw(p) + Wire(items)[n..]
    ensures k + |Decode(Wire(items)[n..]).frames| == |items|
    ensures Recovers(rest, items, k, extra)
  {
    hide Decode, Wire, Pending;
    k := |items| - |Decode(Wire(items)[n..]).frames|;
    extra := if p.Accepted? then [FrameOf(p.bytes)] else [];
    DecodeStep(p, Wire(items)[n..]);
    RecoversPending(rest, items, k, extra);
  }

  lemma FromRest(garbage: seq<byte>, items: seq<Item>, k: nat, extra: seq<Frame>)
    requires Recovers(Decode(garbage).rest, items, k, extra)
    ensures Recovers(garbage, items, k, extra)
  {
    hide Wire, Parse, Frames;
    var g := Decode(garbage);
    RestIsPending(garbage);
    DecodeAppend(garbage, Wire(items));
    assert [] + extra == extra;
    assert g.frames + (extra + Sent(items[k..])) == (g.frames + extra) + Sent(items[k..]);
  }

  lemma RestIsPending(s: seq<byte>)
    ensures Pending(Decode(s).rest) && Decode(Decode(s).rest) == Decoded([], Decode(s).rest)
  {
  }

  /** Garbage without a pending tail costs nothing. */
  lemma NothingPending(items: seq<Item>)
    requires Sendable(items)
    ensures Recovers([], items, 0, [])
  {
    hide Wire, Sent;
    WireAlone(items);
    assert [] + Wire(items) == Wire(items) && items[0..] == items;
    assert ([] + []) + Sent(items) == Sent(items);
  }

  lemma SentDrop(items: seq<Item>, k: nat)
    requires k < |items|
    ensures Sent(items[k..])[0] == ItemFrame(items[k]) && Sent(items[k..])[1..] == Sent(items[k + 1..])
  {
  }

  /** If the line recovers although a candidate took its first `n` bytes, the cut there leaves a suffix. */
  lemma TakenAway(rest: seq<byte>, items: seq<Item>, p: Piece, n: nat)
    requires Pending(rest) && rest != [] && ValidPiece(p) && 1 <= n <= |Wire(items)|
    requires rest + Wire(items) == Raw(p) + Wire(items)[n..] && !p.Noise?
    requires RecoversFrom(rest, items)
    ensures LeavesSuffix(items, n)
  {
    hide Wire, Parse, Frames;
    var k: nat, extra :| Recovers(rest, items, k, extra);
    PendingDecodes(rest);
    var d := Decode(Wire(items)[n..]);
    DecodeStep(p, Wire(items)[n..]);
    assert [] + extra == extra && [] + d.frames == d.frames;
    if p.Accepted? {
      AfterAccepted(FrameOf(p.bytes), d.frames, extra, items, k);
    } else {
      NotRejected(rest + Wire(items), p, Wire(items)[n..], extra);
      assert d.frames == Sent(items[k..]);
    }
  }

  lemma AfterAccepted(f: Frame, fs: seq<Frame>, extra: seq<Frame>, items: seq<Item>, k: nat)
    requires k <= |items| && |extra| <= 1 && [f] + fs == extra + Sent(items[k..])
    ensures |fs| <= |items| && fs == Sent(items[|items| - |fs|..])
    ensures fs != [] ==> k < |items|
  {
    assert fs == ([f] + fs)[1..];
    if extra == [] {
      assert extra + Sent(items[k..]) == Sent(items[k..]);
      SentDrop(items, k);
    } else {
      assert (extra + Sent(items[k..]))[1..] == Sent(items[k..]);
    }
  }

  lemma FramesAreCandidates(s: seq<byte>)
    ensures forall f :: f in Decode(s).frames ==> Candidate(f.raw) && ChecksumHolds(f.raw)
  {
    hide Decode, Encode;
    ParseThenPrint(s);
    forall f | f in Decode(s).frames ensures Candidate(f.raw) && ChecksumHolds(f.raw) {
      EncodeIsAccepted(f.command, f.payload);
    }
  }

  lemma SameCandidate(s: seq<byte>, a: seq<byte>, b: seq<byte>)
    requires Candidate(a) && Candidate(b) && a <= s && b <= s
    ensures a == b
  {
    assert a[2] == s[2] == b[2];
  }

  lemma FirstAtFront(s: seq<byte>, raw: seq<byte>, tail: seq<byte>, extra: seq<Frame>)
    requires Candidate(raw) && raw <= s
    requires extra != [] && AtFront(extra, s) && extra <= Decode(tail).frames
    ensures extra[0].raw == raw && ChecksumHolds(raw)
  {
    hide Decode;
    FramesAreCandidates(tail);
    assert extra[0] in Decode(tail).frames;
    SameCandidate(s, extra[0].raw, raw);
  }

  /** A frame that starts where a rejected candidate starts would be that candidate. */
  lemma NotRejected(s: seq<byte>, p: Piece, tail: seq<byte>, extra: seq<Frame>)
    requires p.Rejected? && ValidPiece(p) && s == Raw(p) + tail
    requires AtFront(extra, s) && extra <= Decode(tail).frames
    ensures extra == []
  {
    hide Decode, AtFront;
    if extra != [] {
      FirstAtFront(s, p.bytes, tail, extra);
    }
  }

  /** Three bytes of garbage can make an accepted candidate of any of the first 256 bytes. */
  lemma ThreeBytes(line: seq<byte>, n: nat) returns (rest: seq<byte>)
    requires 1 <= n <= |line| && n <= 256
    ensures Pending(rest) && rest != [] && ValidPiece(Accepted(rest + line[..n]))
  {
    hide Xor, Total, LengthByte;
    var b, x := LengthByte(n - 1), Xor(line[..n]);
    LengthByteTotal(n - 1);
    rest := [START, START ^ b ^ x, b];
    XorOfThree(START, START ^ b ^ x, b);
    Cancels(b, x);
    XorAppend(rest, line[..n]);
    Completes(rest, line[..n]);
  }

  lemma Cancels(b: byte, x: byte)
    ensures START ^ (START ^ b ^ x) ^ b ^ x == 0
  {
  }

  lemma Completes(rest: seq<byte>, more: seq<byte>)
    requires 1 <= |rest| <= 3 && rest[0] == START && Xor(rest + more) == 0
    requires |more| >= 3 - |rest| && |rest| + |more| >= 4 && |rest| + |more| == Total((rest + more)[2])
    ensures ValidPiece(Accepted(rest + more)) && Pending(rest) && rest != []
  {
    ChecksumIsXor(rest + more);
  }

  /** Two bytes do the same when the line's first byte is the length. */
  lemma TwoBytes(line: seq<byte>) returns (rest: seq<byte>)
    requires |line| >= 257 && line[0] == START
    ensures Pending(rest) && rest != [] && ValidPiece(Accepted(rest + line[..257]))
  {
    var x := Xor(line[..257]);
    rest := [START, START ^ x];
    XorSnoc([], START);
    XorSnoc([START], START ^ x);
    assert [START] == [] + [START] && rest == [START] + [START ^ x];
    XorAppend(rest, line[..257]);
    Completes(rest, line[..257]);
  }

  /** With one byte of garbage the line decides alone. */
  lemma OneByte(line: seq<byte>) returns (p: Piece)
    requires |line| >= 2 && |line| >= line[1] as nat + 3
    ensures ValidPiece(p) && !p.Noise? && Raw(p) == [START] + line[..line[1] as nat + 3]
  {
    var raw := [START] + line[..line[1] as nat + 3];
    p := if ChecksumHolds(raw) then Accepted(raw) else Rejected(raw);
  }

  lemma CutIsMade(line: seq<byte>, n: nat) returns (rest: seq<byte>, p: Piece)
    requires Cut(line, n)
    ensures Pending(rest) && rest != [] && ValidPiece(p) && !p.Noise?
    ensures rest + line == Raw(p) + line[n..]
  {
    if n <= 256 {
      rest := ThreeBytes(line, n);
      p := Accepted(rest + line[..n]);
    } else if n == 257 && line[0] == START {
      rest := TwoBytes(line);
      p := Accepted(rest + line[..n]);
    } else {
      rest := [START];
      p := OneByte(line);
    }
    assert Raw(p) == rest + line[..n];
    Associates(rest, line[..n], line[n..]);
    assert line[..n] + line[n..] == line;
  }

  /**
   * A line recovers from every garbage exactly when each place where it can be cut leaves a rest
   * that decodes to a suffix of what was sent.
   */
  lemma RecoversFromEverything(items: seq<Item>)
    requires Sendable(items)
    ensures (forall garbage: seq<byte> :: RecoversFrom(garbage, items)) <==> EveryCutLeavesSuffix(items)
  {
    hide Recovers, LeavesSuffix, Cut, Wire, Decode, Pending;
    if EveryCutLeavesSuffix(items) {
      forall garbage: seq<byte> ensures RecoversFrom(garbage, items) {
        var n, k, extra := Recovery(garbage, items);
      }
    }
    if forall garbage: seq<byte> :: RecoversFrom(garbage, items) {
      forall n | 1 <= n <= |Wire(items)| && Cut(Wire(items), n) ensures LeavesSuffix(items, n) {
        var rest, p := CutIsMade(Wire(items), n);
        TakenAway(rest, items, p, n);
      }
    }
  }

  lemma CutsAreInside(line: seq<byte>, n: nat)
    requires Cut(line, n)
    ensures 1 <= n <= |line| && n <= 258
  {
  }

  lemma Recovery(garbage: seq<byte>, items: seq<Item>) returns (n: nat, k: nat, extra: seq<Frame>)
    requires Sendable(items) && EveryCutLeavesSuffix(items)
    ensures Recovers(garbage, items, k, extra)
    ensures k == 0 || (if n == 0 then k == |items| && |Wire(items)| <= 257
                       else Cut(Wire(items), n) && k + |Decode(Wire(items)[n..]).frames| == |items|)
  {
    hide Recovers, EveryCutLeavesSuffix, Cut, Wire, Decode, Pending;
    var rest := Decode(garbage).rest;
    RestIsPending(garbage);
    n, k, extra := 0, 0, [];
    if rest == [] {
      NothingPending(items);
    } else {
      n, k, extra := AfterPending(rest, items);
    }
    FromRest(garbage, items, k, extra);
  }

  // ---- Sturdy lines --------------------------------------------------------------

  lemma SturdyCut(items: seq<Item>, n: nat)
    requires Sturdy(items) && Cut(Wire(items), n)
    ensures LeavesSuffix(items, n) && |items| - |Decode(Wire(items)[n..]).frames| <= 65
  {
    hide Wire, Decode;
    var k := SuffixDecodes(items, n);
  }

  /**
   * After any garbage, a sturdy line is decoded from its 66th frame on at the latest: the
   * deframer emits the garbage's own frames, at most one spurious frame, and then a suffix
   * of what was sent, with nothing left over.
   */
  lemma Resynchronises(garbage: seq<byte>, items: seq<Item>)
    requires Sturdy(items)
    ensures exists k: nat, extra :: k <= 65 && Recovers(garbage, items, k, extra)
  {
    hide Recovers, LeavesSuffix, Cut, Wire, Decode;
    forall n | 1 <= n <= |Wire(items)| && Cut(Wire(items), n) ensures LeavesSuffix(items, n) {
      SturdyCut(items, n);
    }
    var n, k, extra := Recovery(garbage, items);
    WireLength(items);
    if n > 0 && k > 0 {
      SturdyCut(items, n);
    }
  }

  /** Start bytes inside frames need not be a danger. */
  const INNER := Item([], 1, [START, 0, 0, 0])

  lemma InnerBytes()
    ensures Encode(1, [START, 0, 0, 0]) == [START, 1, 4, START, 0, 0, 0] + [5]
  {
    LengthByteOf(4, 4);
    assert Body(1, [START, 0, 0, 0]) == [START, 1, 4] + [START, 0, 0] + [0];
    XorOfSeven(START, 1, 4, START, 0, 0, 0);
  }

  lemma InnerTails(raw: seq<byte>)
    requires raw == [START, 1, 4, START, 0, 0, 0] + [5]
    ensures NoTrace(raw)
  {
    hide Decode;
    var a: seq<byte>, c: seq<byte> := [START, 0, 0, 0], [5];
    assert Xor([START, 0, 0]) == START by { XorOfThree(START, 0, 0); }
    assert a[..3] == [START, 0, 0];
    DecodeStep(Rejected(a), c);
    NoiseIsSkipped(c, []);
    PendingDecodes([]);
    assert c + [] == c;
    forall j | 1 <= j <= |raw| ensures Decode(raw[j..]) == Decoded([], []) {
      if j <= 3 {
        NoiseIsSkipped(raw[j..3], a + c);
        assert raw[j..] == raw[j..3] + (a + c);
      } else {
        NoiseIsSkipped(raw[j..], []);
        assert raw[j..] + [] == raw[j..];
      }
    }
  }

  /** A sturdy line that is not clean. */
  lemma SturdyNotClean(n: nat)
    requires n > 0
    ensures Sturdy(Repeat(INNER, n)) && !Clean(Repeat(INNER, n))
  {
    hide Encode, NoTrace;
    InnerBytes();
    InnerTails(Encode(1, [START, 0, 0, 0]));
    assert Repeat(INNER, n)[0] == INNER;
    assert Encode(1, [START, 0, 0, 0])[1..][2] == START;
  }

  // ---- The bound of 65 is attained -------------------------------------------

  /** A four-byte frame that is clean; as a length byte its command reads 254. */
  const SHORT := Item([], 0xFE, [])

  lemma ShortBytes()
    ensures ItemBytes(SHORT) == [START, 0xFE, 0, 1]
    ensures Encode(0xFE, []) == [START, 0xFE, 0, 1]
  {
    assert Body(0xFE, []) == [START, 0xFE, 0];
    XorOfThree(START, 0xFE, 0);
  }

  lemma {:induction false} WireAppend(a: seq<Item>, b: seq<Item>)
    ensures Wire(a + b) == Wire(a) + Wire(b)
  {
    if a == [] {
      assert a + b == b;
    } else {
      WireAppend(a[1..], b);
      assert (a + b)[1..] == a[1..] + b;
      Associates(ItemBytes(a[0]), Wire(a[1..]), Wire(b));
    }
  }

  lemma {:induction false} ShortRun(n: nat)
    ensures |Wire(Repeat(SHORT, n))| == 4 * n
    ensures Xor(Wire(Repeat(SHORT, n))) == 0
    ensures n > 0 ==> Wire(Repeat(SHORT, n))[..2] == [START, 0xFE]
  {
    if n > 0 {
      hide Encode;
      ShortRun(n - 1);
      ShortBytes();
      ShortXor();
      hide Xor;
      assert Repeat(SHORT, n)[1..] == Repeat(SHORT, n - 1);
      XorAppend(ItemBytes(SHORT), Wire(Repeat(SHORT, n - 1)));
    }
  }

  lemma ShortXor()
    ensures Xor([START, 0xFE, 0, 1]) == 0
  {
    var s: seq<byte> := [START, 0xFE, 0, 1];
    assert s[..3] == [START, 0xFE, 0];
    XorOfThree(START, 0xFE, 0);
  }

  lemma StrayDecodes(raw: seq<byte>, m: nat)
    requires ValidPiece(Accepted(raw))
    ensures Decode(raw + ([0xFE, 0, 1] + Wire(Repeat(SHORT, m))))
         == Decoded([FrameOf(raw)] + Sent(Repeat(SHORT, m)), [])
  {
    hide Decode;
    var tail := Wire(Repeat(SHORT, m));
    DecodeStep(Accepted(raw), [0xFE, 0, 1] + tail);
    NoiseIsSkipped([0xFE, 0, 1], tail);
    WireAlone(Repeat(SHORT, m));
  }

  /** A stray start byte, 64 short frames and the start byte of the next one. */
  function Stray(): seq<byte> {
    ([START] + Wire(Repeat(SHORT, 64))) + [START]
  }

  lemma StrayLine(n: nat)
    requires n >= 65
    ensures [START] + Wire(Repeat(SHORT, n)) == Stray() + ([0xFE, 0, 1] + Wire(Repeat(SHORT, n - 65)))
  {
    ShortBytes();
    ShortLine(n);
    StrayByte(Wire(Repeat(SHORT, 64)), Wire(Repeat(SHORT, n - 65)));
  }

  lemma ShortLine(n: nat)
    requires n >= 65
    ensures Wire(Repeat(SHORT, n))
         == Wire(Repeat(SHORT, 64)) + (ItemBytes(SHORT) + Wire(Repeat(SHORT, n - 65)))
  {
    var tail := [SHORT] + Repeat(SHORT, n - 65);
    assert Repeat(SHORT, n) == Repeat(SHORT, 64) + tail;
    WireAppend(Repeat(SHORT, 64), tail);
    assert tail[1..] == Repeat(SHORT, n - 65);
  }

  lemma StrayCandidate()
    ensures ValidPiece(Accepted(Stray()))
  {
    var run, raw := Wire(Repeat(SHORT, 64)), Stray();
    ShortRun(64);
    assert run[..2][1] == raw[2];
    assert Xor([START]) == START;
    XorAppend([START], run);
    assert raw[..|raw| - 1] == [START] + run;
  }

  lemma StrayByte(run: seq<byte>, tail: seq<byte>)
    ensures [START] + (run + ([START, 0xFE, 0, 1] + tail)) == (([START] + run) + [START]) + ([0xFE, 0, 1] + tail)
  {
  }

  /** One stray start byte can cost 65 frames and put one that was never sent in their place. */
  lemma SixtyFiveLost(n: nat)
    requires n >= 65
    ensures Clean(Repeat(SHORT, n)) && Sturdy(Repeat(SHORT, n))
    ensures exists spurious ::
              Decode([START] + Wire(Repeat(SHORT, n))) == Decoded([spurious] + Sent(Repeat(SHORT, n - 65)), [])
  {
    ShortBytes();
    assert Clean(Repeat(SHORT, n));
    hide Encode, Stray, Decode, Wire;
    CleanIsSturdy(Repeat(SHORT, n));
    StrayLine(n);
    StrayCandidate();
    StrayDecodes(Stray(), n - 65);
  }

  // ---- Without clean frames there may be no way back --------------------------

  /** The bytes FF 01 04 00 FF 02 04 03, whose second half also looks like a start. */
  const LURE := Item([], 1, [0, START, 2, 4])
  /** The same bytes read from their middle on: FF 02 04 03 FF 01 04 00. */
  const LURED := Item([], 2, [3, START, 1, 4])

  const HALF: seq<byte> := [START, 2, 4, 3]

  lemma LureBytes()
    ensures ItemBytes(LURE) == [START, 1, 4, 0] + HALF
    ensures ItemBytes(LURED) == HALF + [START, 1, 4, 0]
  {
    LengthByteOf(4, 4);
    assert Body(1, [0, START, 2, 4]) == [START, 1, 4] + [0, START, 2] + [4];
    assert Body(2, [3, START, 1, 4]) == [START, 2, 4] + [3, START, 1] + [4];
    XorOfSeven(START, 1, 4, 0, START, 2, 4);
    XorOfSeven(START, 2, 4, 3, START, 1, 4);
  }

  lemma XorOfSeven(a: byte, b: byte, c: byte, d: byte, e: byte, f: byte, g: byte)
    ensures Xor([a, b, c] + [d, e, f] + [g]) == (a ^ b ^ c) ^ (d ^ e ^ f) ^ g
  {
    XorOfThree(a, b, c);
    XorOfThree(d, e, f);
    XorAppend([a, b, c], [d, e, f]);
    assert ([a, b, c] + [d, e, f] + [g])[..6] == [a, b, c] + [d, e, f];
  }

  lemma {:induction false} LuredLine(n: nat)
    ensures HALF + Wire(Repeat(LURE, n)) == Wire(Repeat(LURED, n)) + HALF
  {
    if n == 0 {
      assert HALF + Wire(Repeat(LURE, n)) == HALF;
    } else {
      LuredLine(n - 1);
      LureBytes();
      var other: seq<byte> := [START, 1, 4, 0];
      assert Repeat(LURE, n)[1..] == Repeat(LURE, n - 1);
      assert Repeat(LURED, n)[1..] == Repeat(LURED, n - 1);
      Shift(HALF, other, Wire(Repeat(LURE, n - 1)), Wire(Repeat(LURED, n - 1)));
    }
  }

  lemma Shift(h: seq<byte>, o: seq<byte>, x: seq<byte>, y: seq<byte>)
    requires h + x == y + h
    ensures h + ((o + h) + x) == ((h + o) + y) + h
  {
    Associates(o, h, x);
    assert h + (o + (h + x)) == (h + o) + (h + x);
    Associates(h + o, y, h);
  }

  /** With start bytes inside frames, four bytes of garbage can hide every frame, however many follow. */
  lemma NeverBackInSync(n: nat)
    ensures Sendable(Repeat(LURE, n))
    ensures var d := Decode(HALF + Wire(Repeat(LURE, n)));
            |d.frames| == n && forall f :: f in d.frames ==> f !in Sent(Repeat(LURE, n))
  {
    hide Encode, Wire, Parse;
    LuredLine(n);
    HalfIsPending();
    WireDecodes(Repeat(LURED, n), HALF);
    var sent, got := Sent(Repeat(LURE, n)), Sent(Repeat(LURED, n));
    assert Decode(HALF + Wire(Repeat(LURE, n))).frames == got + [] == got;
    assert forall f :: f in got ==> f.command == 2;
    assert forall f :: f in sent ==> f.command == 1;
  }

  lemma HalfIsPending()
    ensures Decode(HALF) == Decoded([], HALF)
  {
    LengthByteOf(4, 4);
  }
}
