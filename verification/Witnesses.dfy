// Runs in which the exceptions that the theorems allow do happen.

module Witnesses {
  import opened Bytes
  import opened Framing
  import opened Codec
  import opened Link
  import opened Protocol
  import opened Commands
  import Activation
  import Listener

  /** A port that always opens and brings these reads, one millisecond each, and then nothing. */
  function Scripted(arrivals: seq<seq<byte>>): Env {
    Env(
      (k: nat, max: nat) => if k < |arrivals| && |arrivals[k]| <= max then Data(arrivals[k]) else Data([]),
      (k: nat) => k,
      (t: nat) => t,
      (k: nat) => 0,
      (k: nat) => Ready,
      (k: nat) => "",
      9600)
  }

  lemma ScriptIsValid(arrivals: seq<seq<byte>>)
    ensures Scripted(arrivals).Valid()
  {
  }

  function Start(buffer: seq<byte>): World {
    World(buffer, 0, 0, 0, [], 0)
  }

  // ---- An awaited frame at the front of the buffer -------------------------------------

  lemma FirstFrameAwaited(raw: seq<byte>, tail: seq<byte>, want: Option<byte>)
    requires ValidPiece(Accepted(raw)) && Matches(FrameOf(raw), want)
    ensures TakeUntil(raw + tail, want) == Taken([FrameOf(raw)], Some(FrameOf(raw)), tail)
  {
    var s := raw + tail;
    assert s[..|raw|] == raw && s[|raw|..] == tail;
    assert s[0] == raw[0] && s[2] == raw[2];
    assert FirstPiece(s) == Accepted(raw);
    assert Next(s) == (Some(FrameOf(raw)), tail);
  }

  /** The first read ends the wait, and what follows the awaited frame stays in the buffer. */
  lemma AnsweredAtOnce(env: Env, w: World, want: Option<byte>, deadline: int, raw: seq<byte>, tail: seq<byte>)
    requires env.Valid() && Now(env, w) < deadline
    requires ValidPiece(Accepted(raw)) && Matches(FrameOf(raw), want)
    requires Chunk(env, w, READ_SIZE) != [] && w.buffer + Chunk(env, w, READ_SIZE) == raw + tail
    ensures var (f, t) := Wait(env, w, want, deadline);
            && f == Some(FrameOf(raw)) && t.buffer == tail && t.polls == w.polls + 1 && t.waited == w.waited
            && Follows(w, t) && Since(w, t) == [In(Chunk(env, w, READ_SIZE)), Rx(FrameOf(raw))]
  {
    hide TakeUntil;
    FirstFrameAwaited(raw, tail, want);
    var t := Wait(env, w, want, deadline).1;
    assert Rxs([FrameOf(raw)]) == [Rx(FrameOf(raw))];
    assert t.trace == w.trace + [In(Chunk(env, w, READ_SIZE))] + [Rx(FrameOf(raw))];
  }

  /**
   * An attempt that is answered in time succeeds exactly when the answer has no payload or its first byte is
   * zero; otherwise that byte is reported.
   */
  lemma StatusDecides(env: Env, w: World, command: seq<byte>, expected: byte, payload: seq<byte>, timeout: int)
    requires env.Valid() && w.buffer == [] && timeout > 0 && |payload| <= 255
    requires env.read(w.polls, 512) == Data(Encode(expected, payload))
    ensures var e := Attempt(env, w, command, expected, timeout).0;
            e == if |payload| == 0 || payload[0] == 0 then None else Some(BadStatus(payload[0]))
  {
    hide Attempt, Encode, ValidPiece;
    EncodeIsAccepted(expected, payload);
    AnswerJudged(env, w, command, expected, timeout, Encode(expected, payload), Frame(expected, payload, Encode(expected, payload)));
  }

  lemma AnswerJudged(env: Env, w: World, command: seq<byte>, expected: byte, timeout: int, raw: seq<byte>, f: Frame)
    requires env.Valid() && w.buffer == [] && timeout > 0 && env.read(w.polls, 512) == Data(raw)
    requires ValidPiece(Accepted(raw)) && FrameOf(raw) == f && f.command == expected
    ensures Attempt(env, w, command, expected, timeout).0 == Verdict(Some(f))
  {
    hide Wait, ChecksumHolds;
    var w1 := Write(env, w, command);
    assert raw + [] == raw && [] + raw == raw;
    AnsweredAtOnce(env, w1, Some(expected), Now(env, w1) + timeout, raw, []);
  }

  // ---- Commands confirmed by old responses --------------------------------------------------

  lemma ConfirmedAtOnce(env: Env, w: World, command: seq<byte>, expected: byte, timeout: int, attempts: int)
    requires env.Valid() && attempts > 0
    ensures var w1 := Write(env, w, command);
            var (f, t) := Wait(env, w1, Some(expected), Now(env, w1) + timeout);
            f.Some? && IsAck(f.value)
            ==> SendAndWait(env, w, command, expected, timeout, attempts) == (Done, Sleep(t, SETTLE_MS))
  {
    hide Wait;
  }

  /** One attempt and one read are enough; `tail` stays in the buffer. */
  lemma ConfirmedByRead(env: Env, w: World, command: seq<byte>, raw: seq<byte>, tail: seq<byte>)
    requires env.Valid() && ValidPiece(Accepted(raw))
    requires FrameOf(raw).command == Activation.SET_ACK && IsAck(FrameOf(raw))
    requires Chunk(env, w, READ_SIZE) != [] && w.buffer + Chunk(env, w, READ_SIZE) == raw + tail
    ensures var (r, t) := SendAndWait(env, w, command, Activation.SET_ACK, 1500, 5);
            && r.Done? && t.buffer == tail && t.polls == w.polls + 1
            && t.trace == w.trace + [Tx(command), In(Chunk(env, w, READ_SIZE)), Rx(FrameOf(raw))]
  {
    hide Wait, SendAndWait, ChecksumHolds;
    var w1 := Write(env, w, command);
    AnsweredAtOnce(env, w1, Some(Activation.SET_ACK), Now(env, w1) + 1500, raw, tail);
    ConfirmedAtOnce(env, w, command, Activation.SET_ACK, 1500, 5);
    var t := SendAndWait(env, w, command, Activation.SET_ACK, 1500, 5).1;
    assert t.trace == w1.trace + [In(Chunk(env, w, READ_SIZE)), Rx(FrameOf(raw))];
    assert w1.trace == w.trace + [Tx(command)];
  }

  function Ack(): seq<byte> { Encode(Activation.SET_ACK, []) }

  function AckFrame(): Frame { Frame(Activation.SET_ACK, [], Ack()) }

  /** The first read brings three acknowledgements, the next two a byte of noise each. */
  function Hasty(): seq<seq<byte>> { [Ack() + (Ack() + Ack()), [0], [0]] }

  /** The second and the third setting are confirmed by acknowledgements that came before they were sent. */
  function HastyRecord(): seq<Event> {
    [Opened(0, Usable),
     Tx(Activation.EnableOutput()), In(Ack() + (Ack() + Ack())), Rx(AckFrame()),
     Tx(Activation.EnableRssi()), In([0]), Rx(AckFrame()),
     Tx(Activation.PreselectMode()), In([0]), Rx(AckFrame())]
  }

  lemma AckIsAccepted()
    ensures ValidPiece(Accepted(Ack())) && FrameOf(Ack()) == AckFrame() && |Ack()| == 4
  {
    EncodeIsAccepted(Activation.SET_ACK, []);
  }

  lemma ThreeConfirmed(env: Env, w: World)
    requires env == Scripted(Hasty()) && env.Valid() && w.buffer == [] && w.polls == 0
    ensures var (done, t) := Activation.Configure(env, w, Activation.Settings(), Activation.SET_ACK);
            done && t.trace == w.trace + HastyRecord()[1..]
  {
    hide SendAndWait, Encode, ValidPiece;
    AckIsAccepted();
    var ack := Ack();
    hide Ack;
    ConfirmedByRead(env, w, Activation.EnableOutput(), ack, ack + ack);
    var w1 := SendAndWait(env, w, Activation.EnableOutput(), Activation.SET_ACK, 1500, 5).1;
    Associates(ack, ack, [0]);
    ConfirmedByRead(env, w1, Activation.EnableRssi(), ack, ack + [0]);
    var w2 := SendAndWait(env, w1, Activation.EnableRssi(), Activation.SET_ACK, 1500, 5).1;
    Associates(ack, [0], [0]);
    ConfirmedByRead(env, w2, Activation.PreselectMode(), ack, [0] + [0]);
    var w3 := SendAndWait(env, w2, Activation.PreselectMode(), Activation.SET_ACK, 1500, 5).1;
    SettingsOneByOne(env, w);
  }

  lemma SettingsOneByOne(env: Env, w: World)
    requires env.Valid()
    ensures var (r1, w1) := SendAndWait(env, w, Activation.EnableOutput(), Activation.SET_ACK, 1500, 5);
            var (r2, w2) := SendAndWait(env, w1, Activation.EnableRssi(), Activation.SET_ACK, 1500, 5);
            var (r3, w3) := SendAndWait(env, w2, Activation.PreselectMode(), Activation.SET_ACK, 1500, 5);
            r1.Done? && r2.Done? && r3.Done?
            ==> Activation.Configure(env, w, Activation.Settings(), Activation.SET_ACK) == (true, w3)
  {
    hide SendAndWait, Encode, Activation.Configure;
    var (r1, w1) := SendAndWait(env, w, Activation.EnableOutput(), Activation.SET_ACK, 1500, 5);
    var (r2, w2) := SendAndWait(env, w1, Activation.EnableRssi(), Activation.SET_ACK, 1500, 5);
    var (r3, w3) := SendAndWait(env, w2, Activation.PreselectMode(), Activation.SET_ACK, 1500, 5);
    Activation.SettingsInTurn();
    Activation.ConfigureStep(env, w, Activation.EnableOutput(), [Activation.EnableRssi(), Activation.PreselectMode()], Activation.SET_ACK);
    Activation.ConfigureStep(env, w1, Activation.EnableRssi(), [Activation.PreselectMode()], Activation.SET_ACK);
    Activation.ConfigureStep(env, w2, Activation.PreselectMode(), [], Activation.SET_ACK);
    Activation.ConfigureNothing(env, w3, Activation.SET_ACK);
  }

  /**
   * A run of the activation in which all settings count as acknowledged although, after the first, no
   * byte of any frame arrives.
   */
  lemma ConfirmedByOldResponses()
    ensures var env, w := Scripted(Hasty()), Start([]);
            && env.Valid()
            && var (r, t) := Activation.Activate(env, w);
            && !r.NotConfigured? && HastyRecord() <= t.trace
            && Decode(BytesIn(HastyRecord()[4..])).frames == []
  {
    hide Activation.Configure, SendAndPause, Activation.Reconnect, Encode, Decode, BytesIn;
    var env, w := Scripted(Hasty()), Start([]);
    ScriptIsValid(Hasty());
    var w1 := Open(env, w).1;
    ThreeConfirmed(env, w1);
    assert w1.trace == [Opened(0, Usable)];
    assert [Opened(0, Usable)] + HastyRecord()[1..] == HastyRecord();
    FinishGoesOn(env, Activation.Configure(env, w1, Activation.Settings(), Activation.SET_ACK).1);
    OnlyNoise();
  }

  lemma FinishGoesOn(env: Env, w: World)
    requires env.Valid() && Supported(env.baud)
    ensures w.trace <= Activation.Finish(env, w).1.trace
    ensures !Activation.Finish(env, w).0.NotConfigured?
  {
    hide Activation.Finish, Causal;
    var reset, over, at, modes, over', second := Activation.FinishMeaning(env, w);
  }

  lemma OnlyNoise()
    ensures Decode(BytesIn(HastyRecord()[4..])).frames == []
  {
    var f := AckFrame();
    var second := [Tx(Activation.EnableRssi()), In([0]), Rx(f)];
    var third := [Tx(Activation.PreselectMode()), In([0]), Rx(f)];
    assert HastyRecord()[4..] == second + third;
    hide Ack, Encode, Decode;
    NoiseBetween(Activation.EnableRssi(), f);
    NoiseBetween(Activation.PreselectMode(), f);
    BytesInAppend(second, third);
    NoiseIsSkipped([0, 0], []);
    PendingDecodes([]);
    assert [0 as byte] + [0] == [0, 0] && [0 as byte, 0] + [] == [0, 0];
  }

  lemma NoiseBetween(command: seq<byte>, f: Frame)
    ensures BytesIn([Tx(command), In([0]), Rx(f)]) == [0]
  {
    RecordsOfAct(Tx(command));
    RecordsOfIn([0]);
    Listener.OneFrame(f);
    BytesInAppend([In([0])], [Rx(f)]);
    BytesInAppend([Tx(command)], [In([0])] + [Rx(f)]);
    assert [Tx(command), In([0]), Rx(f)] == [Tx(command)] + ([In([0])] + [Rx(f)]);
  }

  // ---- An indication lost by the probe ------------------------------------------------------

  function Answer(): seq<byte> { Encode(Listener.RSSI_RESPONSE, [0x45, 1, 1]) }

  function AnswerFrame(): Frame { Frame(Listener.RSSI_RESPONSE, [0x45, 1, 1], Answer()) }

  lemma AnswerIsAccepted()
    ensures ValidPiece(Accepted(Answer())) && FrameOf(Answer()) == AnswerFrame()
  {
    EncodeIsAccepted(Listener.RSSI_RESPONSE, [0x45, 1, 1]);
  }

  lemma ProbeAnswered(env: Env, w: World, tail: seq<byte>)
    requires env.Valid() && Chunk(env, w, READ_SIZE) == Answer() + tail
    ensures var (enabled, t) := Listener.Probe(env, w);
            && enabled && t.polls == w.polls + 1 && t.waited == w.waited + env.busy(w.calls)
            && t.trace == w.trace + [Tx(Listener.RssiRequest()), In(Answer() + tail), Rx(AnswerFrame()), Probed(true)]
  {
    hide Wait, Encode, ChecksumHolds;
    AnswerIsAccepted();
    var w1 := Write(env, w.(buffer := []), Listener.RssiRequest());
    assert w1.buffer + (Answer() + tail) == Answer() + tail;
    AnsweredAtOnce(env, w1, Some(Listener.RSSI_RESPONSE), Now(env, w1) + 1500, Answer(), tail);
    var t := Listener.Probe(env, w).1;
    assert t.trace == w1.trace + [In(Answer() + tail), Rx(AnswerFrame())] + [Probed(true)];
    assert w1.trace == w.trace + [Tx(Listener.RssiRequest())];
  }

  /** A session on which nothing more arrives records nothing and goes on until the stop signal comes. */
  lemma {:induction false} NothingArrives(env: Env, w: World, rssiEnabled: bool, opts: Listener.Options, left: nat)
    requires forall k: nat, max: nat :: k >= w.polls ==> env.read(k, max) == Data([])
    ensures var (t, l) := Listener.Receive(env, w, rssiEnabled, opts, left);
            t.trace == w.trace && l == 0 && t.polls == w.polls + left && t.waited == w.waited + 25 * left
    decreases left
  {
    if left > 0 {
      var t := Listener.Round(env, w, rssiEnabled, opts).1;
      NothingArrives(env, t, rssiEnabled, opts, left - 1);
    }
  }

  /**
   * A run of the listener in which a data indication comes in the same read as the answer: the probe takes
   * the answer, and the indication stays behind in the buffer that is dropped. However long the program
   * then runs, it is never heard and nothing is delivered.
   */
  lemma IndicationLost(payload: seq<byte>, opts: Listener.Options, left: nat)
    requires |payload| <= 255 && left > 0
    ensures var indication := Encode(Listener.DATA_INDICATION, payload);
            var env := Scripted([Answer() + indication]);
            && env.Valid()
            && Listener.Listen(env, Start([]), 0, opts, left).trace
               == [Opened(0, Usable), Tx(Listener.RssiRequest()), In(Answer() + indication), Rx(AnswerFrame()),
                   Probed(true), Closed(1 + 26 * (left - 1))]
            && Decode(Answer() + indication).frames
               == [AnswerFrame(), Frame(Listener.DATA_INDICATION, payload, indication)]
  {
    hide Decode, Encode, Listener.Probe, Listener.Receive, ChecksumHolds;
    var indication := Encode(Listener.DATA_INDICATION, payload);
    var chunk := Answer() + indication;
    var env := Scripted([chunk]);
    ScriptIsValid([chunk]);
    AnswerIsAccepted();
    BuiltFrameComesBack(Listener.DATA_INDICATION, payload);
    DecodeStep(Accepted(Answer()), indication);
    var w1 := Open(env, Start([])).1;
    ProbeAnswered(env, w1, indication);
    var (enabled, p) := Listener.Probe(env, w1);
    NothingArrives(env, p.(buffer := []), enabled, opts, left - 1);
    assert w1.trace == [Opened(0, Usable)];
  }

  // ---- A port left open ------------------------------------------------------------------------

  ghost predicate Silent(env: Env) {
    forall k: nat, max: nat :: Arrival(env.read(k, max)) == []
  }

  lemma {:induction false} SilentWait(env: Env, w: World, want: Option<byte>, deadline: int)
    requires env.Valid() && Silent(env)
    ensures Wait(env, w, want, deadline).0.None?
    decreases Left(env, w, deadline)
  {
    if Now(env, w) < deadline {
      TimeRunsOut(env, w, deadline);
      assert Arrival(env.read(w.polls, READ_SIZE)) == [];
      SilentWait(env, Poll(env, w, want).1, want, deadline);
    }
  }

  lemma SilentAttempt(env: Env, w: World, command: seq<byte>, expected: byte, timeout: int)
    requires env.Valid() && Silent(env)
    ensures Attempt(env, w, command, expected, timeout).0.Some?
  {
    hide Wait;
    var w1 := Write(env, w, command);
    SilentWait(env, w1, Some(expected), Now(env, w1) + timeout);
  }

  /** Activation leaves every port open that opens and never answers. */
  lemma SilentPortStaysOpen(env: Env, w: World)
    requires env.Valid() && Silent(env) && env.Opens(w.calls).Usable?
    ensures Activation.LeftOpen(env, w)
  {
    hide Attempt, SendAndWait, SendAndPause;
    var w1 := Open(env, w).1;
    forall k: nat | k < 5
      ensures Outcome(env, w1, Activation.EnableOutput(), Activation.SET_ACK, Activation.TIMEOUT_MS, k).Some?
    {
      hide AfterFailures;
      SilentAttempt(env, AfterFailures(env, w1, Activation.EnableOutput(), Activation.SET_ACK, Activation.TIMEOUT_MS, k),
                    Activation.EnableOutput(), Activation.SET_ACK, Activation.TIMEOUT_MS);
    }
    assert Activation.StartOf(env, w1, Activation.Settings(), Activation.SET_ACK, 0) == w1;
  }

  /** There is such a port, and after the run on it the record ends with the port open. */
  lemma SilentRun()
    ensures var env, w := Scripted([]), Start([]);
            && env.Valid()
            && var t := Activation.Activate(env, w).1;
            && Follows(w, t) && PortAfter(Since(w, t), Some(false)) == Some(true)
  {
    hide Activation.Activate, Activation.LeftOpen, PortAfter;
    var env := Scripted([]);
    ScriptIsValid([]);
    SilentPortStaysOpen(env, Start([]));
    Activation.ActivationPort(env, Start([]));
  }
}
