// Setting the device up: three confirmed settings and a reset on one connection, the mode on another.

module Activation {
  import opened Bytes
  import opened Framing
  import opened Codec
  import opened ReceiveBuffers
  import opened Link
  import opened Protocol
  import opened Commands
  import opened SerialPorts

  const SET_ACK: byte := 0x89
  const MODE_ACK: byte := 0x84
  const TIMEOUT_MS: nat := 1500
  const ATTEMPTS: nat := 5
  const RESET_PAUSE_MS: nat := 1200

  function EnableOutput(): seq<byte> { Encode(0x09, [0x05, 0x01, 0x01]) }

  function EnableRssi(): seq<byte> { Encode(0x09, [0x45, 0x01, 0x01]) }

  function PreselectMode(): seq<byte> { Encode(0x09, [0x46, 0x01, 0x09]) }

  function Reset(): seq<byte> { Encode(0x05, []) }

  function SetMode(): seq<byte> { Encode(0x04, [0x09]) }

  function Settings(): seq<seq<byte>> { [EnableOutput(), EnableRssi(), PreselectMode()] }

  /** The five requests as they go over the line. */
  lemma CommandBytes()
    ensures EnableOutput() == [0xFF, 0x09, 0x03, 0x05, 0x01, 0x01, 0xF0]
    ensures EnableRssi() == [0xFF, 0x09, 0x03, 0x45, 0x01, 0x01, 0xB0]
    ensures PreselectMode() == [0xFF, 0x09, 0x03, 0x46, 0x01, 0x09, 0xBB]
    ensures Reset() == [0xFF, 0x05, 0x00, 0xFA]
    ensures SetMode() == [0xFF, 0x04, 0x01, 0x09, 0xF3]
  {
    hide Encode, Xor;
    XorOfFew(0x05, 0x01, 0x01);
    XorOfFew(0x45, 0x01, 0x01);
    XorOfFew(0x46, 0x01, 0x09);
    XorOfFew(0x09, 0, 0);
    ShortFrame(0x09, [0x05, 0x01, 0x01], 3);
    ShortFrame(0x09, [0x45, 0x01, 0x01], 3);
    ShortFrame(0x09, [0x46, 0x01, 0x09], 3);
    ShortFrame(0x05, [], 0);
    ShortFrame(0x04, [0x09], 1);
  }

  // ---- Confirmed commands one after the other ---------------------------------------

  /** Send each command until it is acknowledged; stop at the first that is not. */
  function Configure(env: Env, w: World, commands: seq<seq<byte>>, expected: byte): (bool, World)
    requires env.Valid()
    decreases |commands|
  {
    if commands == [] then (true, w)
    else
      var (r, t) := SendAndWait(env, w, commands[0], expected, TIMEOUT_MS, ATTEMPTS);
      if r.GaveUp? then (false, t) else Configure(env, t, commands[1..], expected)
  }

  function Joined(segments: seq<seq<Event>>): seq<Event> {
    if segments == [] then [] else segments[0] + Joined(segments[1..])
  }

  /** The last event is a response to the awaited command with an empty or zero status. */
  predicate EndsInAck(es: seq<Event>, expected: byte) {
    && |es| > 0 && es[|es| - 1].Rx?
    && es[|es| - 1].frame.command == expected
    && (|es[|es| - 1].frame.payload| == 0 || es[|es| - 1].frame.payload[0] == 0)
  }

  /**
   * The record of one confirmed command: it begins with the command, transmits nothing else and
   * that one to five times, and ends in its acknowledgement, or else was sent all five times.
   */
  predicate SegmentOf(es: seq<Event>, command: seq<byte>, expected: byte, acknowledged: bool) {
    && |es| > 0 && es[0] == Tx(command)
    && 1 <= |Acts(es)| <= 5 && Acts(es) == Repeat(Tx(command), |Acts(es)|)
    && (if acknowledged then EndsInAck(es, expected) else |Acts(es)| == 5)
  }

  /** Consecutive records of the commands in order; all but a failed last one end in an acknowledgement. */
  predicate Segmented(segments: seq<seq<Event>>, commands: seq<seq<byte>>, expected: byte, done: bool) {
    && (if done then |segments| == |commands| else 0 < |segments| <= |commands|)
    && forall i :: 0 <= i < |segments| ==>
         SegmentOf(segments[i], commands[i], expected, done || i < |segments| - 1)
  }

  /** One confirmed command is one segment, acknowledged exactly if it is done. */
  lemma OneSegment(env: Env, w: World, command: seq<byte>, expected: byte)
    requires env.Valid()
    ensures var (r, t) := SendAndWait(env, w, command, expected, TIMEOUT_MS, ATTEMPTS);
            Conserved(w, t) && SegmentOf(Since(w, t), command, expected, r.Done?)
  {
    hide Decode, Causal, SendAndWait, Outcome, SucceedsAt;
    var (r, t) := SendAndWait(env, w, command, expected, TIMEOUT_MS, ATTEMPTS);
    RetryMeaning(env, w, command, expected, TIMEOUT_MS, ATTEMPTS);
    var k: nat, h :| Ended(env, w, command, expected, TIMEOUT_MS, ATTEMPTS, r, t, k, h);
    assert |Acts(Since(w, t))| == if r.Done? then k + 1 else k;
  }

  lemma SegmentedCons(es: seq<Event>, segments: seq<seq<Event>>, command: seq<byte>, commands: seq<seq<byte>>,
                      expected: byte, done: bool)
    requires SegmentOf(es, command, expected, true) && Segmented(segments, commands, expected, done)
    ensures Segmented([es] + segments, [command] + commands, expected, done)
    ensures Joined([es] + segments) == es + Joined(segments)
  {
    hide SegmentOf;
    assert ([es] + segments)[1..] == segments;
  }

  lemma {:induction false} ConfigureMeaning(env: Env, w: World, commands: seq<seq<byte>>, expected: byte)
    returns (segments: seq<seq<Event>>)
    requires env.Valid()
    ensures var (done, t) := Configure(env, w, commands, expected);
            && Conserved(w, t) && Since(w, t) == Joined(segments)
            && (commands != [] || done) && Segmented(segments, commands, expected, done)
    decreases |commands|
  {
    hide SendAndWait, SegmentOf, Decode, Causal;
    if commands == [] {
      segments := [];
      QuietStep(w, w, []);
    } else {
      var (r, t) := SendAndWait(env, w, commands[0], expected, TIMEOUT_MS, ATTEMPTS);
      OneSegment(env, w, commands[0], expected);
      if r.GaveUp? {
        segments := [Since(w, t)];
        assert Joined(segments) == Since(w, t) + [];
      } else {
        var more := ConfigureMeaning(env, t, commands[1..], expected);
        Between(w, t, Configure(env, t, commands[1..], expected).1);
        ConservedTrans(w, t, Configure(env, t, commands[1..], expected).1);
        SegmentedCons(Since(w, t), more, commands[0], commands[1..], expected, Configure(env, t, commands[1..], expected).0);
        segments := [Since(w, t)] + more;
        assert commands == [commands[0]] + commands[1..];
      }
    }
  }

  // ---- When a sequence fails ------------------------------------------------------------

  /** The world in which block number `i` starts once the earlier ones are over. */
  function StartOf(env: Env, w: World, commands: seq<seq<byte>>, expected: byte, i: nat): World
    requires env.Valid() && i <= |commands|
  {
    if i == 0 then w
    else SendAndWait(env, StartOf(env, w, commands, expected, i - 1), commands[i - 1], expected, TIMEOUT_MS, ATTEMPTS).1
  }

  /** In none of the five attempts does a response come in time with an empty or zero status. */
  ghost predicate Unacknowledged(env: Env, w: World, command: seq<byte>, expected: byte)
    requires env.Valid()
  {
    forall k: nat :: k < 5 ==> Commands.Outcome(env, w, command, expected, 1500, k).Some?
  }

  lemma GivesUpWhenUnacknowledged(env: Env, w: World, command: seq<byte>, expected: byte)
    requires env.Valid()
    ensures SendAndWait(env, w, command, expected, TIMEOUT_MS, ATTEMPTS).0.GaveUp?
            <==> Unacknowledged(env, w, command, expected)
  {
    hide SendAndWait, Commands.Outcome;
    RetryMeaning(env, w, command, expected, TIMEOUT_MS, ATTEMPTS);
  }

  lemma {:induction false} StartOfTail(env: Env, w: World, commands: seq<seq<byte>>, expected: byte, i: nat)
    requires env.Valid() && i < |commands|
    ensures var t := SendAndWait(env, w, commands[0], expected, TIMEOUT_MS, ATTEMPTS).1;
            StartOf(env, w, commands, expected, i + 1) == StartOf(env, t, commands[1..], expected, i)
  {
    hide SendAndWait;
    if i > 0 {
      StartOfTail(env, w, commands, expected, i - 1);
    }
  }

  /** A sequence fails exactly when one of its commands is not acknowledged in the world it starts in. */
  lemma {:induction false} ConfigureFails(env: Env, w: World, commands: seq<seq<byte>>, expected: byte)
    requires env.Valid()
    ensures var (done, t) := Configure(env, w, commands, expected);
            && (!done <==> exists i :: 0 <= i < |commands|
                             && Unacknowledged(env, StartOf(env, w, commands, expected, i), commands[i], expected))
            && (done ==> t == StartOf(env, w, commands, expected, |commands|))
    decreases |commands|
  {
    hide SendAndWait, Unacknowledged;
    if commands != [] {
      var (r, t) := SendAndWait(env, w, commands[0], expected, TIMEOUT_MS, ATTEMPTS);
      var rest := commands[1..];
      GivesUpWhenUnacknowledged(env, w, commands[0], expected);
      assert StartOf(env, w, commands, expected, 0) == w;
      if r.Done? {
        ConfigureFails(env, t, rest, expected);
        forall i | 0 <= i < |commands|
          ensures StartOf(env, w, commands, expected, i + 1) == StartOf(env, t, rest, expected, i)
        {
          StartOfTail(env, w, commands, expected, i);
        }
        assert forall i :: 0 <= i < |rest| ==> rest[i] == commands[i + 1];
        ShiftedFailure(env, w, t, commands, expected);
      }
    }
  }

  lemma ShiftedFailure(env: Env, w: World, t: World, commands: seq<seq<byte>>, expected: byte)
    requires env.Valid() && commands != []
    requires !Unacknowledged(env, w, commands[0], expected)
    requires forall i :: 0 <= i < |commands| ==>
               StartOf(env, w, commands, expected, i + 1) == StartOf(env, t, commands[1..], expected, i)
    ensures (exists i :: 0 <= i < |commands|
               && Unacknowledged(env, StartOf(env, w, commands, expected, i), commands[i], expected))
        <==> (exists i :: 0 <= i < |commands| - 1
               && Unacknowledged(env, StartOf(env, t, commands[1..], expected, i), commands[1..][i], expected))
  {
    hide Unacknowledged, SendAndWait;
    assert StartOf(env, w, commands, expected, 0) == w;
    if i :| 0 <= i < |commands| && Unacknowledged(env, StartOf(env, w, commands, expected, i), commands[i], expected) {
      assert i > 0 && commands[1..][i - 1] == commands[i];
      assert StartOf(env, w, commands, expected, (i - 1) + 1) == StartOf(env, t, commands[1..], expected, i - 1);
    }
    if i :| 0 <= i < |commands| - 1
            && Unacknowledged(env, StartOf(env, t, commands[1..], expected, i), commands[1..][i], expected) {
      assert StartOf(env, w, commands, expected, i + 1) == StartOf(env, t, commands[1..], expected, i);
      assert commands[i + 1] == commands[1..][i];
    }
  }

  // ---- The whole activation ------------------------------------------------------------

  datatype Progress = NoPort | NotConfigured | NoPortAfterReset | NoMode | Completed

  /** Up to the last of the three settings. */
  function Prepare(env: Env, w: World): (Progress, World)
    requires env.Valid()
  {
    var (ok, w1) := Open(env, w);
    if !ok then (NoPort, w1)
    else
      var (done, w2) := Configure(env, w1, Settings(), SET_ACK);
      (if done then Completed else NotConfigured, w2)
  }

  /** The mode, on a connection of its own. */
  function Reconnect(env: Env, w: World): (Progress, World)
    requires env.Valid()
  {
    var (ok, w1) := Open(env, w);
    if !ok then (NoPortAfterReset, w1)
    else
      var (done, w2) := Configure(env, w1, [SetMode()], MODE_ACK);
      if done then (Completed, Close(env, w2)) else (NoMode, w2)
  }

  /** From the reset, which waits for no acknowledgement, to the end. */
  function Finish(env: Env, w: World): (Progress, World)
    requires env.Valid()
  {
    Reconnect(env, Close(env, SendAndPause(env, w, Reset(), RESET_PAUSE_MS)))
  }

  /** Every outcome but the last leaves by an exception. */
  function Activate(env: Env, w: World): (Progress, World)
    requires env.Valid()
  {
    var (r, t) := Prepare(env, w);
    if r.Completed? then Finish(env, t) else (r, t)
  }

  /** The record of the reset: one transmission, then only what is heard. */
  predicate ResetRecord(es: seq<Event>) {
    |es| > 0 && es[0] == Tx(Reset()) && Acts(es) == [Tx(Reset())]
  }

  /**
   * The record of the second connection. What is heard on it comes from the bytes read on it, and no
   * frame is heard before its bytes.
   */
  ghost predicate ModeRecord(r: Progress, es: seq<Event>, at: int, modes: seq<Event>, over: int) {
    match r
    case NoPortAfterReset => es == [Opened(at, Unopened)]
    case NoMode =>
      Causal([], modes) && SegmentOf(modes, SetMode(), 0x84, false) && es == [Opened(at, Usable)] + modes
    case Completed =>
      && Causal([], modes) && SegmentOf(modes, SetMode(), 0x84, true)
      && es == [Opened(at, Usable)] + modes + [Closed(over)]
    case _ => false
  }

  /** The record of a whole run with outcome `r`; the first connection is accounted for like the second. */
  ghost predicate RunRecord(r: Progress, es: seq<Event>, at: int, segments: seq<seq<Event>>, reset: seq<Event>, over: int,
                            at': int, modes: seq<Event>, over': int, second: seq<Event>) {
    match r
    case NoPort => |es| == 1 && es[0].Opened? && !es[0].how.Usable?
    case NotConfigured =>
      && Causal([], Joined(segments)) && Segmented(segments, Settings(), 0x89, false)
      && es == [Opened(at, Usable)] + Joined(segments)
    case _ =>
      && Causal([], Joined(segments) + reset)
      && Segmented(segments, Settings(), 0x89, true) && ResetRecord(reset) && ModeRecord(r, second, at', modes, over')
      && es == ([Opened(at, Usable)] + Joined(segments)) + ((reset + [Closed(over)]) + second)
  }

  lemma PrepareMeaning(env: Env, w: World) returns (at: int, segments: seq<seq<Event>>)
    requires env.Valid()
    ensures var (r, t) := Prepare(env, w);
            && Follows(w, t) && (r.NoPort? || r.NotConfigured? || r.Completed?)
            && (r.NoPort? <==> !env.Opens(w.calls).Usable?)
            && (if r.NoPort? then Since(w, t) == [Opened(Now(env, w), env.Opens(w.calls))]
                else && Segmented(segments, Settings(), SET_ACK, r.Completed?)
                     && Since(w, t) == [Opened(at, Usable)] + Joined(segments)
                     && Accounted(Joined(segments), t.buffer))
  {
    hide Configure, Encode, Segmented, Decode, Causal;
    at, segments := Now(env, w), [];
    var (ok, w1) := Open(env, w);
    OpenMeaning(env, w);
    if ok {
      segments := ConfigureMeaning(env, w1, Settings(), SET_ACK);
      var w2 := Configure(env, w1, Settings(), SET_ACK).1;
      Between(w, w1, w2);
      FromNothing(w1, w2);
    }
  }

  /** On a connection that starts with an empty buffer, everything heard was read, and `rest` is left. */
  ghost predicate Accounted(es: seq<Event>, rest: seq<byte>) {
    Causal([], es) && Decode(BytesIn(es)) == Prepend(Heard(es), Decode(rest))
  }

  lemma FromNothing(s: World, t: World)
    requires Conserved(s, t) && s.buffer == []
    ensures Accounted(Since(s, t), t.buffer)
  {
    hide Decode, Causal;
    assert [] + Got(s, t) == Got(s, t);
  }

  lemma ReconnectMeaning(env: Env, w: World) returns (at: int, modes: seq<Event>, over: int)
    requires env.Valid() && Supported(env.baud)
    ensures var (r, t) := Reconnect(env, w);
            Follows(w, t) && ModeRecord(r, Since(w, t), at, modes, over)
  {
    hide Configure, SegmentOf, Encode, Causal;
    var (ok, w1) := Open(env, w);
    at, modes, over := Now(env, w), [], 0;
    OpenMeaning(env, w);
    if ok {
      hide ModeRecord;
      var (done, w2) := Configure(env, w1, [SetMode()], MODE_ACK);
      OneCommand(env, w1, SetMode(), MODE_ACK);
      modes := Since(w1, w2);
      over := Now(env, w2);
      SecondConnection(env, w, w1, w2, at, done);
    }
  }

  lemma SecondConnection(env: Env, w: World, w1: World, w2: World, at: int, done: bool)
    requires Follows(w, w1) && Since(w, w1) == [Opened(at, Usable)]
    requires Follows(w1, w2) && Causal([], Since(w1, w2)) && SegmentOf(Since(w1, w2), SetMode(), MODE_ACK, done)
    ensures var t := if done then Close(env, w2) else w2;
            Follows(w, t) && ModeRecord(if done then Completed else NoMode, Since(w, t), at, Since(w1, w2), Now(env, w2))
  {
    hide SegmentOf, Encode, Causal, Heard, BytesIn, Acts;
    Between(w, w1, w2);
    if done {
      CallMeaning(env, w2, Closed(Now(env, w2)));
      Between(w, w2, Close(env, w2));
    }
  }

  lemma OneCommand(env: Env, w: World, command: seq<byte>, expected: byte)
    requires env.Valid() && w.buffer == []
    ensures var (done, t) := Configure(env, w, [command], expected);
            Follows(w, t) && Causal([], Since(w, t)) && SegmentOf(Since(w, t), command, expected, done)
  {
    hide Configure, SegmentOf, Causal, Decode;
    var segments := ConfigureMeaning(env, w, [command], expected);
    assert segments == [segments[0]];
    assert Joined(segments) == segments[0] + [] == segments[0];
  }

  lemma ResetMeaning(env: Env, w: World)
    requires env.Valid()
    ensures var t := SendAndPause(env, w, Reset(), RESET_PAUSE_MS);
            Follows(w, t) && ResetRecord(Since(w, t)) && Causal(w.buffer, Since(w, t))
  {
    hide SendAndPause, Causal, Decode, Encode;
    var heard := PauseMeaning(env, w, Reset(), RESET_PAUSE_MS);
  }

  lemma FinishMeaning(env: Env, w: World)
    returns (reset: seq<Event>, over: int, at: int, modes: seq<Event>, over': int, second: seq<Event>)
    requires env.Valid() && Supported(env.baud)
    ensures var (r, t) := Finish(env, w);
            && Follows(w, t) && ResetRecord(reset) && ModeRecord(r, second, at, modes, over')
            && Since(w, t) == (reset + [Closed(over)]) + second && Causal(w.buffer, reset)
  {
    hide SendAndPause, Reconnect, ResetRecord, ModeRecord, Encode, Causal;
    var w0 := SendAndPause(env, w, Reset(), RESET_PAUSE_MS);
    var w1 := Close(env, w0);
    var t := Reconnect(env, w1).1;
    over := Now(env, w0);
    ResetMeaning(env, w);
    CallMeaning(env, w0, Closed(over));
    at, modes, over' := ReconnectMeaning(env, w1);
    reset, second := Since(w, w0), Since(w1, t);
    Between(w, w0, w1);
    Between(w, w1, t);
  }

  /** The settings and the reset share one connection and one buffer. */
  lemma FirstConnection(settings: seq<Event>, rest: seq<byte>, reset: seq<Event>)
    requires Accounted(settings, rest) && Causal(rest, reset)
    ensures Causal([], settings + reset)
  {
    hide Decode, Causal;
    assert [] + BytesIn(settings) == BytesIn(settings);
    CausalAppend([], settings, rest, reset);
  }

  /**
   * Every run consists of consecutive records: the port is opened; each setting in turn is sent one to
   * five times, and the next block only starts when the one before has ended in its own
   * acknowledgement; the reset is sent once; the port is closed and opened again; and the mode is
   * sent one to five times, ending in its own acknowledgement if the run completes. On each
   * connection the frames heard are those that the bytes read on it until then decode to.
   */
  lemma ActivationTrace(env: Env, w: World)
    returns (at: int, segments: seq<seq<Event>>, reset: seq<Event>, over: int, at': int, modes: seq<Event>, over': int,
             second: seq<Event>)
    requires env.Valid()
    ensures var (r, t) := Activate(env, w);
            && Follows(w, t) && RunRecord(r, Since(w, t), at, segments, reset, over, at', modes, over', second)
            && (r.NoPort? ==> Since(w, t) == [Opened(Now(env, w), env.Opens(w.calls))])
  {
    hide Prepare, Finish, ResetRecord, ModeRecord, Segmented, Encode, Causal, Decode;
    var (r, t) := Prepare(env, w);
    at, segments := PrepareMeaning(env, w);
    reset, over, at', modes, over', second := [], 0, 0, [], 0, [];
    if r.Completed? {
      reset, over, at', modes, over', second := FinishMeaning(env, t);
      FirstConnection(Joined(segments), t.buffer, reset);
      Between(w, t, Finish(env, t).1);
      OnlyLateOutcomes(Finish(env, t).0, second, at', modes, over');
    }
  }

  lemma OnlyLateOutcomes(r: Progress, second: seq<Event>, at: int, modes: seq<Event>, over': int)
    requires ModeRecord(r, second, at, modes, over')
    ensures !r.NoPort? && !r.NotConfigured?
  {
  }

  // ---- The activation told without its functions ------------------------------------------

  /** The command was tried up to five times with 1500 ms for each answer, with this result. */
  ghost predicate TriedFive(env: Env, s: World, command: seq<byte>, expected: byte, done: bool, t: World) {
    exists rounds, r :: Retried(env, s, command, expected, 1500, 5, rounds, r, t) && (r.Done? <==> done)
  }

  lemma TriesFive(env: Env, w: World, command: seq<byte>, expected: byte)
    requires env.Valid()
    ensures var (r, t) := SendAndWait(env, w, command, expected, TIMEOUT_MS, ATTEMPTS);
            TriedFive(env, w, command, expected, r.Done?, t)
  {
    hide SendAndWait, Retried;
    var (r, t) := SendAndWait(env, w, command, expected, TIMEOUT_MS, ATTEMPTS);
    RetryRounds(env, w, command, expected, 1500, 5);
    var rounds :| Retried(env, w, command, expected, 1500, 5, rounds, r, t);
  }

  /** `ws` are the worlds between the commands; all but the last command were confirmed, and the last one if `done`. */
  ghost predicate InTurn(env: Env, ws: seq<World>, commands: seq<seq<byte>>, expected: byte, done: bool) {
    && 1 <= |ws| <= |commands| + 1 && (done ==> |ws| == |commands| + 1) && (!done ==> |ws| >= 2)
    && forall i :: 0 <= i < |ws| - 1 ==>
         TriedFive(env, ws[i], commands[i], expected, done || i < |ws| - 2, ws[i + 1])
  }

  lemma InTurnCons(env: Env, w: World, ws: seq<World>, command: seq<byte>, commands: seq<seq<byte>>, expected: byte, done: bool)
    requires InTurn(env, ws, commands, expected, done) && TriedFive(env, w, command, expected, true, ws[0])
    ensures InTurn(env, [w] + ws, [command] + commands, expected, done)
  {
    hide TriedFive;
    var all, cs := [w] + ws, [command] + commands;
    forall i | 0 <= i < |all| - 1 ensures TriedFive(env, all[i], cs[i], expected, done || i < |all| - 2, all[i + 1]) {
      if i > 0 {
        var j := i - 1;
        InTurnAt(env, ws, commands, expected, done, j);
        assert all[i] == ws[j] && cs[i] == commands[j] && all[i + 1] == ws[j + 1];
      } else {
        assert all[0] == w && cs[0] == command && all[1] == ws[0];
      }
    }
  }

  lemma InTurnAt(env: Env, ws: seq<World>, commands: seq<seq<byte>>, expected: byte, done: bool, j: nat)
    requires InTurn(env, ws, commands, expected, done) && j < |ws| - 1
    ensures TriedFive(env, ws[j], commands[j], expected, done || j < |ws| - 2, ws[j + 1])
  {
  }

  lemma {:induction false} ConfigureInTurn(env: Env, w: World, commands: seq<seq<byte>>, expected: byte)
    returns (ws: seq<World>)
    requires env.Valid()
    ensures var (done, t) := Configure(env, w, commands, expected);
            InTurn(env, ws, commands, expected, done) && ws[0] == w && ws[|ws| - 1] == t
    decreases |commands|
  {
    hide SendAndWait, TriedFive;
    ws := [w];
    if commands != [] {
      var (r, t) := SendAndWait(env, w, commands[0], expected, TIMEOUT_MS, ATTEMPTS);
      TriesFive(env, w, commands[0], expected);
      if r.GaveUp? {
        ws := [w, t];
      } else {
        var more := ConfigureInTurn(env, t, commands[1..], expected);
        InTurnCons(env, w, more, commands[0], commands[1..], expected, Configure(env, t, commands[1..], expected).0);
        ws := [w] + more;
        assert commands == [commands[0]] + commands[1..];
      }
    }
  }

  /**
   * The moments of an activation: the port open, each setting over, the reset written, the pause over, the
   * port closed and open again, the mode over.
   */
  datatype Course = Course(ready: World, settings: seq<World>, reset: World, n: nat, paused: World, closed: World,
                           again: World, mode: World)

  /**
   * The whole activation from `w` to `t`: the three settings in turn, answered by 0x89; the reset and 1200 ms of
   * draining; a new connection; the mode, answered by 0x84. It stops at the first thing that fails.
   */
  ghost predicate Activated(env: Env, w: World, c: Course, r: Progress, t: World) {
    && OpenedPort(env, w, c.ready)
    && if !env.Opens(w.calls).Usable? then r.NoPort? && t == c.ready
       else
         && InTurn(env, c.settings, [[0xFF, 0x09, 0x03, 0x05, 0x01, 0x01, 0xF0], [0xFF, 0x09, 0x03, 0x45, 0x01, 0x01, 0xB0],
                                     [0xFF, 0x09, 0x03, 0x46, 0x01, 0x09, 0xBB]], 0x89, !r.NotConfigured?)
         && c.settings[0] == c.ready
         && var last := c.settings[|c.settings| - 1];
            if r.NotConfigured? then t == last
            else
              && Written(env, last, c.reset, [0xFF, 0x05, 0x00, 0xFA])
              && Polled(env, c.reset, None, Now(env, c.reset) + 1200, c.n, None, c.paused)
              && ClosedPort(env, c.paused, c.closed) && OpenedPort(env, c.closed, c.again)
              && if !env.Opens(c.closed.calls).Usable? then r.NoPortAfterReset? && t == c.again
                 else
                   && TriedFive(env, c.again, [0xFF, 0x04, 0x01, 0x09, 0xF3], 0x84, r.Completed?, c.mode)
                   && if r.Completed? then ClosedPort(env, c.mode, t) else r.NoMode? && t == c.mode
  }

  lemma OneInTurn(env: Env, w: World, command: seq<byte>, expected: byte)
    requires env.Valid()
    ensures var (done, t) := Configure(env, w, [command], expected); TriedFive(env, w, command, expected, done, t)
  {
    hide SendAndWait, TriedFive;
    TriesFive(env, w, command, expected);
    ConfigureStep(env, w, command, [], expected);
    ConfigureNothing(env, SendAndWait(env, w, command, expected, TIMEOUT_MS, ATTEMPTS).1, expected);
    assert [command] + [] == [command];
  }

  /** Every activation runs this course, byte for byte and to the millisecond. */
  lemma ActivationExactly(env: Env, w: World) returns (c: Course)
    requires env.Valid()
    ensures var (r, t) := Activate(env, w); Activated(env, w, c, r, t)
  {
    hide Configure, SendAndPause, Encode, InTurn, TriedFive, Polled;
    CommandBytes();
    var w1 := Open(env, w).1;
    c := Course(w1, [w1], w1, 0, w1, w1, w1, w1);
    if env.Opens(w.calls).Usable? {
      var (done, w2) := Configure(env, w1, Settings(), SET_ACK);
      var ws := ConfigureInTurn(env, w1, Settings(), SET_ACK);
      AtLeastOne(env, ws, Settings(), SET_ACK, done);
      c := c.(settings := ws);
      if done {
        var u, n := PauseExactly(env, w2, Reset(), RESET_PAUSE_MS);
        var w3 := SendAndPause(env, w2, Reset(), RESET_PAUSE_MS);
        var w4 := Close(env, w3);
        var w5 := Open(env, w4).1;
        OneInTurn(env, w5, SetMode(), MODE_ACK);
        c := Course(w1, ws, u, n, w3, w4, w5, Configure(env, w5, [SetMode()], MODE_ACK).1);
      }
    }
  }

  lemma AtLeastOne(env: Env, ws: seq<World>, commands: seq<seq<byte>>, expected: byte, done: bool)
    requires InTurn(env, ws, commands, expected, done)
    ensures |ws| > 0
  {
  }

  // ---- Nothing is sent before the step before it was acknowledged ------------------------

  ghost predicate Distinct(commands: seq<seq<byte>>) {
    forall i, j :: 0 <= i < j < |commands| ==> commands[i] != commands[j]
  }

  lemma CommandsDiffer()
    ensures Distinct(Settings())
    ensures Reset() !in Settings()
    ensures SetMode() !in Settings()
    ensures Reset() != SetMode()
  {
    EncodeParts(0x09, [0x05, 0x01, 0x01]);
    EncodeParts(0x09, [0x45, 0x01, 0x01]);
    EncodeParts(0x09, [0x46, 0x01, 0x09]);
    EncodeParts(0x05, []);
    EncodeParts(0x04, [0x09]);
    assert EnableOutput()[3] == 0x05 && EnableRssi()[3] == 0x45 && PreselectMode()[3] == 0x46;
    assert forall c: seq<byte> :: c in Settings() ==> |c| > 1 && c[1] == 0x09;
  }

  /** The commands of the first connection in order. */
  function Chain(): seq<seq<byte>> { Settings() + [Reset()] }

  /**
   * Where `next` is transmitted for the first time, the event just before is an acknowledgement, and the
   * last thing done before that was to transmit `previous`.
   */
  predicate AckedBefore(es: seq<Event>, previous: seq<byte>, next: seq<byte>, expected: byte) {
    forall i :: 0 <= i < |es| && es[i] == Tx(next) && Tx(next) !in es[..i] ==>
      EndsInAck(es[..i], expected) && |Acts(es[..i])| > 0 && Acts(es[..i])[|Acts(es[..i])| - 1] == Tx(previous)
  }

  lemma AckedAt(before: seq<Event>, es: seq<Event>, rest: seq<Event>, previous: seq<byte>, next: seq<byte>, expected: byte)
    requires SegmentOf(es, previous, expected, true) && Tx(next) !in before + es
    requires |rest| > 0 && rest[0] == Tx(next)
    ensures AckedBefore((before + es) + rest, previous, next, expected)
  {
    var all := (before + es) + rest;
    var n := |before + es|;
    assert all[..n] == before + es && all[n] == Tx(next);
    RecordsAppend(before, es);
    assert forall i :: 0 <= i < n ==> all[i] == (before + es)[i];
    assert forall i :: n < i <= |all| ==> all[..i][n] == Tx(next);
  }

  lemma NotInSegment(es: seq<Event>, command: seq<byte>, other: seq<byte>, expected: byte, acknowledged: bool)
    requires SegmentOf(es, command, expected, acknowledged) && other != command
    ensures Tx(other) !in es
  {
    forall i | 0 <= i < |es| ensures es[i] != Tx(other) {
      if !es[i].Rx? && !es[i].In? {
        ActsKeep(es, i);
      }
    }
  }

  lemma {:induction false} NotInJoined(parts: seq<seq<Event>>, e: Event)
    requires forall i :: 0 <= i < |parts| ==> e !in parts[i]
    ensures e !in Joined(parts)
  {
    if parts != [] {
      NotInJoined(parts[1..], e);
    }
  }

  lemma {:induction false} JoinedAppend(a: seq<seq<Event>>, b: seq<seq<Event>>)
    ensures Joined(a + b) == Joined(a) + Joined(b)
  {
    if a == [] {
      assert a + b == b;
    } else {
      JoinedAppend(a[1..], b);
      assert (a + b)[1..] == a[1..] + b && (a + b)[0] == a[0];
      assert a[0] + (Joined(a[1..]) + Joined(b)) == (a[0] + Joined(a[1..])) + Joined(b);
    }
  }

  /** Records that follow each other, each but the last ending in its own acknowledgement. */
  predicate Steps(parts: seq<seq<Event>>, j: nat)
    requires 1 <= j <= 3
  {
    && (forall i :: 0 <= i < j && i < |parts| ==>
          SegmentOf(parts[i], Chain()[i], 0x89, i < |parts| - 1))
    && (|parts| > j ==> |parts[j]| > 0 && parts[j][0] == Tx(Chain()[j]))
  }

  lemma StepsAcked(at: Event, parts: seq<seq<Event>>, j: nat)
    requires 1 <= j <= 3 && !at.Tx? && Steps(parts, j)
    ensures AckedBefore([at] + Joined(parts), Chain()[j - 1], Chain()[j], SET_ACK)
  {
    var next := Chain()[j];
    CommandsDiffer();
    hide Encode, Joined, SegmentOf;
    forall i | 0 <= i < j && i < |parts| ensures Tx(next) !in parts[i] {
      ChainDistinct(i, j);
      NotInSegment(parts[i], Chain()[i], next, SET_ACK, i < |parts| - 1);
    }
    if |parts| <= j {
      NotInJoined(parts, Tx(next));
      NeverSent([at] + Joined(parts), Chain()[j - 1], next, SET_ACK);
    } else {
      var before := [at] + Joined(parts[..j - 1]);
      NotInJoined(parts[..j - 1], Tx(next));
      CutAt(at, parts, j);
      FirstOfJoined(parts[j..]);
      AckedAt(before, parts[j - 1], Joined(parts[j..]), Chain()[j - 1], next, SET_ACK);
    }
  }

  lemma NeverSent(es: seq<Event>, previous: seq<byte>, next: seq<byte>, expected: byte)
    requires Tx(next) !in es
    ensures AckedBefore(es, previous, next, expected)
  {
  }

  lemma FirstOfJoined(parts: seq<seq<Event>>)
    requires |parts| > 0 && |parts[0]| > 0
    ensures |Joined(parts)| > 0 && Joined(parts)[0] == parts[0][0]
  {
  }

  lemma CutAt(at: Event, parts: seq<seq<Event>>, j: nat)
    requires 1 <= j < |parts|
    ensures [at] + Joined(parts) == (([at] + Joined(parts[..j - 1])) + parts[j - 1]) + Joined(parts[j..])
  {
    var a, b := parts[..j - 1], parts[j - 1..];
    assert parts == a + b;
    JoinedAppend(a, b);
    assert b[1..] == parts[j..] && b[0] == parts[j - 1];
    assert Joined(b) == parts[j - 1] + Joined(parts[j..]);
    hide Joined;
    Associates([at], Joined(a), Joined(b));
    Associates([at] + Joined(a), parts[j - 1], Joined(parts[j..]));
  }

  lemma ChainDistinct(i: nat, j: nat)
    requires i < j <= 3 && Distinct(Settings()) && Reset() !in Settings()
    ensures Chain()[i] != Chain()[j]
  {
    if j == 3 {
      assert Chain()[i] == Settings()[i];
    }
  }

  lemma SegmentsBegin(segments: seq<seq<Event>>, commands: seq<seq<byte>>, expected: byte, done: bool)
    requires Segmented(segments, commands, expected, done)
    ensures forall i :: 0 <= i < |segments| ==> |segments[i]| > 0 && segments[i][0] == Tx(commands[i])
  {
  }

  /**
   * In every run, the second and the third setting and the reset are each sent for the first time right
   * after the acknowledgement that ended the block of the command before.
   */
  lemma StepsAcknowledged(env: Env, w: World, j: nat)
    requires env.Valid() && 1 <= j <= 3
    ensures var t := Activate(env, w).1;
            Follows(w, t) && AckedBefore(Since(w, t), Chain()[j - 1], Chain()[j], 0x89)
  {
    hide Activate, AckedBefore, Encode, SegmentOf, ModeRecord;
    var (r, t) := Activate(env, w);
    var at, segments, reset, over, at', modes, over', second := ActivationTrace(env, w);
    if r.NoPort? {
      var e := Since(w, t)[0];
      assert [e] + Joined([]) == [e] == Since(w, t);
      StepsAcked(e, [], j);
    } else if r.NotConfigured? {
      SegmentsBegin(segments, Settings(), SET_ACK, false);
      StepsAcked(Opened(at, Usable), segments, j);
    } else {
      var last := (reset + [Closed(over)]) + second;
      var parts := segments + [last];
      JoinedAppend(segments, [last]);
      assert Joined([last]) == last + [] == last;
      Associates([Opened(at, Usable)], Joined(segments), last);
      SegmentsBegin(segments, Settings(), SET_ACK, true);
      assert last[0] == reset[0];
      StepsAcked(Opened(at, Usable), parts, j);
    }
  }

  // ---- The port --------------------------------------------------------------------------

  /**
   * The port is left open: the first open works and one of the settings is not acknowledged in any of
   * its attempts, or all are, the second open works too and the mode is not acknowledged.
   */
  ghost predicate LeftOpen(env: Env, w: World)
    requires env.Valid()
  {
    && env.Opens(w.calls).Usable?
    && var w1 := Open(env, w).1;
       var w2 := Close(env, SendAndPause(env, StartOf(env, w1, Settings(), 0x89, 3), Reset(), 1200));
       || (exists i :: 0 <= i < 3 && Unacknowledged(env, StartOf(env, w1, Settings(), 0x89, i), Settings()[i], 0x89))
       || (env.Opens(w2.calls).Usable? && Unacknowledged(env, Open(env, w2).1, SetMode(), 0x84))
  }

  lemma SegmentInside(es: seq<Event>, command: seq<byte>, expected: byte, acknowledged: bool)
    requires SegmentOf(es, command, expected, acknowledged)
    ensures Inside(es)
  {
    InsideByActs(es);
  }

  lemma {:induction false} JoinedInside(segments: seq<seq<Event>>)
    requires forall i :: 0 <= i < |segments| ==> Inside(segments[i])
    ensures Inside(Joined(segments))
  {
    if segments != [] {
      JoinedInside(segments[1..]);
    }
  }

  lemma SegmentsInside(segments: seq<seq<Event>>, commands: seq<seq<byte>>, expected: byte, done: bool)
    requires Segmented(segments, commands, expected, done)
    ensures Inside(Joined(segments))
  {
    forall i | 0 <= i < |segments| ensures Inside(segments[i]) {
      SegmentInside(segments[i], commands[i], expected, done || i < |segments| - 1);
    }
    JoinedInside(segments);
  }

  /** Opening, then events on the open port. */
  lemma PortAfterOpening(at: int, es: seq<Event>, over: int)
    requires Inside(es)
    ensures PortAfter([Opened(at, Usable)] + es, Some(false)) == Some(true)
    ensures Leaks([Opened(at, Usable)] + es) == 0 && Leaks(es + [Closed(over)]) == 0
    ensures PortAfter(es + [Closed(over)], Some(true)) == Some(false)
  {
    OpenStaysOpen(es);
    PortAfterOne(Opened(at, Usable), Some(false));
    PortAfterOne(Closed(over), Some(true));
    PortAfterAppend([Opened(at, Usable)], es, Some(false));
    PortAfterAppend(es, [Closed(over)], Some(true));
    NoLeaksInside(es);
    LeaksAppend([Opened(at, Usable)], es);
    LeaksAppend(es, [Closed(over)]);
    OneClosing(over);
    OneOpening(at, Usable);
  }

  lemma OneOpening(at: int, how: Opening)
    ensures PortAfter([Opened(at, how)], Some(false)) == Some(how.Usable?)
    ensures Leaks([Opened(at, how)]) == (if how.Leaked? then 1 else 0)
  {
    assert [Opened(at, how)][..0] == [];
  }

  lemma OneClosing(at: int)
    ensures Leaks([Closed(at)]) == 0
  {
    assert [Closed(at)][..0] == [];
  }

  lemma PortAfterMode(r: Progress, es: seq<Event>, at: int, modes: seq<Event>, over: int)
    requires ModeRecord(r, es, at, modes, over)
    ensures PortAfter(es, Some(false)) == Some(r.NoMode?) && Leaks(es) == 0
  {
    hide PortAfter, Leaks, Causal;
    if r.NoPortAfterReset? {
      OneOpening(at, Unopened);
    } else {
      SegmentInside(modes, SetMode(), MODE_ACK, r.Completed?);
      PortAfterOpening(at, modes, over);
      PortAfterAppend([Opened(at, Usable)] + modes, [Closed(over)], Some(false));
      PortAfterOne(Closed(over), Some(true));
      LeaksAppend([Opened(at, Usable)] + modes, [Closed(over)]);
      OneClosing(over);
      OneOpening(at, Usable);
    }
  }

  /** No port is opened twice or used while closed, and the outcome says whether one is left open. */
  lemma PortByOutcome(env: Env, w: World)
    requires env.Valid()
    ensures var (r, t) := Activate(env, w);
            && Follows(w, t) && PortAfter(Since(w, t), Some(false)) == Some(r.NotConfigured? || r.NoMode?)
            && Leaks(Since(w, t)) == if env.Opens(w.calls).Leaked? then 1 else 0
  {
    hide Activate, ModeRecord, Encode, PortAfter, Leaks, SegmentOf, Causal;
    var (r, t) := Activate(env, w);
    var at, segments, reset, over, at', modes, over', second := ActivationTrace(env, w);
    OpensFirst(env, w);
    if r.NoPort? {
      OneOpening(Now(env, w), env.Opens(w.calls));
    } else if r.NotConfigured? {
      SegmentsInside(segments, Settings(), SET_ACK, false);
      PortAfterOpening(at, Joined(segments), over);
    } else {
      var first := [Opened(at, Usable)] + Joined(segments);
      SegmentsInside(segments, Settings(), SET_ACK, true);
      PortAfterOpening(at, Joined(segments), over);
      InsideByActs(reset);
      PortAfterOpening(at, reset, over);
      PortAfterMode(r, second, at', modes, over');
      PortAfterAppend(reset + [Closed(over)], second, Some(true));
      PortAfterAppend(first, (reset + [Closed(over)]) + second, Some(false));
      LeaksAppend(reset + [Closed(over)], second);
      LeaksAppend(first, (reset + [Closed(over)]) + second);
    }
  }

  lemma OpensFirst(env: Env, w: World)
    requires env.Valid()
    ensures Activate(env, w).0.NoPort? <==> !env.Opens(w.calls).Usable?
  {
    hide Configure, SendAndPause, Encode;
  }

  /** The outcome is decided by which command is not acknowledged and which open fails. */
  lemma OutcomeByGuards(env: Env, w: World)
    requires env.Valid()
    ensures var r := Activate(env, w).0; (r.NotConfigured? || r.NoMode?) <==> LeftOpen(env, w)
  {
    hide Configure, Unacknowledged, SendAndPause, Encode, StartOf;
    var (ok, w1) := Open(env, w);
    if ok {
      var (done, w2) := Configure(env, w1, Settings(), SET_ACK);
      ConfigureFails(env, w1, Settings(), SET_ACK);
      if done {
        var w3 := Close(env, SendAndPause(env, w2, Reset(), RESET_PAUSE_MS));
        var w4 := Open(env, w3).1;
        ConfigureFails(env, w4, [SetMode()], MODE_ACK);
        StartsHere(env, w4, [SetMode()], MODE_ACK);
      }
    }
  }

  lemma StartsHere(env: Env, w: World, commands: seq<seq<byte>>, expected: byte)
    requires env.Valid()
    ensures StartOf(env, w, commands, expected, 0) == w
  {
  }

  /**
   * The port is never opened twice or used while closed. It is left open exactly when, on a port that
   * opened, a confirmed command gets no acknowledgement in any of its five attempts. A descriptor stays
   * open, and then one, exactly when that happens or the first open itself leaves one behind.
   */
  lemma ActivationPort(env: Env, w: World)
    requires env.Valid()
    ensures var t := Activate(env, w).1;
            && Follows(w, t) && PortAfter(Since(w, t), Some(false)) == Some(LeftOpen(env, w))
            && Descriptors(Since(w, t)) == if LeftOpen(env, w) || env.Opens(w.calls).Leaked? then 1 else 0
  {
    hide Activate, PortAfter, Unacknowledged, SendAndPause, StartOf, Descriptors, Leaks;
    PortByOutcome(env, w);
    OutcomeByGuards(env, w);
    DescriptorsInOrder(Since(w, Activate(env, w).1), false);
  }

  // ---- Time --------------------------------------------------------------------------------

  lemma {:induction false} ConfigureTime(env: Env, w: World, commands: seq<seq<byte>>, expected: byte, d: nat, b: nat)
    requires env.Valid() && env.Prompt(d, b)
    ensures var t := Configure(env, w, commands, expected).1;
            Now(env, w) <= Now(env, t) <= Now(env, w) + |commands| * (5 * LongestRound(1500, d, b) + 80)
    decreases |commands|
  {
    hide SendAndWait, Now;
    if commands != [] {
      var (r, t) := SendAndWait(env, w, commands[0], expected, TIMEOUT_MS, ATTEMPTS);
      SendTime(env, w, commands[0], expected, d, b);
      var one := 5 * LongestRound(1500, d, b) + 80;
      assert |commands| * one == one + |commands[1..]| * one && |commands[1..]| * one >= 0;
      if r.Done? {
        ConfigureTime(env, t, commands[1..], expected, d, b);
      }
    }
  }

  lemma SendTime(env: Env, w: World, command: seq<byte>, expected: byte, d: nat, b: nat)
    requires env.Valid() && env.Prompt(d, b)
    ensures var t := SendAndWait(env, w, command, expected, TIMEOUT_MS, ATTEMPTS).1;
            Now(env, w) <= Now(env, t) <= Now(env, w) + 5 * LongestRound(1500, d, b) + 80
  {
    RetryTime(env, w, command, expected, TIMEOUT_MS, ATTEMPTS, None, d, b);
  }

  lemma CallTime(env: Env, w: World, d: nat, b: nat)
    requires env.Prompt(d, b)
    ensures Now(env, w) <= Now(env, Close(env, w)) <= Now(env, w) + b
    ensures Now(env, w) <= Now(env, Open(env, w).1) <= Now(env, w) + b
  {
  }

  /**
   * With prompt calls a whole activation ends within the time of four confirmed commands, the pause
   * after the reset and four opens and closes, whatever the device does.
   */
  lemma ActivationTime(env: Env, w: World, d: nat, b: nat)
    requires env.Valid() && env.Prompt(d, b)
    ensures Now(env, Activate(env, w).1)
         <= Now(env, w) + 4 * (5 * LongestRound(1500, d, b) + 80) + (b + 1200 + d + 25) + 4 * b
  {
    hide Configure, SendAndPause, Now, Encode, LongestRound;
    var (ok, w1) := Open(env, w);
    CallTime(env, w, d, b);
    if ok {
      var (done, w2) := Configure(env, w1, Settings(), SET_ACK);
      ConfigureTime(env, w1, Settings(), SET_ACK, d, b);
      if done {
        var w3 := SendAndPause(env, w2, Reset(), RESET_PAUSE_MS);
        PauseTime(env, w2, Reset(), RESET_PAUSE_MS, d, b);
        var w4 := Close(env, w3);
        CallTime(env, w3, d, b);
        CallTime(env, w4, d, b);
        var (ok2, w5) := Open(env, w4);
        if ok2 {
          ConfigureTime(env, w5, [SetMode()], MODE_ACK, d, b);
          CallTime(env, Configure(env, w5, [SetMode()], MODE_ACK).1, d, b);
        }
      }
    }
  }

  // ---- The program ---------------------------------------------------------------------------

  lemma ConfigureStep(env: Env, w: World, command: seq<byte>, more: seq<seq<byte>>, expected: byte)
    requires env.Valid()
    ensures var (r, t) := SendAndWait(env, w, command, expected, TIMEOUT_MS, ATTEMPTS);
            Configure(env, w, [command] + more, expected)
            == if r.GaveUp? then (false, t) else Configure(env, t, more, expected)
  {
    assert ([command] + more)[1..] == more;
  }

  method SendConfirmed(port: SerialPort, buffer: ReceiveBuffer, command: byte, payload: seq<byte>, expected: byte,
                       ghost more: seq<seq<byte>>) returns (done: bool)
    requires port.env.Valid()
    modifies port, buffer
    ensures Configure(port.env, old(State(port, buffer)), [Encode(command, payload)] + more, expected)
         == if done then Configure(port.env, State(port, buffer), more, expected) else (false, State(port, buffer))
  {
    hide SendAndWait, Configure, Encode;
    ConfigureStep(port.env, State(port, buffer), Encode(command, payload), more, expected);
    var frame := BuildFrame(command, payload);
    var result := SendCommandAndWait(port, buffer, frame, expected, TIMEOUT_MS, ATTEMPTS);
    done := result.Done?;
  }

  /** Open the port with a new buffer. */
  method OpenPort(port: SerialPort) returns (ok: bool, buffer: ReceiveBuffer)
    modifies port
    ensures fresh(buffer)
    ensures forall bytes :: (ok, State(port, buffer)) == Open(port.env, old(PortState(port, bytes)))
  {
    ok := port.Open();
    buffer := new ReceiveBuffer();
  }

  method PrepareDevice(port: SerialPort) returns (outcome: Progress, buffer: ReceiveBuffer)
    requires port.env.Valid()
    modifies port
    ensures fresh(buffer)
    ensures (outcome, State(port, buffer)) == Prepare(port.env, old(PortState(port, [])))
  {
    hide Configure, Encode;
    var ok;
    ok, buffer := OpenPort(port);
    if !ok {
      return NoPort, buffer;
    }
    SettingsInTurn();
    var done := SendConfirmed(port, buffer, 0x09, [0x05, 0x01, 0x01], SET_ACK, [EnableRssi(), PreselectMode()]);
    if !done {
      return NotConfigured, buffer;
    }
    done := SendConfirmed(port, buffer, 0x09, [0x45, 0x01, 0x01], SET_ACK, [PreselectMode()]);
    if !done {
      return NotConfigured, buffer;
    }
    done := SendConfirmed(port, buffer, 0x09, [0x46, 0x01, 0x09], SET_ACK, []);
    ConfigureNothing(port.env, State(port, buffer), SET_ACK);
    return if done then Completed else NotConfigured, buffer;
  }

  method ReconnectDevice(port: SerialPort, ghost bytes: seq<byte>) returns (outcome: Progress, buffer: ReceiveBuffer)
    requires port.env.Valid()
    modifies port
    ensures fresh(buffer)
    ensures (outcome, State(port, buffer)) == Reconnect(port.env, old(PortState(port, bytes)))
  {
    hide Configure, Encode;
    var ok;
    ok, buffer := OpenPort(port);
    if !ok {
      return NoPortAfterReset, buffer;
    }
    assert [SetMode()] + [] == [SetMode()];
    var done := SendConfirmed(port, buffer, 0x04, [0x09], MODE_ACK, []);
    ConfigureNothing(port.env, State(port, buffer), MODE_ACK);
    if !done {
      return NoMode, buffer;
    }
    port.Perform(Closed(port.waited + port.env.elapsed(port.polls)));
    return Completed, buffer;
  }

  /** The buffer is the one of the last connection. */
  method ActivateDevice(port: SerialPort) returns (outcome: Progress, buffer: ReceiveBuffer)
    requires port.env.Valid()
    modifies port
    ensures (outcome, State(port, buffer)) == Activate(port.env, old(PortState(port, [])))
  {
    hide Prepare, Reconnect, SendAndPause, Encode;
    outcome, buffer := PrepareDevice(port);
    if !outcome.Completed? {
      return;
    }
    var reset := BuildFrame(0x05, []);
    SendCommandAndPause(port, buffer, reset, RESET_PAUSE_MS);
    port.Perform(Closed(port.waited + port.env.elapsed(port.polls)));
    outcome, buffer := ReconnectDevice(port, buffer.bytes);
  }

  lemma SettingsInTurn()
    ensures Settings() == [EnableOutput()] + [EnableRssi(), PreselectMode()]
    ensures [EnableRssi(), PreselectMode()] == [EnableRssi()] + [PreselectMode()]
    ensures [PreselectMode()] == [PreselectMode()] + []
  {
  }

  lemma ConfigureNothing(env: Env, w: World, expected: byte)
    requires env.Valid()
    ensures Configure(env, w, [], expected) == (true, w)
  {
  }
}
