// The serial port object and the protocol's loops over it, each tied to its function on the world.

module SerialPorts {
  import opened Bytes
  import opened Framing
  import opened ReceiveBuffers
  import opened Link
  import opened Protocol
  import opened Commands

  /** One serial device with its clock; the ghost fields record what has happened. */
  class SerialPort {
    const env: Env
    var polls: nat
    var calls: nat
    var waited: nat
    ghost var trace: seq<Event>
    ghost var peak: nat

    constructor (env: Env)
      ensures this.env == env && polls == calls == waited == peak == 0 && trace == []
    {
      this.env := env;
      polls, calls, waited := 0, 0, 0;
      trace, peak := [], 0;
    }

    method TickMs() returns (t: int)
      ensures t == waited + env.elapsed(polls)
    {
      t := waited + env.elapsed(polls);
    }

    method SleepMs(ms: nat)
      modifies this`waited
      ensures waited == old(waited) + ms
    {
      waited := waited + ms;
    }

    method ReadBytes(max: nat) returns (r: ReadOutcome)
      modifies this`polls, this`trace
      ensures r == env.read(old(polls), max) && polls == old(polls) + 1
      ensures trace == old(trace) + Arrival(r)
    {
      r := env.read(polls, max);
      polls := polls + 1;
      trace := trace + Arrival(r);
    }

    method Perform(ghost e: Event)
      modifies this`waited, this`calls, this`trace
      ensures waited == old(waited) + env.busy(old(calls)) && calls == old(calls) + 1
      ensures trace == old(trace) + [e]
    {
      waited, calls := waited + env.busy(calls), calls + 1;
      trace := trace + [e];
    }

    /** What comes out depends on the system and on the baud rate. */
    method Open() returns (ok: bool)
      modifies this`waited, this`calls, this`trace
      ensures ok <==> env.Opens(old(calls)).Usable?
      ensures waited == old(waited) + env.busy(old(calls)) && calls == old(calls) + 1
      ensures trace == old(trace) + [Opened(old(waited) + env.elapsed(polls), env.Opens(old(calls)))]
    {
      var how := SerialOpen(env.device(calls), env.baud);
      ok := how.Usable?;
      Perform(Opened(waited + env.elapsed(polls), how));
    }

    /** What goes to the log. */
    ghost method Note(e: Event)
      modifies this`trace
      ensures trace == old(trace) + [e]
    {
      trace := trace + [e];
    }

    ghost method NoteSize(n: nat)
      modifies this`peak
      ensures peak == if n > old(peak) then n else old(peak)
    {
      peak := if n > peak then n else peak;
    }
  }

  /** The world as seen by a caller that uses this port and holds `bytes` in its buffer. */
  ghost function PortState(port: SerialPort, bytes: seq<byte>): World
    reads port
  {
    World(bytes, port.polls, port.calls, port.waited, port.trace, port.peak)
  }

  ghost function State(port: SerialPort, buffer: ReceiveBuffer): World
    reads port, buffer
  {
    PortState(port, buffer.bytes)
  }

  /** The inner loop of every receive loop: log frames until the wanted one. */
  method TakeFrames(port: SerialPort, buffer: ReceiveBuffer, want: Option<byte>) returns (hit: Option<Frame>)
    modifies port`trace, buffer
    ensures var k := TakeUntil(old(buffer.bytes), want);
            hit == k.hit && State(port, buffer) == TakeOut(old(State(port, buffer)), k.seen, k.rest)
  {
    hide Next;
    ghost var k := TakeUntil(buffer.bytes, want);
    ghost var seen: seq<Frame> := [];
    while true
      invariant port.trace == old(port.trace) + Rxs(seen)
      invariant k == TakenAfter(seen, TakeUntil(buffer.bytes, want))
      decreases |buffer.bytes|
    {
      TakeUntilStep(buffer.bytes, want, seen);
      var frame := buffer.TryExtractFrame();
      if frame.None? {
        return None;
      }
      port.Note(Rx(frame.value));
      assert Rxs(seen + [frame.value]) == Rxs(seen) + [Rx(frame.value)];
      if Matches(frame.value, want) {
        return frame;
      }
      seen := seen + [frame.value];
    }
  }

  ghost function TakenAfter(seen: seq<Frame>, k: Taken): Taken {
    k.(seen := seen + k.seen)
  }

  lemma TakeUntilStep(s: seq<byte>, want: Option<byte>, seen: seq<Frame>)
    ensures var (f, t) := Next(s);
            && (f.Some? ==> |t| < |s|)
            && TakenAfter(seen, TakeUntil(s, want))
            == if f.None? then Taken(seen, None, t)
               else if Matches(f.value, want) then Taken(seen + [f.value], f, t)
               else TakenAfter(seen + [f.value], TakeUntil(t, want))
  {
    hide Next, Matches;
    var (f, t) := Next(s);
    assert seen + [] == seen;
    if f.Some? {
      assert seen + ([f.value] + TakeUntil(t, want).seen) == (seen + [f.value]) + TakeUntil(t, want).seen;
    }
  }

  /** One round: read, append, take frames; or sleep when nothing came. */
  method PollOnce(port: SerialPort, buffer: ReceiveBuffer, want: Option<byte>) returns (hit: Option<Frame>)
    modifies port, buffer
    ensures (hit, State(port, buffer)) == Poll(port.env, old(State(port, buffer)), want)
  {
    var r := port.ReadBytes(READ_SIZE);
    if r.Failed? || r.bytes == [] {
      port.SleepMs(IDLE_MS);
      return None;
    }
    buffer.Append(r.bytes);
    port.NoteSize(|buffer.bytes|);
    hit := TakeFrames(port, buffer, want);
  }

  /** None stands for the timeout exception. */
  method WaitForFrame(port: SerialPort, buffer: ReceiveBuffer, expected: byte, timeout: int)
    returns (frame: Option<Frame>)
    requires port.env.Valid()
    modifies port, buffer
    ensures var w := old(State(port, buffer));
            (frame, State(port, buffer)) == Wait(port.env, w, Some(expected), Now(port.env, w) + timeout)
  {
    hide Poll;
    var started := port.TickMs();
    ghost var goal := Wait(port.env, State(port, buffer), Some(expected), started + timeout);
    while true
      invariant Wait(port.env, State(port, buffer), Some(expected), started + timeout) == goal
      decreases Left(port.env, State(port, buffer), started + timeout)
    {
      var now := port.TickMs();
      if now - started >= timeout {
        return None;
      }
      TimeRunsOut(port.env, State(port, buffer), started + timeout);
      PollAdvances(port.env, State(port, buffer), Some(expected));
      frame := PollOnce(port, buffer, Some(expected));
      if frame.Some? {
        return frame;
      }
    }
  }

  method DrainDuringPause(port: SerialPort, buffer: ReceiveBuffer, duration: int)
    requires port.env.Valid()
    modifies port, buffer
    ensures var w := old(State(port, buffer));
            State(port, buffer) == Wait(port.env, w, None, Now(port.env, w) + duration).1
  {
    hide Poll;
    var started := port.TickMs();
    ghost var goal := Wait(port.env, State(port, buffer), None, started + duration);
    while true
      invariant Wait(port.env, State(port, buffer), None, started + duration) == goal
      decreases Left(port.env, State(port, buffer), started + duration)
    {
      var now := port.TickMs();
      if now - started >= duration {
        return;
      }
      TimeRunsOut(port.env, State(port, buffer), started + duration);
      PollAdvances(port.env, State(port, buffer), None);
      var nothing := PollOnce(port, buffer, None);
    }
  }

  lemma PollAdvances(env: Env, w: World, want: Option<byte>)
    ensures Poll(env, w, want).1.polls == w.polls + 1
    ensures want.None? ==> Poll(env, w, want).0.None?
  {
    var chunk := Chunk(env, w, READ_SIZE);
    TakenMeaning(w.buffer + chunk, want);
  }

  method WriteBytes(port: SerialPort, buffer: ReceiveBuffer, command: seq<byte>)
    modifies port
    ensures State(port, buffer) == Write(port.env, old(State(port, buffer)), command)
  {
    port.Perform(Tx(command));
  }

  /** The guarded part of one attempt; the error stands for the exception it raises. */
  method AttemptCommand(port: SerialPort, buffer: ReceiveBuffer, command: seq<byte>, expected: byte, timeout: int)
    returns (error: Option<AttemptError>)
    requires port.env.Valid()
    modifies port, buffer
    ensures (error, State(port, buffer)) == Attempt(port.env, old(State(port, buffer)), command, expected, timeout)
  {
    hide Wait;
    WriteBytes(port, buffer, command);
    var response := WaitForFrame(port, buffer, expected, timeout);
    if response.None? {
      return Some(TimedOut);
    }
    if response.value.payload != [] && response.value.payload[0] != 0 {
      return Some(BadStatus(response.value.payload[0]));
    }
    return None;
  }

  method RecoverFromError(port: SerialPort, buffer: ReceiveBuffer)
    requires port.env.Valid()
    modifies port, buffer
    ensures State(port, buffer) == Recover(port.env, old(State(port, buffer)))
  {
    hide Wait;
    DrainDuringPause(port, buffer, DRAIN_MS);
    port.SleepMs(BACKOFF_MS);
  }

  /** The error stands for the exception with the last attempt's message. */
  method SendCommandAndWait(port: SerialPort, buffer: ReceiveBuffer, command: seq<byte>, expected: byte,
                            timeout: int, attempts: int) returns (result: Result)
    requires port.env.Valid()
    modifies port, buffer
    ensures (result, State(port, buffer))
         == SendAndWait(port.env, old(State(port, buffer)), command, expected, timeout, attempts)
  {
    hide Attempt, Recover;
    ghost var goal := SendAndWait(port.env, State(port, buffer), command, expected, timeout, attempts);
    var last: Option<AttemptError> := None;
    var attempt := 1;
    while attempt <= attempts
      invariant Try(port.env, State(port, buffer), command, expected, timeout, attempts - attempt + 1, last) == goal
      decreases attempts - attempt
    {
      last := AttemptCommand(port, buffer, command, expected, timeout);
      if last.None? {
        port.SleepMs(SETTLE_MS);
        return Done;
      }
      RecoverFromError(port, buffer);
      attempt := attempt + 1;
    }
    return GaveUp(last);
  }

  method SendCommandAndGet(port: SerialPort, buffer: ReceiveBuffer, command: seq<byte>, expected: byte, timeout: int)
    returns (response: Option<Frame>)
    requires port.env.Valid()
    modifies port, buffer
    ensures (response, State(port, buffer))
         == SendAndGet(port.env, old(State(port, buffer)), command, expected, timeout)
  {
    hide Wait;
    WriteBytes(port, buffer, command);
    response := WaitForFrame(port, buffer, expected, timeout);
  }

  method SendCommandAndPause(port: SerialPort, buffer: ReceiveBuffer, command: seq<byte>, pause: int)
    requires port.env.Valid()
    modifies port, buffer
    ensures State(port, buffer) == SendAndPause(port.env, old(State(port, buffer)), command, pause)
  {
    hide Wait;
    WriteBytes(port, buffer, command);
    DrainDuringPause(port, buffer, pause);
  }
}
