// Sending commands: once, until acknowledged, or with a pause.

module Commands {
  import opened Bytes
  import opened Framing
  import opened Link
  import opened Protocol

  const DRAIN_MS: nat := 250
  const BACKOFF_MS: nat := 120
  const SETTLE_MS: nat := 80

  datatype AttemptError = TimedOut | BadStatus(status: byte)

  /** The last attempt's error, or none at all when no attempt was allowed. */
  datatype Result = Done | GaveUp(last: Option<AttemptError>)

  /** A response with no payload or a zero status. */
  predicate IsAck(f: Frame) {
    f.payload == [] || f.payload[0] == 0
  }

  /** What is wrong with the response, if anything. */
  function Verdict(f: Option<Frame>): Option<AttemptError> {
    if f.None? then Some(TimedOut)
    else if !IsAck(f.value) then Some(BadStatus(f.value.payload[0]))
    else None
  }

  /** Write the command and wait for a response; what was wrong with it, if anything. */
  function Attempt(env: Env, w: World, command: seq<byte>, expected: byte, timeout: int)
    : (Option<AttemptError>, World)
    requires env.Valid()
  {
    var w1 := Write(env, w, command);
    var (f, t) := Wait(env, w1, Some(expected), Now(env, w1) + timeout);
    (Verdict(f), t)
  }

  /** After a failed attempt: log what still arrives, then sleep. */
  function Recover(env: Env, w: World): World
    requires env.Valid()
  {
    Sleep(Wait(env, w, None, Now(env, w) + DRAIN_MS).1, BACKOFF_MS)
  }

  function Try(env: Env, w: World, command: seq<byte>, expected: byte, timeout: int, left: int,
               last: Option<AttemptError>): (Result, World)
    requires env.Valid()
    decreases left
  {
    if left <= 0 then (GaveUp(last), w)
    else
      var (e, t) := Attempt(env, w, command, expected, timeout);
      if e.None? then (Done, Sleep(t, SETTLE_MS))
      else Try(env, Recover(env, t), command, expected, timeout, left - 1, e)
  }

  function SendAndWait(env: Env, w: World, command: seq<byte>, expected: byte, timeout: int, attempts: int)
    : (Result, World)
    requires env.Valid()
  {
    Try(env, w, command, expected, timeout, attempts, None)
  }

  function SendAndGet(env: Env, w: World, command: seq<byte>, expected: byte, timeout: int)
    : (Option<Frame>, World)
    requires env.Valid()
  {
    var w1 := Write(env, w, command);
    Wait(env, w1, Some(expected), Now(env, w1) + timeout)
  }

  function SendAndPause(env: Env, w: World, command: seq<byte>, pause: int): World
    requires env.Valid()
  {
    var w1 := Write(env, w, command);
    Wait(env, w1, None, Now(env, w1) + pause).1
  }

  // ---- What one step of a command does -------------------------------------------

  lemma WriteMeaning(env: Env, w: World, command: seq<byte>)
    ensures Ran(w, Write(env, w, command), [Tx(command)], [])
    ensures Begins(w, Write(env, w, command), Tx(command))
  {
    RecordsOfAct(Tx(command));
    QuietStep(w, Write(env, w, command), [Tx(command)]);
  }

  lemma SleepMeaning(w: World, ms: nat)
    ensures Ran(w, Sleep(w, ms), [], [])
  {
    QuietStep(w, Sleep(w, ms), []);
  }

  lemma WaitRan(env: Env, w: World, want: Option<byte>, deadline: int) returns (heard: seq<Frame>)
    requires env.Valid()
    ensures var (f, t) := Wait(env, w, want, deadline);
            && Ran(w, t, [], heard)
            && (f.Some? ==> Ends(w, t, Rx(f.value)))
            && (f.Some? ==> EndsAtFirst(heard, want, f.value))
            && (f.None? ==> NoneMatch(heard, want))
  {
    WaitMeaning(env, w, want, deadline);
    heard := Heard(Since(w, Wait(env, w, want, deadline).1));
  }

  /** Write, then wait: one transmission, then only what was heard. */
  lemma WriteThenWait(env: Env, w: World, command: seq<byte>, want: Option<byte>, deadline: int)
    returns (heard: seq<Frame>)
    requires env.Valid()
    ensures var (f, t) := Wait(env, Write(env, w, command), want, deadline);
            && Ran(w, t, [Tx(command)], heard)
            && Begins(w, t, Tx(command))
            && (f.Some? ==> EndsAtFirst(heard, want, f.value) && Ends(w, t, Rx(f.value)))
            && (f.None? ==> NoneMatch(heard, want))
  {
    var w1 := Write(env, w, command);
    var (f, t) := Wait(env, w1, want, deadline);
    hide Ran, EndsAtFirst, NoneMatch, Begins, Ends;
    WriteMeaning(env, w, command);
    heard := WaitRan(env, w1, want, deadline);
    RanTrans(w, w1, t, [Tx(command)], [], [], heard);
    BeginsEarlier(w, w1, t, Tx(command), [], heard);
    if f.Some? {
      EndsLater(w, w1, t, Rx(f.value), [Tx(command)], []);
    }
  }

  /** A pause writes the command once; then it only hears. */
  lemma PauseMeaning(env: Env, w: World, command: seq<byte>, pause: int) returns (heard: seq<Frame>)
    requires env.Valid()
    ensures var t := SendAndPause(env, w, command, pause);
            Ran(w, t, [Tx(command)], heard) && Begins(w, t, Tx(command))
  {
    hide Wait, Ran, Begins;
    heard := WriteThenWait(env, w, command, None, Now(env, Write(env, w, command)) + pause);
  }

  /** What an attempt that ended with `e` has heard. */
  ghost predicate AttemptHeard(heard: seq<Frame>, expected: byte, e: Option<AttemptError>) {
    match e
    case Some(TimedOut) => NoneMatch(heard, Some(expected))
    case Some(BadStatus(status)) =>
      && |heard| > 0 && EndsAtFirst(heard, Some(expected), heard[|heard| - 1])
      && |heard[|heard| - 1].payload| > 0 && heard[|heard| - 1].payload[0] == status != 0
    case None =>
      && |heard| > 0 && EndsAtFirst(heard, Some(expected), heard[|heard| - 1])
      && (|heard[|heard| - 1].payload| == 0 || heard[|heard| - 1].payload[0] == 0)
  }

  lemma VerdictHeard(heard: seq<Frame>, expected: byte, f: Option<Frame>)
    requires f.Some? ==> EndsAtFirst(heard, Some(expected), f.value)
    requires f.None? ==> NoneMatch(heard, Some(expected))
    ensures AttemptHeard(heard, expected, Verdict(f))
  {
  }

  /** An attempt writes the command once, and its outcome is that of the first response heard. */
  lemma AttemptMeaning(env: Env, w: World, command: seq<byte>, expected: byte, timeout: int)
    returns (heard: seq<Frame>)
    requires env.Valid()
    ensures var (e, t) := Attempt(env, w, command, expected, timeout);
            && Ran(w, t, [Tx(command)], heard) && AttemptHeard(heard, expected, e)
            && Begins(w, t, Tx(command))
            && (e != Some(TimedOut) ==> |heard| > 0 && Ends(w, t, Rx(heard[|heard| - 1])))
  {
    hide Ran, NoneMatch, Begins, Ends;
    var deadline := Now(env, Write(env, w, command)) + timeout;
    heard := WriteThenWait(env, w, command, Some(expected), deadline);
    VerdictHeard(heard, expected, Wait(env, Write(env, w, command), Some(expected), deadline).0);
  }

  lemma RecoverMeaning(env: Env, w: World) returns (heard: seq<Frame>)
    requires env.Valid()
    ensures Ran(w, Recover(env, w), [], heard)
  {
    hide Ran;
    var deadline := Now(env, w) + DRAIN_MS;
    var t := Wait(env, w, None, deadline).1;
    heard := WaitRan(env, w, None, deadline);
    SleepMeaning(t, BACKOFF_MS);
    RanTrans(w, t, Sleep(t, BACKOFF_MS), [], heard, [], []);
  }

  function Positive(n: int): nat {
    if n > 0 then n else 0
  }

  // ---- Retries ---------------------------------------------------------------------

  /** The world in which the attempt after `k` failed ones starts. */
  function AfterFailures(env: Env, w: World, command: seq<byte>, expected: byte, timeout: int, k: nat): World
    requires env.Valid()
  {
    if k == 0 then w
    else
      Recover(env, Attempt(env, AfterFailures(env, w, command, expected, timeout, k - 1),
                           command, expected, timeout).1)
  }

  /** The outcome of attempt number `k`, counting from zero. */
  function Outcome(env: Env, w: World, command: seq<byte>, expected: byte, timeout: int, k: nat)
    : Option<AttemptError>
    requires env.Valid()
  {
    Attempt(env, AfterFailures(env, w, command, expected, timeout, k), command, expected, timeout).0
  }

  lemma {:induction false} FailuresMeaning(env: Env, w: World, command: seq<byte>, expected: byte, timeout: int, k: nat)
    returns (heard: seq<Frame>)
    requires env.Valid()
    ensures Ran(w, AfterFailures(env, w, command, expected, timeout, k), Repeat(Tx(command), k), heard)
    ensures k > 0 ==> Begins(w, AfterFailures(env, w, command, expected, timeout, k), Tx(command))
  {
    hide Conserved, Attempt, Recover, AttemptHeard, Begins, Ends;
    if k == 0 {
      heard := [];
      QuietStep(w, w, []);
    } else {
      hide Ran;
      var s := AfterFailures(env, w, command, expected, timeout, k - 1);
      var t := Attempt(env, s, command, expected, timeout).1;
      var h1 := FailuresMeaning(env, w, command, expected, timeout, k - 1);
      var h2 := AttemptMeaning(env, s, command, expected, timeout);
      var h3 := RecoverMeaning(env, t);
      OneMoreTx(w, s, t, command, k - 1, h1, h2);
      RanTrans(w, t, Recover(env, t), Repeat(Tx(command), k), h1 + h2, [], h3);
      heard := h1 + h2 + h3;
      BeginsAttempt(w, s, t, command, k - 1, h1, h2);
      BeginsEarlier(w, t, Recover(env, t), Tx(command), [], h3);
    }
  }

  /** Whether or not attempts came before, the first thing done was to write the command. */
  lemma BeginsAttempt(w: World, s: World, t: World, command: seq<byte>, k: nat, h1: seq<Frame>, h2: seq<Frame>)
    requires Ran(w, s, Repeat(Tx(command), k), h1) && (k > 0 ==> Begins(w, s, Tx(command)))
    requires k == 0 ==> s == w
    requires Ran(s, t, [Tx(command)], h2) && Begins(s, t, Tx(command))
    ensures Begins(w, t, Tx(command))
  {
    if k > 0 {
      BeginsEarlier(w, s, t, Tx(command), [Tx(command)], h2);
    }
  }

  lemma OneMoreTx(w: World, s: World, t: World, command: seq<byte>, k: nat, h1: seq<Frame>, h2: seq<Frame>)
    requires Ran(w, s, Repeat(Tx(command), k), h1) && Ran(s, t, [Tx(command)], h2)
    ensures Ran(w, t, Repeat(Tx(command), k + 1), h1 + h2)
  {
    RanTrans(w, s, t, Repeat(Tx(command), k), h1, [Tx(command)], h2);
    assert Repeat(Tx(command), k) + [Tx(command)] == Repeat(Tx(command), k + 1);
  }

  /** From the k-th attempt on: `n` failures and then a success, or `left` failures. */
  lemma {:induction false} TryFrom(env: Env, w: World, command: seq<byte>, expected: byte, timeout: int,
                                   k: nat, left: int, last: Option<AttemptError>) returns (n: nat)
    requires env.Valid()
    requires k > 0 ==> last == Outcome(env, w, command, expected, timeout, k - 1)
    ensures n <= (if left > 0 then left else 0)
    ensures forall j: nat :: k <= j < k + n ==> Outcome(env, w, command, expected, timeout, j).Some?
    ensures var s := AfterFailures(env, w, command, expected, timeout, k + n);
            Try(env, AfterFailures(env, w, command, expected, timeout, k), command, expected, timeout, left, last)
            == if n < left then (Done, Sleep(Attempt(env, s, command, expected, timeout).1, SETTLE_MS))
               else (GaveUp(if k + n == 0 then last else Outcome(env, w, command, expected, timeout, k + n - 1)), s)
    ensures n < left ==> Outcome(env, w, command, expected, timeout, k + n).None?
    decreases left
  {
    hide Attempt, Recover;
    n := 0;
    if left > 0 {
      var e := Outcome(env, w, command, expected, timeout, k);
      if e.Some? {
        var m := TryFrom(env, w, command, expected, timeout, k + 1, left - 1, e);
        n := m + 1;
      }
    }
  }

  /** The command succeeds at attempt `k`, counting from zero, after failing at every earlier one. */
  ghost predicate SucceedsAt(env: Env, w: World, command: seq<byte>, expected: byte, timeout: int, k: nat)
    requires env.Valid()
  {
    && Outcome(env, w, command, expected, timeout, k).None?
    && forall j: nat :: j < k ==> Outcome(env, w, command, expected, timeout, j).Some?
  }

  /** The run from `s` to `t` begins with `command` and ends with the frame that acknowledges it. */
  ghost predicate Acknowledged(s: World, t: World, command: seq<byte>, expected: byte) {
    && Begins(s, t, Tx(command))
    && var e := Since(s, t)[|Since(s, t)| - 1];
       e.Rx? && e.frame.command == expected && (|e.frame.payload| == 0 || e.frame.payload[0] == 0)
  }

  /** The retries up to number `k`, which is acknowledged. */
  lemma SuccessMeaning(env: Env, w: World, command: seq<byte>, expected: byte, timeout: int, k: nat)
    returns (heard: seq<Frame>)
    requires env.Valid() && Outcome(env, w, command, expected, timeout, k).None?
    ensures var s := AfterFailures(env, w, command, expected, timeout, k);
            && Ran(w, Sleep(Attempt(env, s, command, expected, timeout).1, SETTLE_MS), Repeat(Tx(command), k + 1), heard)
            && Acknowledged(w, Sleep(Attempt(env, s, command, expected, timeout).1, SETTLE_MS), command, expected)
            && |heard| > 0 && heard[|heard| - 1].command == expected && IsAck(heard[|heard| - 1])
  {
    hide Ran, Attempt, Begins, Ends, Acknowledged, EndsAtFirst;
    var s := AfterFailures(env, w, command, expected, timeout, k);
    var t := Attempt(env, s, command, expected, timeout).1;
    var h1 := FailuresMeaning(env, w, command, expected, timeout, k);
    var h2 := AttemptMeaning(env, s, command, expected, timeout);
    heard := h1 + h2;
    OneMoreTx(w, s, t, command, k, h1, h2);
    BeginsAttempt(w, s, t, command, k, h1, h2);
    EndsLater(w, s, t, Rx(h2[|h2| - 1]), Repeat(Tx(command), k), h1);
    LastIsAck(h2, expected);
    Settled(w, t, command, expected, h2[|h2| - 1], Repeat(Tx(command), k + 1), heard);
  }

  lemma LastIsAck(heard: seq<Frame>, expected: byte)
    requires AttemptHeard(heard, expected, None)
    ensures |heard| > 0 && heard[|heard| - 1].command == expected && IsAck(heard[|heard| - 1])
  {
  }

  lemma Settled(s: World, t: World, command: seq<byte>, expected: byte, f: Frame, acts: seq<Event>, heard: seq<Frame>)
    requires Ran(s, t, acts, heard) && Begins(s, t, Tx(command)) && Ends(s, t, Rx(f))
    requires f.command == expected && IsAck(f)
    ensures Ran(s, Sleep(t, SETTLE_MS), acts, heard) && Acknowledged(s, Sleep(t, SETTLE_MS), command, expected)
  {
    var u := Sleep(t, SETTLE_MS);
    SleepMeaning(t, SETTLE_MS);
    RanTrans(s, t, u, acts, heard, [], []);
    assert Since(s, u) == Since(s, t);
  }

  // ---- Commands told without their loops ---------------------------------------------

  /** From `s` to `u` the command was written and nothing else happened. */
  ghost predicate Written(env: Env, s: World, u: World, command: seq<byte>) {
    u == World(s.buffer, s.polls, s.calls + 1, s.waited + env.busy(s.calls), s.trace + [Tx(command)], s.peak)
  }

  /** From `s` to `t` the command was written and its response awaited, with `n` reads. */
  ghost predicate Asked(env: Env, s: World, command: seq<byte>, expected: byte, timeout: int,
                        u: World, n: nat, f: Option<Frame>, t: World) {
    Written(env, s, u, command) && Polled(env, u, Some(expected), Now(env, u) + timeout, n, f, t)
  }

  lemma AskedExactly(env: Env, w: World, command: seq<byte>, expected: byte, timeout: int) returns (n: nat)
    requires env.Valid()
    ensures var (f, t) := SendAndGet(env, w, command, expected, timeout);
            Asked(env, w, command, expected, timeout, Write(env, w, command), n, f, t)
  {
    hide Wait, Polled;
    var u := Write(env, w, command);
    n := WaitExactly(env, u, Some(expected), Now(env, u) + timeout);
  }

  /** One request writes the command once and then awaits the response for the whole timeout and no longer. */
  lemma GetMeaning(env: Env, w: World, command: seq<byte>, expected: byte, timeout: int)
    requires env.Valid()
    ensures var (f, t) := SendAndGet(env, w, command, expected, timeout);
            exists u, n: nat :: Asked(env, w, command, expected, timeout, u, n, f, t)
  {
    hide SendAndGet, Asked;
    var n := AskedExactly(env, w, command, expected, timeout);
  }

  /** A pause writes the command once and then drains for the whole time, reading all the while. */
  lemma PauseExactly(env: Env, w: World, command: seq<byte>, pause: int) returns (u: World, n: nat)
    requires env.Valid()
    ensures Written(env, w, u, command)
    ensures Polled(env, u, None, Now(env, u) + pause, n, None, SendAndPause(env, w, command, pause))
  {
    hide Wait, Polled;
    u := Write(env, w, command);
    n := WaitExactly(env, u, None, Now(env, u) + pause);
    NothingWanted(env, u, Now(env, u) + pause);
  }

  /** An attempt and the recovery after it. */
  datatype Trial = Trial(start: World, sent: World, polls: nat, answer: Option<Frame>, end: World,
                         drains: nat, drained: World)

  /** The answer is there, and it has no payload or a zero status byte. */
  predicate Confirms(answer: Option<Frame>) {
    answer.Some? && (|answer.value.payload| == 0 || answer.value.payload[0] == 0)
  }

  /** What is reported of an answer that does not confirm. */
  function Complaint(answer: Option<Frame>): Option<AttemptError> {
    match answer
    case None => Some(TimedOut)
    case Some(f) => if |f.payload| == 0 then None else Some(BadStatus(f.payload[0]))
  }

  /** The attempt was made; unless it was confirmed, what arrives in 250 ms was drained. */
  ghost predicate Made(env: Env, r: Trial, command: seq<byte>, expected: byte, timeout: int) {
    && Asked(env, r.start, command, expected, timeout, r.sent, r.polls, r.answer, r.end)
    && (!Confirms(r.answer) ==> Polled(env, r.end, None, Now(env, r.end) + 250, r.drains, None, r.drained))
  }

  /** The next attempt starts 120 ms after the draining. */
  function NextStart(r: Trial): World {
    r.drained.(waited := r.drained.waited + 120)
  }

  /** The attempts follow each other, and each is made. */
  ghost predicate Chained(env: Env, w: World, command: seq<byte>, expected: byte, timeout: int, rounds: seq<Trial>) {
    && (forall i :: 0 <= i < |rounds| ==> Made(env, rounds[i], command, expected, timeout))
    && (forall i :: 0 <= i < |rounds| ==> rounds[i].start == if i == 0 then w else NextStart(rounds[i - 1]))
  }

  /**
   * The whole of a retried command: all attempts before the last one failed; if that one was confirmed, 80
   * ms later it is done; if not, all attempts were used up, and what was wrong with the last is reported.
   */
  ghost predicate Retried(env: Env, w: World, command: seq<byte>, expected: byte, timeout: int, attempts: int,
                          rounds: seq<Trial>, r: Result, t: World) {
    && Chained(env, w, command, expected, timeout, rounds) && |rounds| <= Positive(attempts)
    && (forall i :: 0 <= i < |rounds| ==> (Confirms(rounds[i].answer) <==> r.Done? && i == |rounds| - 1))
    && (if r.Done? then
          |rounds| > 0 && t == rounds[|rounds| - 1].end.(waited := rounds[|rounds| - 1].end.waited + 80)
        else
          && |rounds| == Positive(attempts)
          && t == (if rounds == [] then w else NextStart(rounds[|rounds| - 1]))
          && r.last == (if rounds == [] then None else Complaint(rounds[|rounds| - 1].answer)))
  }

  lemma OneRound(env: Env, w: World, command: seq<byte>, expected: byte, timeout: int) returns (r: Trial)
    requires env.Valid()
    ensures r.start == w && Made(env, r, command, expected, timeout)
    ensures var (e, t) := Attempt(env, w, command, expected, timeout);
            && r.end == t && (e.None? <==> Confirms(r.answer))
            && (e.Some? ==> e == Complaint(r.answer) && NextStart(r) == Recover(env, t))
  {
    hide Wait, Polled;
    var n := AskedExactly(env, w, command, expected, timeout);
    var (f, t) := SendAndGet(env, w, command, expected, timeout);
    var drains := WaitExactly(env, t, None, Now(env, t) + 250);
    NothingWanted(env, t, Now(env, t) + 250);
    r := Trial(w, Write(env, w, command), n, f, t, drains, Wait(env, t, None, Now(env, t) + 250).1);
  }

  lemma ChainedAt(env: Env, w: World, command: seq<byte>, expected: byte, timeout: int, rounds: seq<Trial>, j: nat)
    requires Chained(env, w, command, expected, timeout, rounds) && j < |rounds|
    ensures rounds[j].start == if j == 0 then w else NextStart(rounds[j - 1])
  {
  }

  lemma ChainedCons(env: Env, w: World, command: seq<byte>, expected: byte, timeout: int, r: Trial, more: seq<Trial>)
    requires Made(env, r, command, expected, timeout) && r.start == w
    requires Chained(env, NextStart(r), command, expected, timeout, more)
    ensures Chained(env, w, command, expected, timeout, [r] + more)
  {
    hide Made;
    var rs := [r] + more;
    forall i | 0 <= i < |rs|
      ensures Made(env, rs[i], command, expected, timeout)
      ensures rs[i].start == if i == 0 then w else NextStart(rs[i - 1])
    {
      if i > 0 {
        var j := i - 1;
        assert rs[i] == more[j] && rs[i - 1] == (if i == 1 then r else more[i - 2]);
        ChainedAt(env, NextStart(r), command, expected, timeout, more, j);
        assert more[j].start == if j == 0 then NextStart(r) else NextStart(more[j - 1]);
      }
    }
  }

  lemma {:induction false} TryRounds(env: Env, w: World, command: seq<byte>, expected: byte, timeout: int, left: int,
                                     last: Option<AttemptError>) returns (rounds: seq<Trial>)
    requires env.Valid()
    ensures var (r, t) := Try(env, w, command, expected, timeout, left, last);
            if left <= 0 then rounds == [] && r == GaveUp(last) && t == w
            else rounds != [] && Retried(env, w, command, expected, timeout, left, rounds, r, t)
    decreases left
  {
    hide Attempt, Recover, Made;
    rounds := [];
    if left > 0 {
      var r0 := OneRound(env, w, command, expected, timeout);
      var (e, t) := Attempt(env, w, command, expected, timeout);
      if e.None? {
        rounds := [r0];
      } else {
        var more := TryRounds(env, Recover(env, t), command, expected, timeout, left - 1, e);
        ChainedCons(env, w, command, expected, timeout, r0, more);
        rounds := [r0] + more;
        assert forall i :: 1 <= i < |rounds| ==> rounds[i] == more[i - 1];
      }
    }
  }

  /**
   * The pause between two attempts: at least 370 ms, of which all but 120 pass in reading; everything that
   * was complete by then has been heard, so no late response can answer the next attempt; nothing was sent.
   */
  ghost predicate Calmed(env: Env, s: World, t: World) {
    && Conserved(s, t) && Acts(Since(s, t)) == [] && t.calls == s.calls && t.polls >= s.polls
    && Now(env, t) >= Now(env, s) + 250 + 120
    && t.waited <= s.waited + 25 * (t.polls - s.polls) + 120
    && (Got(s, t) == [] || Pending(t.buffer))
    && Got(s, t) == Reads(env, s.polls, t.polls - s.polls, 512)
  }

  lemma {:induction false} FewEmpties(env: Env, from: nat, n: nat)
    ensures Empties(env, from, n, 512) <= n
    decreases n
  {
    if n > 0 {
      FewEmpties(env, from + 1, n - 1);
    }
  }

  lemma RoundCalms(env: Env, r: Trial, command: seq<byte>, expected: byte, timeout: int)
    requires Made(env, r, command, expected, timeout) && !Confirms(r.answer)
    ensures Calmed(env, r.end, NextStart(r))
  {
    hide Decode, Causal, Heard, BytesIn, Acts, Pending, Reads, Empties, Searched, Filled;
    FewEmpties(env, r.end.polls, r.drains);
    assert Since(r.end, NextStart(r)) == Since(r.end, r.drained);
  }

  /** The end of a retried command: acknowledged at attempt `k`, or given up after `k` attempts. */
  ghost predicate Ended(env: Env, w: World, command: seq<byte>, expected: byte, timeout: int, attempts: int,
                        r: Result, t: World, k: nat, heard: seq<Frame>)
    requires env.Valid()
  {
    match r
    case Done =>
      && k < attempts && SucceedsAt(env, w, command, expected, timeout, k)
      && Ran(w, t, Repeat(Tx(command), k + 1), heard) && Acknowledged(w, t, command, expected)
      && |heard| > 0 && heard[|heard| - 1].command == expected
      && (|heard[|heard| - 1].payload| == 0 || heard[|heard| - 1].payload[0] == 0)
    case GaveUp(last) =>
      && k == Positive(attempts)
      && (forall j: nat :: j < k ==> Outcome(env, w, command, expected, timeout, j).Some?)
      && Ran(w, t, Repeat(Tx(command), k), heard) && (k > 0 ==> Begins(w, t, Tx(command)))
      && last == if k == 0 then None else Outcome(env, w, command, expected, timeout, k - 1)
  }

  ghost predicate AllCalm(env: Env, rounds: seq<Trial>) {
    forall i :: 0 <= i < |rounds| - 1 ==> Calmed(env, rounds[i].end, rounds[i + 1].start)
  }

  lemma RetryRounds(env: Env, w: World, command: seq<byte>, expected: byte, timeout: int, attempts: int)
    requires env.Valid()
    ensures var (r, t) := SendAndWait(env, w, command, expected, timeout, attempts);
            exists rounds :: Retried(env, w, command, expected, timeout, attempts, rounds, r, t) && AllCalm(env, rounds)
  {
    hide Try, Made, Calmed;
    var rounds := TryRounds(env, w, command, expected, timeout, attempts, None);
    forall i | 0 <= i < |rounds| - 1 ensures Calmed(env, rounds[i].end, rounds[i + 1].start) {
      RoundCalms(env, rounds[i], command, expected, timeout);
    }
    var (r, t) := SendAndWait(env, w, command, expected, timeout, attempts);
    assert Retried(env, w, command, expected, timeout, attempts, rounds, r, t);
  }

  /**
   * Retrying succeeds exactly when one of the allowed attempts is acknowledged. It then has written
   * the command once for each attempt up to that one and no more, and has heard the
   * acknowledgement last; otherwise it has written it once for each allowed attempt and reports
   * what was wrong with the last one. Between two attempts there is a pause that hears all that is late.
   */
  lemma RetryMeaning(env: Env, w: World, command: seq<byte>, expected: byte, timeout: int, attempts: int)
    requires env.Valid()
    ensures var (r, t) := SendAndWait(env, w, command, expected, timeout, attempts);
            && (exists k: nat, heard: seq<Frame> :: Ended(env, w, command, expected, timeout, attempts, r, t, k, heard))
            && (r.Done? <==> exists k: nat :: k < attempts && Outcome(env, w, command, expected, timeout, k).None?)
            && (exists rounds :: Retried(env, w, command, expected, timeout, attempts, rounds, r, t) && AllCalm(env, rounds))
  {
    hide Ran, Attempt, Recover, Retried, AllCalm;
    RetryRounds(env, w, command, expected, timeout, attempts);
    var n := TryFrom(env, w, command, expected, timeout, 0, attempts, None);
    var (r, t) := SendAndWait(env, w, command, expected, timeout, attempts);
    if n < attempts {
      var heard := SuccessMeaning(env, w, command, expected, timeout, n);
      assert Ended(env, w, command, expected, timeout, attempts, r, t, n, heard);
    } else {
      var heard := FailuresMeaning(env, w, command, expected, timeout, n);
      assert Ended(env, w, command, expected, timeout, attempts, r, t, n, heard);
    }
  }

  // ---- A whole session ---------------------------------------------------------------

  datatype Request =
    | Confirmed(command: seq<byte>, expected: byte, timeout: int, attempts: int)
    | Get(command: seq<byte>, expected: byte, timeout: int)
    | Pause(command: seq<byte>, pause: int)

  /** Any requests one after the other over the same buffer, whether they succeed or not. */
  function Session(env: Env, w: World, requests: seq<Request>): World
    requires env.Valid()
    decreases |requests|
  {
    if requests == [] then w
    else Session(env, Fulfil(env, w, requests[0]), requests[1..])
  }

  function Fulfil(env: Env, w: World, r: Request): World
    requires env.Valid()
  {
    match r
    case Confirmed(command, expected, timeout, attempts) =>
      SendAndWait(env, w, command, expected, timeout, attempts).1
    case Get(command, expected, timeout) => SendAndGet(env, w, command, expected, timeout).1
    case Pause(command, pause) => SendAndPause(env, w, command, pause)
  }

  lemma FulfilConserves(env: Env, w: World, r: Request)
    requires env.Valid()
    ensures Conserved(w, Fulfil(env, w, r))
  {
    hide Conserved, Wait, Try, Write;
    var w1 := Write(env, w, r.command);
    match r
    case Confirmed(command, expected, timeout, attempts) =>
      RetryMeaning(env, w, command, expected, timeout, attempts);
    case Get(command, expected, timeout) =>
      var heard := WriteThenWait(env, w, command, Some(expected), Now(env, w1) + timeout);
    case Pause(command, pause) =>
      var heard := WriteThenWait(env, w, command, None, Now(env, w1) + pause);
  }

  /** Over a whole session no frame is lost, repeated or reordered, early returns and retries included. */
  lemma {:induction false} SessionConserves(env: Env, w: World, requests: seq<Request>)
    requires env.Valid()
    ensures Conserved(w, Session(env, w, requests))
    decreases |requests|
  {
    if requests == [] {
      QuietStep(w, w, []);
    } else {
      var t := Fulfil(env, w, requests[0]);
      FulfilConserves(env, w, requests[0]);
      SessionConserves(env, t, requests[1..]);
      ConservedTrans(w, t, Session(env, t, requests[1..]));
    }
  }

  // ---- Memory ------------------------------------------------------------------------

  /** How many attempts get a response, whatever it says. */
  function Responses(env: Env, w: World, command: seq<byte>, expected: byte, timeout: int, left: int): nat
    requires env.Valid()
    decreases left
  {
    if left <= 0 then 0
    else
      var (e, t) := Attempt(env, w, command, expected, timeout);
      if e.None? then 1
      else (if e.value.TimedOut? then 0 else 1)
           + Responses(env, Recover(env, t), command, expected, timeout, left - 1)
  }

  function Answers(env: Env, w: World, r: Request): nat
    requires env.Valid()
  {
    match r
    case Confirmed(command, expected, timeout, attempts) => Responses(env, w, command, expected, timeout, attempts)
    case Get(command, expected, timeout) =>
      if SendAndGet(env, w, command, expected, timeout).0.Some? then 1 else 0
    case Pause(_, _) => 0
  }

  /** How many waits of a session end with a response. */
  function AllAnswers(env: Env, w: World, requests: seq<Request>): nat
    requires env.Valid()
    decreases |requests|
  {
    if requests == [] then 0
    else Answers(env, w, requests[0]) + AllAnswers(env, Fulfil(env, w, requests[0]), requests[1..])
  }

  /** From `s` to `t` at most one read was left behind for each of `n` responses. */
  predicate Fits(s: World, t: World, n: nat) {
    && Room(t) <= Room(s) + n * READ_SIZE
    && (t.peak <= s.peak || t.peak <= Room(s) + (n + 1) * READ_SIZE)
  }

  lemma FitsTrans(s: World, t: World, u: World, n: nat, m: nat)
    requires Fits(s, t, n) && Fits(t, u, m)
    ensures Fits(s, u, n + m)
  {
    hide Room;
  }

  lemma WaitFits(env: Env, w: World, command: seq<byte>, want: Option<byte>, deadline: int)
    requires env.Valid()
    ensures var (f, t) := Wait(env, Write(env, w, command), want, deadline);
            Fits(w, t, if f.Some? then 1 else 0)
  {
    hide Wait;
    WaitRoom(env, Write(env, w, command), want, deadline);
  }

  lemma RecoverFits(env: Env, w: World)
    requires env.Valid()
    ensures Fits(w, Recover(env, w), 0)
  {
    hide Wait;
    var deadline := Now(env, w) + DRAIN_MS;
    NothingWanted(env, w, deadline);
    WaitRoom(env, w, None, deadline);
  }

  lemma {:induction false} TryFits(env: Env, w: World, command: seq<byte>, expected: byte, timeout: int, left: int,
                                   last: Option<AttemptError>)
    requires env.Valid()
    ensures Fits(w, Try(env, w, command, expected, timeout, left, last).1,
                 Responses(env, w, command, expected, timeout, left))
    decreases left
  {
    hide Wait, Recover, Write;
    if left > 0 {
      var (e, t) := Attempt(env, w, command, expected, timeout);
      WaitFits(env, w, command, Some(expected), Now(env, Write(env, w, command)) + timeout);
      if e.Some? {
        var n := if e.value.TimedOut? then 0 else 1;
        assert Fits(w, t, n);
        hide Attempt, Fits;
        RecoverFits(env, t);
        var u := Recover(env, t);
        TryFits(env, u, command, expected, timeout, left - 1, e);
        FitsTrans(w, t, u, n, 0);
        FitsTrans(w, u, Try(env, u, command, expected, timeout, left - 1, e).1, n,
                  Responses(env, u, command, expected, timeout, left - 1));
      }
    }
  }

  lemma FulfilFits(env: Env, w: World, r: Request)
    requires env.Valid()
    ensures Fits(w, Fulfil(env, w, r), Answers(env, w, r))
  {
    hide Wait, Try, Responses, Fits, Write;
    var w1 := Write(env, w, r.command);
    match r
    case Confirmed(command, expected, timeout, attempts) =>
      TryFits(env, w, command, expected, timeout, attempts, None);
    case Get(command, expected, timeout) =>
      WaitFits(env, w, command, Some(expected), Now(env, w1) + timeout);
    case Pause(command, pause) =>
      WaitFits(env, w, command, None, Now(env, w1) + pause);
      NothingWanted(env, w1, Now(env, w1) + pause);
  }

  /**
   * Over a whole session the buffer holds at most what it held before, or a pending tail, and one read of
   * 512 bytes for each response, and while polling one more.
   */
  lemma {:induction false} SessionMemory(env: Env, w: World, requests: seq<Request>)
    requires env.Valid()
    ensures Fits(w, Session(env, w, requests), AllAnswers(env, w, requests))
    decreases |requests|
  {
    if requests != [] {
      hide Fits, Answers, Fulfil;
      var t := Fulfil(env, w, requests[0]);
      FulfilFits(env, w, requests[0]);
      SessionMemory(env, t, requests[1..]);
      FitsTrans(w, t, Session(env, t, requests[1..]), Answers(env, w, requests[0]), AllAnswers(env, t, requests[1..]));
    }
  }

  // ---- Time --------------------------------------------------------------------------

  /** The longest one failed attempt with its recovery can take. */
  function LongestRound(timeout: int, d: nat, b: nat): nat {
    b + Positive(timeout) + 250 + 120 + 2 * (d + 25)
  }

  lemma AttemptTime(env: Env, w: World, command: seq<byte>, expected: byte, timeout: int, d: nat, b: nat)
    requires env.Valid() && env.Prompt(d, b)
    ensures var t := Attempt(env, w, command, expected, timeout).1;
            && Now(env, w) <= Now(env, t) <= Now(env, w) + b + Positive(timeout) + d + IDLE_MS
            && Now(env, t) <= Now(env, Recover(env, t)) <= Now(env, w) + LongestRound(timeout, d, b)
  {
    hide Wait;
    var w1 := Write(env, w, command);
    WaitTime(env, w1, Some(expected), Now(env, w1) + timeout, d, b);
    var t := Attempt(env, w, command, expected, timeout).1;
    WaitTime(env, t, None, Now(env, t) + DRAIN_MS, d, b);
  }

  /** With prompt calls the retries end within a fixed time. */
  lemma {:induction false} RetryTime(env: Env, w: World, command: seq<byte>, expected: byte, timeout: int,
                                     left: int, last: Option<AttemptError>, d: nat, b: nat)
    requires env.Valid() && env.Prompt(d, b)
    ensures var t := Try(env, w, command, expected, timeout, left, last).1;
            Now(env, w) <= Now(env, t) <= Now(env, w) + Positive(left) * LongestRound(timeout, d, b) + 80
    decreases left
  {
    if left > 0 {
      var (e, t) := Attempt(env, w, command, expected, timeout);
      AttemptTime(env, w, command, expected, timeout, d, b);
      OneMore(left, LongestRound(timeout, d, b));
      if e.Some? {
        RetryTime(env, Recover(env, t), command, expected, timeout, left - 1, e, d, b);
      }
    }
  }

  lemma OneMore(n: int, r: nat)
    requires n > 0
    ensures n * r == Positive(n - 1) * r + r && Positive(n - 1) * r >= 0
  {
  }

  /** A pause keeps draining for its whole duration and, with prompt calls, hardly longer. */
  lemma PauseTime(env: Env, w: World, command: seq<byte>, pause: int, d: nat, b: nat)
    requires env.Valid()
    ensures Now(env, SendAndPause(env, w, command, pause)) >= Now(env, w) + pause
    ensures env.Prompt(d, b) ==>
              Now(env, SendAndPause(env, w, command, pause)) <= Now(env, w) + b + Positive(pause) + d + IDLE_MS
  {
    var w1 := Write(env, w, command);
    hide Wait;
    var deadline := Now(env, w1) + pause;
    NothingWanted(env, w1, deadline);
    WaitEndsInTime(env, w1, None, deadline);
    if env.Prompt(d, b) {
      WaitTime(env, w1, None, deadline, d, b);
    }
  }

  lemma NothingWanted(env: Env, w: World, deadline: int)
    requires env.Valid()
    ensures Wait(env, w, None, deadline).0.None?
  {
    WaitMeaning(env, w, None, deadline);
  }
}
