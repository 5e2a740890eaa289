// The request and response protocol as functions on the world, and what it guarantees.

module Protocol {
  import opened Bytes
  import opened Framing
  import opened Link

  const READ_SIZE: nat := 512
  const IDLE_MS: nat := 25

  // ---- Taking frames until the wanted one ------------------------------------------

  /** `want` is the awaited command, or None when every frame is only logged. */
  predicate Matches(f: Frame, want: Option<byte>) {
    want.Some? && f.command == want.value
  }

  predicate NoneMatch(fs: seq<Frame>, want: Option<byte>) {
    forall f :: f in fs ==> !Matches(f, want)
  }

  /** `f` is the first match in `fs` and its last element. */
  predicate EndsAtFirst(fs: seq<Frame>, want: Option<byte>, f: Frame) {
    |fs| > 0 && fs[|fs| - 1] == f && Matches(f, want) && NoneMatch(fs[..|fs| - 1], want)
  }

  datatype Taken = Taken(seen: seq<Frame>, hit: Option<Frame>, rest: seq<byte>)

  function TakeUntil(s: seq<byte>, want: Option<byte>): Taken
    decreases |s|
  {
    var (f, t) := Next(s);
    if f.None? then Taken([], None, t)
    else if Matches(f.value, want) then Taken([f.value], f, t)
    else
      var more := TakeUntil(t, want);
      Taken([f.value] + more.seen, more.hit, more.rest)
  }

  lemma {:induction false} TakenMeaning(s: seq<byte>, want: Option<byte>)
    ensures var k := TakeUntil(s, want);
            && Decode(s) == Prepend(k.seen, Decode(k.rest))
            && (k.hit.Some? ==> EndsAtFirst(k.seen, want, k.hit.value))
            && (k.hit.None? ==> NoneMatch(k.seen, want) && Pending(k.rest))
    decreases |s|
  {
    hide Next, Decode;
    NextMeaning(s);
    var (f, t) := Next(s);
    if f.None? {
      PendingDecodes(t);
      assert [] + Decode(t).frames == Decode(t).frames;
    } else if !Matches(f.value, want) {
      var more := TakeUntil(t, want);
      TakenMeaning(t, want);
      PrependTwice([f.value], more.seen, Decode(more.rest));
      if more.hit.Some? {
        FirstAfterNone([f.value], more.seen, want, more.hit.value);
      } else {
        NoneMatchAppend([f.value], more.seen, want);
      }
    }
  }

  // ---- One poll, and polling until a deadline --------------------------------------

  function Chunk(env: Env, w: World, max: nat): seq<byte> {
    ReadAt(env, w.polls, max)
  }

  /** What read number `k` brings; an error brings nothing. */
  function ReadAt(env: Env, k: nat, max: nat): seq<byte> {
    var r := env.read(k, max);
    if r.Data? then r.bytes else []
  }

  /** One round of the receive loops. */
  function Poll(env: Env, w: World, want: Option<byte>): (Option<Frame>, World) {
    var chunk := Chunk(env, w, READ_SIZE);
    var r := AfterRead(env, w, READ_SIZE);
    if chunk == [] then (None, Sleep(r, IDLE_MS))
    else
      var k := TakeUntil(r.buffer + chunk, want);
      (k.hit, TakeOut(Append(r, chunk), k.seen, k.rest))
  }

  /** Polls that may still be needed before `deadline`. */
  function Left(env: Env, w: World, deadline: int): nat {
    var last := env.reach(if deadline > 0 then deadline else 0);
    if w.polls < last then last - w.polls else 0
  }

  lemma TimeRunsOut(env: Env, w: World, deadline: int)
    requires env.Valid() && Now(env, w) < deadline
    ensures w.polls < env.reach(deadline)
  {
    assert deadline <= env.elapsed(env.reach(deadline));
  }

  /** Poll until the wanted frame arrives or a clock check finds the deadline passed. */
  function Wait(env: Env, w: World, want: Option<byte>, deadline: int): (Option<Frame>, World)
    requires env.Valid()
    decreases Left(env, w, deadline)
  {
    if Now(env, w) >= deadline then (None, w)
    else
      TimeRunsOut(env, w, deadline);
      var (f, t) := Poll(env, w, want);
      if f.Some? then (f, t) else Wait(env, t, want, deadline)
  }

  lemma PollMeaning(env: Env, w: World, want: Option<byte>)
    ensures var (f, t) := Poll(env, w, want);
            var chunk := Chunk(env, w, READ_SIZE);
            && Conserved(w, t) && Got(w, t) == chunk && Acts(Since(w, t)) == []
            && (f.Some? ==> chunk != [] && EndsAtFirst(Heard(Since(w, t)), want, f.value))
            && (f.Some? ==> Ends(w, t, Rx(f.value)))
            && (f.None? ==> NoneMatch(Heard(Since(w, t)), want))
            && (f.None? && chunk == [] ==> t.buffer == w.buffer && Heard(Since(w, t)) == [])
            && (f.None? && chunk != [] ==> Pending(t.buffer))
  {
    var (f, t) := Poll(env, w, want);
    var chunk := Chunk(env, w, READ_SIZE);
    if chunk == [] {
      QuietStep(w, t, []);
    } else {
      var k := TakeUntil(w.buffer + chunk, want);
      TakenMeaning(w.buffer + chunk, want);
      TakeStep(w, t, chunk, k.seen);
    }
  }

  /** What is known when a wait ends. */
  ghost predicate WaitedFor(s: World, want: Option<byte>, f: Option<Frame>, t: World) {
    && Conserved(s, t) && Acts(Since(s, t)) == []
    && (f.Some? ==> Got(s, t) != [] && EndsAtFirst(Heard(Since(s, t)), want, f.value))
    && (f.Some? ==> Ends(s, t, Rx(f.value)))
    && (f.None? ==> NoneMatch(Heard(Since(s, t)), want))
    && (f.None? && Got(s, t) == [] ==> t.buffer == s.buffer && Heard(Since(s, t)) == [])
    && (f.None? && Got(s, t) != [] ==> Pending(t.buffer))
  }

  lemma WaitedForAfterPoll(s: World, want: Option<byte>, t: World, f: Option<Frame>, u: World)
    requires WaitedFor(s, want, None, t) && WaitedFor(t, want, f, u)
    ensures WaitedFor(s, want, f, u)
  {
    ConservedTrans(s, t, u);
    Between(s, t, u);
    var h1, h2 := Heard(Since(s, t)), Heard(Since(t, u));
    if f.Some? {
      FirstAfterNone(h1, h2, want, f.value);
      EndsLater(s, t, u, Rx(f.value), [], h1);
    } else {
      NoneMatchAppend(h1, h2, want);
    }
  }

  lemma NoneMatchAppend(a: seq<Frame>, b: seq<Frame>, want: Option<byte>)
    ensures NoneMatch(a + b, want) <==> NoneMatch(a, want) && NoneMatch(b, want)
  {
    assert forall f :: f in a + b <==> f in a || f in b;
  }

  lemma FirstAfterNone(a: seq<Frame>, b: seq<Frame>, want: Option<byte>, f: Frame)
    requires NoneMatch(a, want) && EndsAtFirst(b, want, f)
    ensures EndsAtFirst(a + b, want, f)
  {
    var n := |b| - 1;
    assert (a + b)[..|a| + n] == a + b[..n];
    NoneMatchAppend(a, b[..n], want);
  }

  lemma PollWaited(env: Env, w: World, want: Option<byte>)
    ensures var (f, t) := Poll(env, w, want); WaitedFor(w, want, f, t)
  {
    PollMeaning(env, w, want);
  }

  lemma NothingWaited(w: World, want: Option<byte>)
    ensures WaitedFor(w, want, None, w)
  {
    QuietStep(w, w, []);
  }

  lemma {:induction false} WaitMeaning(env: Env, w: World, want: Option<byte>, deadline: int)
    requires env.Valid()
    ensures var (f, t) := Wait(env, w, want, deadline); WaitedFor(w, want, f, t)
    decreases Left(env, w, deadline)
  {
    hide WaitedFor;
    if Now(env, w) >= deadline {
      NothingWaited(w, want);
    } else {
      TimeRunsOut(env, w, deadline);
      PollWaited(env, w, want);
      var (f, t) := Poll(env, w, want);
      if f.None? {
        WaitMeaning(env, t, want, deadline);
        var (g, u) := Wait(env, t, want, deadline);
        WaitedForAfterPoll(w, want, t, g, u);
      }
    }
  }

  /**
   * A wait returns a frame exactly when something was read and the old buffer with the bytes read
   * holds a frame with the expected command; that frame is the first such one, everything before
   * it was logged, and the buffer holds exactly what comes after it.
   */
  lemma WaitFindsFirst(env: Env, w: World, expected: byte, deadline: int)
    requires env.Valid()
    ensures var (f, t) := Wait(env, w, Some(expected), deadline);
            && Follows(w, t)
            && var d := Decode(w.buffer + Got(w, t));
            && (f.Some? <==> Got(w, t) != [] && exists g :: g in d.frames && g.command == expected)
            && (f.Some? ==> exists before: seq<Frame> ::
                  && (forall g :: g in before ==> g.command != expected) && f.value.command == expected
                  && d == Prepend(before + [f.value], Decode(t.buffer)))
            && (f.None? ==> Now(env, t) >= deadline)
            && (f.None? && Got(w, t) != [] ==> t.buffer == d.rest)
  {
    hide Wait, Decode, Heard, BytesIn;
    var (f, t) := Wait(env, w, Some(expected), deadline);
    WaitMeaning(env, w, Some(expected), deadline);
    WaitEndsInTime(env, w, Some(expected), deadline);
    if f.Some? {
      SplitAtFirst(Heard(Since(w, t)), expected, f.value, Decode(t.buffer));
    } else if Got(w, t) != [] {
      PendingDecodes(t.buffer);
      assert Prepend(Heard(Since(w, t)), Decode(t.buffer)).frames == Heard(Since(w, t));
    }
  }

  lemma SplitAtFirst(heard: seq<Frame>, expected: byte, f: Frame, d: Decoded)
    requires EndsAtFirst(heard, Some(expected), f)
    ensures f in Prepend(heard, d).frames && f.command == expected
    ensures exists before: seq<Frame> ::
              (forall g :: g in before ==> g.command != expected)
              && Prepend(heard, d) == Prepend(before + [f], d)
  {
    var before := heard[..|heard| - 1];
    assert heard == before + [f];
    assert f in heard;
  }

  lemma {:induction false} WaitEndsInTime(env: Env, w: World, want: Option<byte>, deadline: int)
    requires env.Valid()
    ensures var (f, t) := Wait(env, w, want, deadline);
            && w.polls <= t.polls && w.waited <= t.waited && Now(env, w) <= Now(env, t)
            && (f.None? ==> Now(env, t) >= deadline)
    decreases Left(env, w, deadline)
  {
    if Now(env, w) < deadline {
      TimeRunsOut(env, w, deadline);
      var (f, t) := Poll(env, w, want);
      assert env.elapsed(w.polls) <= env.elapsed(w.polls + 1);
      if f.None? {
        WaitEndsInTime(env, t, want, deadline);
      }
    }
  }

  // ---- A wait told without its loop --------------------------------------------------

  /** What `n` reads from number `from` on bring. */
  function Reads(env: Env, from: nat, n: nat, max: nat): seq<byte>
    decreases n
  {
    if n == 0 then [] else ReadAt(env, from, max) + Reads(env, from + 1, n - 1, max)
  }

  /** How many of them bring nothing. */
  function Empties(env: Env, from: nat, n: nat, max: nat): nat
    decreases n
  {
    if n == 0 then 0
    else (if ReadAt(env, from, max) == [] then 1 else 0) + Empties(env, from + 1, n - 1, max)
  }

  /** The clock after `m` reads of 512 bytes, with 25 ms of sleep for each that brought nothing. */
  function ClockAfter(env: Env, w: World, m: nat): int {
    w.waited + 25 * Empties(env, w.polls, m, 512) + env.elapsed(w.polls + m)
  }

  /** Something was read, and with it the buffer holds a frame with the wanted command. */
  ghost predicate Holds(buffer: seq<byte>, bytes: seq<byte>, want: Option<byte>) {
    bytes != [] && exists f :: f in Decode(buffer + bytes).frames && want == Some(f.command)
  }

  /** What is left in the buffer when all frames have been taken out after a read. */
  function Tail(buffer: seq<byte>, bytes: seq<byte>): seq<byte> {
    if bytes == [] then buffer else Decode(buffer + bytes).rest
  }

  /** `n` reads were made, each while the deadline was ahead, and a failure means it has passed. */
  ghost predicate Paced(env: Env, w: World, deadline: int, n: nat, f: Option<Frame>, t: World) {
    && t.polls == w.polls + n && t.calls == w.calls && t.waited == w.waited + 25 * Empties(env, w.polls, n, 512)
    && (forall m: nat :: m < n ==> ClockAfter(env, w, m) < deadline)
    && (f.None? ==> ClockAfter(env, w, n) >= deadline)
  }

  /** The wanted frame is there after the last read and was not there before. */
  ghost predicate Searched(env: Env, w: World, want: Option<byte>, n: nat, f: Option<Frame>) {
    && (forall m: nat :: m < n ==> !Holds(w.buffer, Reads(env, w.polls, m, 512), want))
    && (f.Some? <==> Holds(w.buffer, Reads(env, w.polls, n, 512), want))
    && (f.Some? ==> want == Some(f.value.command))
  }

  /** The peak covers every read on top of what the buffer held. */
  ghost predicate Filled(env: Env, w: World, n: nat, t: World) {
    && t.peak >= w.peak
    && forall m: nat :: m < n && ReadAt(env, w.polls + m, 512) != [] ==>
         t.peak >= |Tail(w.buffer, Reads(env, w.polls, m, 512))| + |ReadAt(env, w.polls + m, 512)|
  }

  ghost predicate Polled(env: Env, w: World, want: Option<byte>, deadline: int, n: nat, f: Option<Frame>, t: World) {
    && WaitedFor(w, want, f, t) && Got(w, t) == Reads(env, w.polls, n, 512)
    && Paced(env, w, deadline, n, f, t) && Searched(env, w, want, n, f) && Filled(env, w, n, t)
  }

  lemma OneReadMore(env: Env, w: World, m: nat)
    requires m > 0
    ensures Reads(env, w.polls, m, 512) == Chunk(env, w, 512) + Reads(env, w.polls + 1, m - 1, 512)
    ensures Empties(env, w.polls, m, 512)
         == (if Chunk(env, w, 512) == [] then 1 else 0) + Empties(env, w.polls + 1, m - 1, 512)
  {
  }

  /** A poll without a hit changes nothing in what later reads will show. */
  lemma AfterMiss(env: Env, w: World, want: Option<byte>, more: seq<byte>)
    requires Poll(env, w, want).0.None?
    ensures var t, chunk := Poll(env, w, want).1, Chunk(env, w, READ_SIZE);
            && (Holds(w.buffer, chunk + more, want) <==> Holds(t.buffer, more, want))
            && Tail(w.buffer, chunk + more) == Tail(t.buffer, more)
  {
    var t, chunk := Poll(env, w, want).1, Chunk(env, w, READ_SIZE);
    PollMeaning(env, w, want);
    if chunk == [] {
      assert chunk + more == more;
    } else {
      hide Poll, Decode, Causal, Pending;
      MissDecodes(w.buffer, chunk, Heard(Since(w, t)), t.buffer, more, want);
    }
  }

  lemma MissDecodes(buffer: seq<byte>, chunk: seq<byte>, heard: seq<Frame>, rest: seq<byte>, more: seq<byte>,
                    want: Option<byte>)
    requires chunk != [] && Decode(buffer + chunk) == Prepend(heard, Decode(rest))
    requires Pending(rest) && NoneMatch(heard, want)
    ensures Holds(buffer, chunk + more, want) <==> Holds(rest, more, want)
    ensures Tail(buffer, chunk + more) == Tail(rest, more)
  {
    PendingDecodes(rest);
    hide Decode, Pending, Holds, NoneMatch;
    Associates(buffer, chunk, more);
    DecodeResumes(buffer + chunk, heard, rest, more);
    NoneMatchAppend(heard, Decode(rest + more).frames, want);
    HoldsByMatch(buffer, chunk + more, want);
    if more == [] {
      assert rest + more == rest;
      NothingHolds(rest, want);
      NoFrames(want);
    } else {
      HoldsByMatch(rest, more, want);
    }
  }

  lemma NoFrames(want: Option<byte>)
    ensures NoneMatch([], want)
  {
  }

  lemma HoldsByMatch(buffer: seq<byte>, bytes: seq<byte>, want: Option<byte>)
    requires bytes != []
    ensures Holds(buffer, bytes, want) <==> !NoneMatch(Decode(buffer + bytes).frames, want)
  {
    hide Decode;
    var fs := Decode(buffer + bytes).frames;
    if !NoneMatch(fs, want) {
      var f :| f in fs && Matches(f, want);
      assert want == Some(f.command);
    }
  }

  lemma HitHolds(env: Env, w: World, want: Option<byte>)
    requires Poll(env, w, want).0.Some?
    ensures Holds(w.buffer, Chunk(env, w, READ_SIZE), want) && want == Some(Poll(env, w, want).0.value.command)
  {
    var (f, t) := Poll(env, w, want);
    PollMeaning(env, w, want);
    hide Poll, Decode, Heard, BytesIn, Acts, Causal;
    var heard := Heard(Since(w, t));
    assert f.value in heard;
    assert f.value in heard + Decode(t.buffer).frames;
    assert f.value in Decode(w.buffer + Chunk(env, w, READ_SIZE)).frames;
  }

  lemma PollPaced(env: Env, w: World, want: Option<byte>)
    ensures var t, chunk := Poll(env, w, want).1, Chunk(env, w, 512);
            && t.polls == w.polls + 1 && t.calls == w.calls
            && t.waited == w.waited + (if chunk == [] then 25 else 0)
            && t.peak >= w.peak && (chunk != [] ==> t.peak >= |w.buffer| + |chunk|)
  {
  }

  /** One poll with a hit, or none at all, is the whole wait. */
  lemma PolledOnce(env: Env, w: World, want: Option<byte>, deadline: int)
    requires Now(env, w) < deadline && Poll(env, w, want).0.Some?
    ensures var (f, t) := Poll(env, w, want); Polled(env, w, want, deadline, 1, f, t)
  {
    hide Poll, WaitedFor, Holds;
    var (f, t) := Poll(env, w, want);
    PollPaced(env, w, want);
    PollWaited(env, w, want);
    HitHolds(env, w, want);
    PollGot(env, w, want);
    OneReadMore(env, w, 1);
    assert Chunk(env, w, 512) + [] == Chunk(env, w, 512);
    assert Reads(env, w.polls, 1, 512) == Chunk(env, w, 512);
    assert Empties(env, w.polls, 1, 512) == if Chunk(env, w, 512) == [] then 1 else 0;
    NothingHolds(w.buffer, want);
  }

  lemma NothingHolds(buffer: seq<byte>, want: Option<byte>)
    ensures !Holds(buffer, [], want) && Tail(buffer, []) == buffer
  {
  }

  lemma PollGot(env: Env, w: World, want: Option<byte>)
    ensures var t := Poll(env, w, want).1; Follows(w, t) && Got(w, t) == Chunk(env, w, 512)
  {
    PollMeaning(env, w, want);
  }

  lemma PolledNever(env: Env, w: World, want: Option<byte>, deadline: int)
    requires Now(env, w) >= deadline
    ensures Polled(env, w, want, deadline, 0, None, w)
  {
    NothingWaited(w, want);
    NothingHolds(w.buffer, want);
    assert Since(w, w) == [];
  }

  lemma PacedLater(env: Env, w: World, want: Option<byte>, deadline: int, n: nat, f: Option<Frame>, u: World)
    requires Now(env, w) < deadline && Paced(env, Poll(env, w, want).1, deadline, n, f, u)
    ensures Paced(env, w, deadline, n + 1, f, u)
  {
    hide Poll;
    var t := Poll(env, w, want).1;
    PollPaced(env, w, want);
    forall m: nat | 0 < m <= n + 1 ensures ClockAfter(env, w, m) == ClockAfter(env, t, m - 1) {
      OneReadMore(env, w, m);
    }
    OneReadMore(env, w, n + 1);
    forall m: nat | m < n + 1 ensures ClockAfter(env, w, m) < deadline {
      if m > 0 {
        assert ClockAfter(env, w, m) == ClockAfter(env, t, m - 1);
      }
    }
  }

  lemma SearchedLater(env: Env, w: World, want: Option<byte>, n: nat, f: Option<Frame>)
    requires Poll(env, w, want).0.None? && Searched(env, Poll(env, w, want).1, want, n, f)
    ensures Searched(env, w, want, n + 1, f)
  {
    hide Poll, Holds;
    var t := Poll(env, w, want).1;
    PollPaced(env, w, want);
    forall m: nat | 0 < m <= n + 1
      ensures Holds(w.buffer, Reads(env, w.polls, m, 512), want)
              <==> Holds(t.buffer, Reads(env, t.polls, m - 1, 512), want)
    {
      OneReadMore(env, w, m);
      AfterMiss(env, w, want, Reads(env, w.polls + 1, m - 1, 512));
    }
    NothingHolds(w.buffer, want);
    forall m: nat | m < n + 1 ensures !Holds(w.buffer, Reads(env, w.polls, m, 512), want) {
      if m > 0 {
        assert !Holds(t.buffer, Reads(env, t.polls, m - 1, 512), want);
      }
    }
  }

  lemma FilledLater(env: Env, w: World, want: Option<byte>, n: nat, u: World)
    requires Poll(env, w, want).0.None? && Filled(env, Poll(env, w, want).1, n, u)
    ensures Filled(env, w, n + 1, u)
  {
    hide Poll, Tail;
    var t := Poll(env, w, want).1;
    PollPaced(env, w, want);
    NothingHolds(w.buffer, want);
    forall m: nat | m < n + 1 && ReadAt(env, w.polls + m, 512) != []
      ensures u.peak >= |Tail(w.buffer, Reads(env, w.polls, m, 512))| + |ReadAt(env, w.polls + m, 512)|
    {
      if m > 0 {
        OneReadMore(env, w, m);
        AfterMiss(env, w, want, Reads(env, w.polls + 1, m - 1, 512));
        assert ReadAt(env, t.polls + (m - 1), 512) == ReadAt(env, w.polls + m, 512);
      }
    }
  }

  lemma PolledLater(env: Env, w: World, want: Option<byte>, deadline: int, n: nat, f: Option<Frame>, u: World)
    requires Now(env, w) < deadline && Poll(env, w, want).0.None?
    requires Polled(env, Poll(env, w, want).1, want, deadline, n, f, u)
    ensures Polled(env, w, want, deadline, n + 1, f, u)
  {
    hide Poll, WaitedFor, Paced, Searched, Filled;
    var t := Poll(env, w, want).1;
    PacedLater(env, w, want, deadline, n, f, u);
    SearchedLater(env, w, want, n, f);
    FilledLater(env, w, want, n, u);
    PollWaited(env, w, want);
    PollGot(env, w, want);
    PollPaced(env, w, want);
    WaitedForAfterPoll(w, want, t, f, u);
    OneReadMore(env, w, n + 1);
    GotFurther(w, t, want, f, u);
  }

  lemma GotFurther(w: World, t: World, want: Option<byte>, f: Option<Frame>, u: World)
    requires Follows(w, t) && WaitedFor(t, want, f, u)
    ensures Follows(t, u) && Follows(w, u) && Got(w, u) == Got(w, t) + Got(t, u)
  {
    Between(w, t, u);
  }

  /**
   * A wait is this and nothing else: it reads 512 bytes at a time, sleeps 25 ms when a read brings
   * nothing, and stops at the first clock check past the deadline or after the first read with which
   * the wanted frame is there; all that was read has been decoded, and the peak covers it.
   */
  lemma {:induction false} WaitExactly(env: Env, w: World, want: Option<byte>, deadline: int) returns (n: nat)
    requires env.Valid()
    ensures var (f, t) := Wait(env, w, want, deadline); Polled(env, w, want, deadline, n, f, t)
    decreases Left(env, w, deadline)
  {
    hide Poll, Polled;
    if Now(env, w) >= deadline {
      PolledNever(env, w, want, deadline);
      n := 0;
    } else {
      TimeRunsOut(env, w, deadline);
      PollPaced(env, w, want);
      var (f, t) := Poll(env, w, want);
      if f.Some? {
        PolledOnce(env, w, want, deadline);
        n := 1;
      } else {
        var k := WaitExactly(env, t, want, deadline);
        var (g, u) := Wait(env, t, want, deadline);
        PolledLater(env, w, want, deadline, k, g, u);
        n := k + 1;
      }
    }
  }

  /** The wait ends with the read that brought the frame: before that read nothing matched. */
  lemma {:induction false} WaitStopsAtTheHit(env: Env, w: World, want: Option<byte>, deadline: int)
    requires env.Valid()
    ensures var (f, t) := Wait(env, w, want, deadline);
            f.Some? ==> && Follows(w, t) && t.polls > 0
                        && exists earlier :: LastReadAfter(env, w, t, want, earlier)
    decreases Left(env, w, deadline)
  {
    hide Conserved;
    if Now(env, w) < deadline {
      TimeRunsOut(env, w, deadline);
      var (f, t) := Poll(env, w, want);
      if f.Some? {
        HitAtOnce(env, w, want);
      } else {
        hide LastReadAfter;
        WaitStopsAtTheHit(env, t, want, deadline);
        var (g, u) := Wait(env, t, want, deadline);
        if g.Some? {
          var earlier :| LastReadAfter(env, t, u, want, earlier);
          EarlierRead(env, w, want, u, earlier);
        }
      }
    }
  }

  /** The bytes read between `s` and `t` are `earlier` and one last chunk, without which nothing matches. */
  ghost predicate LastReadAfter(env: Env, s: World, t: World, want: Option<byte>, earlier: seq<byte>)
    requires Follows(s, t) && t.polls > 0
  {
    var last := env.read(t.polls - 1, READ_SIZE);
    && last.Data? && last.bytes != []
    && Got(s, t) == earlier + last.bytes
    && (earlier == [] || NoneMatch(Decode(s.buffer + earlier).frames, want))
  }

  lemma HitAtOnce(env: Env, w: World, want: Option<byte>)
    requires Poll(env, w, want).0.Some?
    ensures var t := Poll(env, w, want).1;
            Follows(w, t) && t.polls > 0 && LastReadAfter(env, w, t, want, [])
  {
    PollMeaning(env, w, want);
    assert [] + Chunk(env, w, READ_SIZE) == Chunk(env, w, READ_SIZE);
  }

  lemma EarlierRead(env: Env, w: World, want: Option<byte>, u: World, earlier: seq<byte>)
    requires Poll(env, w, want).0.None?
    requires Follows(Poll(env, w, want).1, u) && u.polls > 0
    requires LastReadAfter(env, Poll(env, w, want).1, u, want, earlier)
    ensures Follows(w, u) && LastReadAfter(env, w, u, want, Chunk(env, w, READ_SIZE) + earlier)
  {
    var t, chunk := Poll(env, w, want).1, Chunk(env, w, READ_SIZE);
    PollMeaning(env, w, want);
    Between(w, t, u);
    Associates(chunk, earlier, env.read(u.polls - 1, READ_SIZE).bytes);
    if chunk == [] {
      assert chunk + earlier == earlier;
    } else {
      var heard := Heard(Since(w, t));
      assert Decode(t.buffer) == Decoded([], t.buffer);
      Associates(w.buffer, chunk, earlier);
      DecodeAppend(w.buffer + chunk, earlier);
      assert heard + [] == heard;
      if earlier == [] {
        assert chunk + earlier == chunk;
      } else {
        NoneMatchAppend(heard, Decode(t.buffer + earlier).frames, want);
      }
    }
  }

  /**
   * The response was already complete in the buffer before the wait began, and so cannot answer
   * what was written last, exactly when the old buffer held a matching frame.
   */
  lemma StaleResponse(env: Env, w: World, expected: byte, deadline: int)
    requires env.Valid() && Wait(env, w, Some(expected), deadline).0.Some?
    ensures var t := Wait(env, w, Some(expected), deadline).1;
            && Follows(w, t)
            && var before, heard := Decode(w.buffer).frames, Heard(Since(w, t));
            && (heard <= before <==> exists g :: g in before && g.command == expected)
  {
    var (f, t) := Wait(env, w, Some(expected), deadline);
    WaitMeaning(env, w, Some(expected), deadline);
    DecodeAppend(w.buffer, Got(w, t));
    FirstIsOld(Heard(Since(w, t)), Decode(t.buffer).frames, Decode(w.buffer).frames,
               Decode(Decode(w.buffer).rest + Got(w, t)).frames, expected, f.value);
  }

  lemma FirstIsOld(heard: seq<Frame>, later: seq<Frame>, before: seq<Frame>, more: seq<Frame>,
                   expected: byte, f: Frame)
    requires heard + later == before + more
    requires EndsAtFirst(heard, Some(expected), f)
    ensures heard <= before <==> exists g :: g in before && g.command == expected
  {
    PrefixesOf(heard, later, before, more);
    var n := |heard| - 1;
    if |heard| <= |before| {
      assert before[n] == f;
      assert f in before && f.command == expected;
    } else {
      forall g | g in before ensures g.command != expected {
        var i :| 0 <= i < |before| && before[i] == g;
        assert heard[..n][i] == g;
        assert g in heard[..n];
      }
    }
  }

  lemma PrefixesOf(a: seq<Frame>, b: seq<Frame>, c: seq<Frame>, d: seq<Frame>)
    requires a + b == c + d
    ensures |a| <= |c| ==> a <= c
    ensures |c| < |a| ==> a[..|c|] == c
  {
    assert a == (a + b)[..|a|] && c == (c + d)[..|c|];
  }

  /** With prompt reads a wait overruns its deadline by less than one poll. */
  lemma {:induction false} WaitTime(env: Env, w: World, want: Option<byte>, deadline: int, d: nat, b: nat)
    requires env.Valid() && env.Prompt(d, b)
    ensures var t := Wait(env, w, want, deadline).1;
            && t.calls == w.calls && Now(env, w) <= Now(env, t)
            && (Now(env, t) == Now(env, w) || Now(env, t) < deadline + d + IDLE_MS)
    decreases Left(env, w, deadline)
  {
    if Now(env, w) < deadline {
      TimeRunsOut(env, w, deadline);
      var (f, t) := Poll(env, w, want);
      assert env.elapsed(w.polls) <= env.elapsed(w.polls + 1);
      if f.None? {
        WaitTime(env, t, want, deadline, d, b);
      }
    }
  }

  // ---- Memory --------------------------------------------------------------------------

  /** What a buffer is allowed for: its bytes, and never less than a pending tail. */
  function Room(w: World): nat {
    if |w.buffer| > 258 then |w.buffer| else 258
  }

  lemma {:induction false} TakenShortens(s: seq<byte>, want: Option<byte>)
    ensures |TakeUntil(s, want).rest| <= |s|
    decreases |s|
  {
    hide Next;
    NextShortens(s);
    var (f, t) := Next(s);
    if f.Some? && !Matches(f.value, want) {
      TakenShortens(t, want);
    }
  }

  lemma {:induction false} NextShortens(s: seq<byte>)
    ensures |Next(s).1| <= |s|
    decreases |s|
  {
    if !Pending(s) && !FirstPiece(s).Accepted? {
      NextShortens(s[|Raw(FirstPiece(s))|..]);
    }
  }

  /** Only a frame that is returned can leave more than a pending tail, by at most one read. */
  lemma PollRoom(env: Env, w: World, want: Option<byte>)
    requires env.Valid()
    ensures var (f, t) := Poll(env, w, want);
            && Room(t) <= Room(w) + (if f.Some? then READ_SIZE else 0)
            && (t.peak <= w.peak || t.peak <= Room(w) + READ_SIZE)
  {
    hide TakeUntil, Pending;
    var chunk := Chunk(env, w, READ_SIZE);
    TakenMeaning(w.buffer + chunk, want);
    TakenShortens(w.buffer + chunk, want);
    if chunk != [] && TakeUntil(w.buffer + chunk, want).hit.None? {
      PendingIsShort(TakeUntil(w.buffer + chunk, want).rest);
    }
  }

  lemma {:induction false} WaitRoom(env: Env, w: World, want: Option<byte>, deadline: int)
    requires env.Valid()
    ensures var (f, t) := Wait(env, w, want, deadline);
            && Room(t) <= Room(w) + (if f.Some? then READ_SIZE else 0)
            && (t.peak <= w.peak || t.peak <= Room(w) + READ_SIZE)
    decreases Left(env, w, deadline)
  {
    if Now(env, w) < deadline {
      TimeRunsOut(env, w, deadline);
      PollRoom(env, w, want);
      var (f, t) := Poll(env, w, want);
      hide Poll, Room;
      if f.None? {
        WaitRoom(env, t, want, deadline);
      }
    }
  }

  /** A wait that starts with a pending tail never holds more than that tail and one read. */
  lemma WaitPeak(env: Env, w: World, want: Option<byte>, deadline: int)
    requires env.Valid() && Pending(w.buffer)
    ensures Wait(env, w, want, deadline).1.peak <= w.peak
         || Wait(env, w, want, deadline).1.peak <= 258 + READ_SIZE
  {
    hide Wait;
    PendingIsShort(w.buffer);
    WaitRoom(env, w, want, deadline);
  }
}
