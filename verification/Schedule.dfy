// When the listener does what: time stamps, retry times and the exact course of a probe and of a session.

module Schedule {
  import opened Bytes
  import opened Framing
  import opened Codec
  import opened Telegrams
  import opened Link
  import opened Protocol
  import opened Commands
  import opened Listener

  // ---- Counting calls ------------------------------------------------------------------

  /** The calls that block. */
  predicate IsCall(e: Event) {
    e.Opened? || e.Closed? || e.Tx? || e.Sent?
  }

  function CallsIn(es: seq<Event>): nat {
    if es == [] then 0 else CallsIn(es[..|es| - 1]) + if IsCall(es[|es| - 1]) then 1 else 0
  }

  lemma {:induction false} CallsInAppend(a: seq<Event>, b: seq<Event>)
    ensures CallsIn(a + b) == CallsIn(a) + CallsIn(b)
  {
    if b == [] {
      assert a + b == a;
    } else {
      var n := |b| - 1;
      CallsInAppend(a, b[..n]);
      assert (a + b)[..|a + b| - 1] == a + b[..n] && (a + b)[|a + b| - 1] == b[n];
    }
  }

  lemma {:induction false} NoCalls(es: seq<Event>)
    requires forall i :: 0 <= i < |es| ==> !IsCall(es[i])
    ensures CallsIn(es) == 0
  {
    if es != [] {
      NoCalls(es[..|es| - 1]);
    }
  }

  /** The message sent as event number `i` bears the date and time of its own call. */
  ghost predicate StampedAt(env: Env, from: nat, es: seq<Event>, i: nat)
    requires i < |es|
  {
    Bears(es[i], env.stamp(from + CallsIn(es[..i])))
  }

  predicate Bears(e: Event, stamp: string) {
    e.Sent? ==> e.payload.timestamp == stamp
  }

  ghost predicate Stamped(env: Env, from: nat, es: seq<Event>) {
    forall i :: 0 <= i < |es| ==> StampedAt(env, from, es, i)
  }

  lemma CutLater(a: seq<Event>, b: seq<Event>, j: nat)
    requires j < |b|
    ensures (a + b)[|a| + j] == b[j] && (a + b)[..|a| + j] == a + b[..j]
    ensures j + 1 < |b| ==> (a + b)[|a| + j + 1] == b[j + 1]
  {
  }

  lemma CutEarlier(a: seq<Event>, b: seq<Event>, i: nat)
    requires i < |a|
    ensures (a + b)[i] == a[i] && (a + b)[..i] == a[..i]
  {
  }

  lemma StampedAppend(env: Env, from: nat, a: seq<Event>, b: seq<Event>)
    requires Stamped(env, from, a) && Stamped(env, from + CallsIn(a), b)
    ensures Stamped(env, from, a + b)
  {
    hide StampedAt, CallsIn;
    forall i | 0 <= i < |a + b| ensures StampedAt(env, from, a + b, i) {
      if i < |a| {
        StampedEarlier(env, from, a, b, i);
      } else {
        StampedLater(env, from, a, b, i - |a|);
      }
    }
  }

  lemma StampedEarlier(env: Env, from: nat, a: seq<Event>, b: seq<Event>, i: nat)
    requires i < |a| && StampedAt(env, from, a, i)
    ensures StampedAt(env, from, a + b, i)
  {
    hide CallsIn, Bears;
    CutEarlier(a, b, i);
  }

  lemma StampedLater(env: Env, from: nat, a: seq<Event>, b: seq<Event>, j: nat)
    requires j < |b| && StampedAt(env, from + CallsIn(a), b, j)
    ensures StampedAt(env, from, a + b, |a| + j)
  {
    hide CallsIn, Bears, StampedAt;
    CutLater(a, b, j);
    CallsInAppend(a, b[..j]);
    StampIs(env, from + CallsIn(a), b, j);
    StampedIf(env, from, a + b, |a| + j, b[j], CallsIn(a) + CallsIn(b[..j]));
  }

  lemma StampIs(env: Env, from: nat, es: seq<Event>, i: nat)
    requires i < |es| && StampedAt(env, from, es, i)
    ensures Bears(es[i], env.stamp(from + CallsIn(es[..i])))
  {
    hide CallsIn, Bears;
  }

  lemma StampedIf(env: Env, from: nat, es: seq<Event>, i: nat, e: Event, calls: nat)
    requires i < |es| && es[i] == e && CallsIn(es[..i]) == calls && Bears(e, env.stamp(from + calls))
    ensures StampedAt(env, from, es, i)
  {
    hide CallsIn, Bears;
  }

  /** The number of calls made is that on record, and the time stamps are true. */
  ghost predicate Counted(env: Env, s: World, t: World) {
    Follows(s, t) && t.calls == s.calls + CallsIn(Since(s, t)) && Stamped(env, s.calls, Since(s, t))
  }

  lemma CountedTrans(env: Env, s: World, t: World, u: World)
    requires Counted(env, s, t) && Counted(env, t, u)
    ensures Counted(env, s, u)
  {
    hide CallsIn, Stamped, Heard, BytesIn, Acts;
    Between(s, t, u);
    CallsInAppend(Since(s, t), Since(t, u));
    StampedAppend(env, s.calls, Since(s, t), Since(t, u));
  }

  lemma CountedQuiet(env: Env, s: World, t: World)
    requires Follows(s, t) && t.calls == s.calls
    requires forall i :: 0 <= i < |Since(s, t)| ==> !IsCall(Since(s, t)[i])
    ensures Counted(env, s, t)
  {
    NoCalls(Since(s, t));
  }

  lemma CountedCall(env: Env, w: World, e: Event)
    requires IsCall(e) && (e.Sent? ==> e.payload.timestamp == env.stamp(w.calls))
    ensures Counted(env, w, Call(env, w, e))
  {
    assert Since(w, Call(env, w, e)) == [e] && [e][..0] == [];
  }

  /** The buffer does not matter. */
  lemma CountedAnyway(env: Env, s: World, t: World, a: seq<byte>, b: seq<byte>)
    requires Counted(env, s, t)
    ensures Counted(env, s.(buffer := a), t.(buffer := b))
  {
    assert Since(s.(buffer := a), t.(buffer := b)) == Since(s, t);
  }

  lemma CountedWait(env: Env, w: World, want: Option<byte>, deadline: int)
    requires env.Valid()
    ensures Counted(env, w, Wait(env, w, want, deadline).1)
  {
    hide Wait, Causal, Decode, Heard, BytesIn, Searched, Filled;
    var n := WaitExactly(env, w, want, deadline);
    var t := Wait(env, w, want, deadline).1;
    forall i | 0 <= i < |Since(w, t)| ensures !IsCall(Since(w, t)[i]) {
      if IsCall(Since(w, t)[i]) {
        ActsKeep(Since(w, t), i);
      }
    }
    CountedQuiet(env, w, t);
  }

  lemma CountedProbe(env: Env, w: World)
    requires env.Valid()
    ensures Counted(env, w, Probe(env, w).1)
  {
    hide Wait, Counted;
    var w0 := w.(buffer := []);
    var w1 := Write(env, w0, RssiRequest());
    CountedCall(env, w0, Tx(RssiRequest()));
    CountedWait(env, w1, Some(RSSI_RESPONSE), Now(env, w1) + PROBE_MS);
    var (f, t) := Wait(env, w1, Some(RSSI_RESPONSE), Now(env, w1) + PROBE_MS);
    CountedTrans(env, w0, w1, t);
    CountedNote(env, t, Probed(Probe(env, w).0));
    var u := t.(trace := t.trace + [Probed(Probe(env, w).0)]);
    CountedTrans(env, w0, t, u);
    CountedAnyway(env, w0, u, w.buffer, u.buffer);
  }

  lemma CountedNote(env: Env, w: World, e: Event)
    requires !IsCall(e)
    ensures Counted(env, w, w.(trace := w.trace + [e]))
  {
    var t := w.(trace := w.trace + [e]);
    assert Since(w, t) == [e];
    CountedQuiet(env, w, t);
  }

  lemma CountedHandle(env: Env, w: World, f: Frame, rssiEnabled: bool, opts: Options)
    ensures Counted(env, w, Handle(env, w, f, rssiEnabled, opts))
  {
    hide Counted, Read;
    var w1 := w.(trace := w.trace + [Rx(f)]);
    CountedNote(env, w, Rx(f));
    var r := if f.command == DATA_INDICATION then Read(f.payload, rssiEnabled) else None;
    if r.Some? {
      var e := Sent(Published(r.value, opts.gatewayId, opts.topic, env.stamp(w1.calls)));
      CountedCall(env, w1, e);
      CountedTrans(env, w, w1, Call(env, w1, e));
    }
  }

  lemma {:induction false} CountedHandleAll(env: Env, w: World, rssiEnabled: bool, opts: Options)
    ensures Counted(env, w, HandleAll(env, w, rssiEnabled, opts))
    decreases |w.buffer|
  {
    hide Counted, Handle, Next;
    var (f, t) := Next(w.buffer);
    var w1 := w.(buffer := t);
    CountedSame(env, w);
    CountedAnyway(env, w, w, w.buffer, t);
    if f.Some? {
      HandleKeepsBuffer(env, w, rssiEnabled, opts);
      var w2 := Handle(env, w1, f.value, rssiEnabled, opts);
      CountedHandle(env, w1, f.value, rssiEnabled, opts);
      CountedHandleAll(env, w2, rssiEnabled, opts);
      CountedTrans(env, w, w1, w2);
      CountedTrans(env, w, w2, HandleAll(env, w2, rssiEnabled, opts));
    }
  }

  lemma CountedSame(env: Env, w: World)
    ensures Counted(env, w, w)
  {
    assert Since(w, w) == [];
  }

  lemma CountedRead(env: Env, w: World)
    ensures Counted(env, w, AfterRead(env, w, LISTEN_SIZE))
    ensures var r := env.read(w.polls, LISTEN_SIZE);
            r.Data? ==> Counted(env, w, Append(AfterRead(env, w, LISTEN_SIZE), r.bytes))
                        && Counted(env, w, Sleep(AfterRead(env, w, LISTEN_SIZE), IDLE_MS))
  {
    var t := AfterRead(env, w, LISTEN_SIZE);
    assert Since(w, t) == Arrival(env.read(w.polls, LISTEN_SIZE));
    CountedQuiet(env, w, t);
  }

  lemma CountedRound(env: Env, w: World, rssiEnabled: bool, opts: Options)
    ensures Counted(env, w, Round(env, w, rssiEnabled, opts).1)
  {
    hide Counted, HandleAll;
    var r := env.read(w.polls, LISTEN_SIZE);
    CountedRead(env, w);
    if r.Data? && r.bytes != [] {
      var w1 := Append(AfterRead(env, w, LISTEN_SIZE), r.bytes);
      CountedHandleAll(env, w1, rssiEnabled, opts);
      CountedTrans(env, w, w1, HandleAll(env, w1, rssiEnabled, opts));
    }
  }

  lemma {:induction false} CountedReceive(env: Env, w: World, rssiEnabled: bool, opts: Options, left: nat)
    ensures Counted(env, w, Receive(env, w, rssiEnabled, opts, left).0)
    decreases left
  {
    hide Counted, Round;
    CountedSame(env, w);
    if left > 0 {
      var (alive, t) := Round(env, w, rssiEnabled, opts);
      CountedRound(env, w, rssiEnabled, opts);
      if alive {
        CountedReceive(env, t, rssiEnabled, opts, left - 1);
        CountedTrans(env, w, t, Receive(env, t, rssiEnabled, opts, left - 1).0);
      }
    }
  }

  /** A session's record up to its close, and the time at which the close returns. */
  lemma ServeTiming(env: Env, w: World, opts: Options, left: nat) returns (before: seq<Event>, over: int)
    requires env.Valid()
    ensures var t := Serve(env, w, opts, left).0;
            && Counted(env, w, t) && Inside(before) && Since(w, t) == before + [Closed(over)]
            && Now(env, t) == over + env.busy(w.calls + CallsIn(before))
  {
    hide Receive, Probe, Counted, ProbeRecord, StreamRecord;
    var (enabled, p) := Probe(env, w);
    var p0 := p.(buffer := []);
    var u := Receive(env, p0, enabled, opts, left).0;
    var t := Serve(env, w, opts, left).0;
    CountedProbe(env, w);
    CountedReceive(env, p0, enabled, opts, left);
    CountedAnyway(env, w, p, w.buffer, []);
    CountedTrans(env, w, p0, u);
    CountedCall(env, u, Closed(Now(env, u)));
    CountedTrans(env, w, u, t);
    over := Now(env, u);
    before := SessionInside(env, w, u, t, opts, left);
  }

  lemma SessionInside(env: Env, w: World, u: World, t: World, opts: Options, left: nat) returns (before: seq<Event>)
    requires env.Valid() && t == Serve(env, w, opts, left).0 && t == Close(env, u)
    requires Counted(env, w, u)
    ensures Follows(w, t) && Inside(before) && Since(w, t) == before + [Closed(Now(env, u))]
    ensures Now(env, t) == Now(env, u) + env.busy(w.calls + CallsIn(before))
  {
    hide Serve, Probe, ProbeRecord, StreamRecord, CallsIn, Stamped;
    var p := Probe(env, w).1;
    var probe, stream, over := ServeRecord(env, w, opts, left);
    before := Since(w, u);
    assert Since(w, t) == before + [Closed(Now(env, u))];
    Between(w, p, t);
    SameBeforeLast(before, Closed(Now(env, u)), (probe + [Probed(Probe(env, w).0)]) + stream, Closed(over));
    PartsInside(probe, Probe(env, w).0, stream, opts);
  }

  lemma SameBeforeLast(a: seq<Event>, x: Event, b: seq<Event>, y: Event)
    ensures a + [x] == b + [y] ==> a == b
  {
    assert (a + [x])[..|a + [x]| - 1] == a && (b + [y])[..|b + [y]| - 1] == b;
  }

  lemma PartsInside(probe: seq<Event>, enabled: bool, stream: seq<Event>, opts: Options)
    requires ProbeRecord(probe, enabled) && StreamRecord(stream, enabled, opts)
    ensures Inside((probe + [Probed(enabled)]) + stream)
  {
    hide ProbeRecord, Timely, Heard, BytesIn, Deliveries, DueAll, Decode;
    ProbeEvents(probe, enabled);
  }

  /** Over every run each message published bears the time stamp of its own call. */
  lemma {:induction false} StampsAreTrue(env: Env, w: World, next: int, opts: Options, left: nat)
    requires env.Valid()
    ensures Counted(env, w, Listen(env, w, next, opts, left))
    decreases left
  {
    hide Listen, Serve, Now, Sleep, Counted;
    if left == 0 {
      ListenStops(env, w, next, opts);
      CountedSame(env, w);
    } else {
      var t := Listen(env, w, next, opts, left);
      ListenStep(env, w, next, opts, left);
      if Now(env, w) < next {
        StampsAreTrue(env, Sleep(w, OFFLINE_MS), next, opts, left - 1);
        CountedAfterSleep(env, w, t);
      } else {
        var (ok, w1) := Open(env, w);
        CountedOpen(env, w);
        if !ok {
          StampsAreTrue(env, w1, Now(env, w1) + RETRY_MS, opts, left - 1);
          CountedTrans(env, w, w1, t);
        } else {
          var (w2, l) := Serve(env, w1, opts, left - 1);
          var before, over := ServeTiming(env, w1, opts, left - 1);
          CountedTrans(env, w, w1, w2);
          if l > 0 {
            StampsAreTrue(env, w2, Now(env, w2) + RETRY_MS, opts, l - 1);
            CountedTrans(env, w, w2, t);
          }
        }
      }
    }
  }

  lemma CountedAfterSleep(env: Env, w: World, t: World)
    requires Counted(env, Sleep(w, OFFLINE_MS), t)
    ensures Counted(env, w, t)
  {
    assert Since(w, t) == Since(Sleep(w, OFFLINE_MS), t);
  }

  lemma CountedOpen(env: Env, w: World)
    ensures Counted(env, w, Open(env, w).1)
  {
    var e := Opened(Now(env, w), env.Opens(w.calls));
    CountedCall(env, w, e);
    CountedAnyway(env, w, Call(env, w, e), w.buffer, []);
  }

  // ---- Trying again in time ----------------------------------------------------------------

  /** After this the program has no port. */
  predicate LosesPort(e: Event) {
    e.Closed? || (e.Opened? && !e.how.Usable?)
  }

  /**
   * A call that ends at `e` loses the port: the next event is an attempt to open it, not before `e` + 30000
   * and before `e` + 30250 ms; if there is none, the run ends before that time.
   */
  predicate ThenOpens(e: int, after: Option<Event>, end: int) {
    match after
    case None => end < e + 30250
    case Some(o) => o.Opened? && e + 30000 <= o.at < e + 30250
  }

  function EventAt(es: seq<Event>, i: nat): Option<Event> {
    if i < |es| then Some(es[i]) else None
  }

  ghost predicate Resumes(env: Env, from: nat, es: seq<Event>, i: nat, end: int)
    requires i < |es| && LosesPort(es[i])
  {
    ThenOpens(es[i].at + env.busy(from + CallsIn(es[..i])), EventAt(es, i + 1), end)
  }

  ghost predicate OnSchedule(env: Env, from: nat, es: seq<Event>, end: int) {
    forall i :: 0 <= i < |es| && LosesPort(es[i]) ==> Resumes(env, from, es, i, end)
  }

  /** The first event comes when it is due, at `next` or at once, or else the run ends first. */
  ghost predicate StartsBy(es: seq<Event>, now: int, next: int, end: int) {
    if es == [] then end == now || end < next + 250
    else es[0].Opened? && es[0].at >= next && (es[0].at == now || es[0].at < next + 250)
  }

  /** One attempt with all that belongs to it, and then the rest of the run. */
  lemma ScheduleThen(env: Env, from: nat, a: seq<Event>, e: int, rest: seq<Event>, end: int)
    requires |a| > 0 && LosesPort(a[|a| - 1]) && forall i :: 0 <= i < |a| - 1 ==> !LosesPort(a[i])
    requires e == a[|a| - 1].at + env.busy(from + CallsIn(a[..|a| - 1]))
    requires StartsBy(rest, e, e + 30000, end) && OnSchedule(env, from + CallsIn(a), rest, end)
    ensures OnSchedule(env, from, a + rest, end)
  {
    hide CallsIn, Resumes;
    var es, n := a + rest, |a| - 1;
    assert forall i :: 0 <= i < |a| ==> es[i] == a[i];
    forall i | 0 <= i < |es| && LosesPort(es[i]) ensures Resumes(env, from, es, i, end) {
      if i == n {
        LastResumes(env, from, a, e, rest, end);
      } else {
        LaterResumes(env, from, a, rest, i - |a|, end);
      }
    }
  }

  lemma LastResumes(env: Env, from: nat, a: seq<Event>, e: int, rest: seq<Event>, end: int)
    requires |a| > 0 && LosesPort(a[|a| - 1])
    requires e == a[|a| - 1].at + env.busy(from + CallsIn(a[..|a| - 1]))
    requires StartsBy(rest, e, e + 30000, end)
    ensures (a + rest)[|a| - 1] == a[|a| - 1] && Resumes(env, from, a + rest, |a| - 1, end)
  {
    hide CallsIn;
    CutEarlier(a, rest, |a| - 1);
    if rest != [] {
      CutLater(a, rest, 0);
    }
  }

  lemma LaterResumes(env: Env, from: nat, a: seq<Event>, rest: seq<Event>, j: nat, end: int)
    requires j < |rest| && (a + rest)[|a| + j] == rest[j] && LosesPort(rest[j])
    requires OnSchedule(env, from + CallsIn(a), rest, end)
    ensures Resumes(env, from, a + rest, |a| + j, end)
  {
    hide CallsIn, ThenOpens, OnSchedule, LosesPort, Resumes;
    CutLater(a, rest, j);
    CallsInAppend(a, rest[..j]);
    SameNext(a, rest, j);
    ResumesAt(env, from + CallsIn(a), rest, j, end);
    ResumesIf(env, from, a + rest, |a| + j, rest[j], CallsIn(a) + CallsIn(rest[..j]), EventAt(rest, j + 1), end);
  }

  lemma SameNext(a: seq<Event>, rest: seq<Event>, j: nat)
    requires j < |rest|
    ensures EventAt(a + rest, |a| + j + 1) == EventAt(rest, j + 1)
  {
  }

  lemma ResumesIf(env: Env, from: nat, es: seq<Event>, i: nat, e: Event, calls: nat, after: Option<Event>, end: int)
    requires i < |es| && es[i] == e && LosesPort(e) && CallsIn(es[..i]) == calls && EventAt(es, i + 1) == after
    requires ThenOpens(e.at + env.busy(from + calls), after, end)
    ensures Resumes(env, from, es, i, end)
  {
    hide CallsIn, ThenOpens;
  }

  lemma ResumesAt(env: Env, from: nat, es: seq<Event>, i: nat, end: int)
    requires OnSchedule(env, from, es, end) && i < |es| && LosesPort(es[i])
    ensures ThenOpens(es[i].at + env.busy(from + CallsIn(es[..i])), EventAt(es, i + 1), end)
  {
    hide CallsIn, ThenOpens;
    assert Resumes(env, from, es, i, end);
  }

  /**
   * Over every run, on the record and the clock: whenever an open is refused or the port is closed, the
   * next attempt starts between 30000 and 30250 ms after that call has returned, or the program
   * has been stopped before.
   */
  lemma {:induction false} RetriesOnTime(env: Env, w: World, next: int, opts: Options, left: nat)
    requires env.Valid()
    ensures var t := Listen(env, w, next, opts, left);
            && Follows(w, t) && OnSchedule(env, w.calls, Since(w, t), Now(env, t))
            && StartsBy(Since(w, t), Now(env, w), next, Now(env, t))
    decreases left
  {
    hide Listen, Serve, Open, Now, Sleep, Follows, OnSchedule, StartsBy, CallsIn, Counted;
    var t := Listen(env, w, next, opts, left);
    if left == 0 {
      ListenStops(env, w, next, opts);
      NothingScheduled(env, w, next);
    } else {
      ListenStep(env, w, next, opts, left);
      if Now(env, w) < next {
        RetriesOnTime(env, Sleep(w, OFFLINE_MS), next, opts, left - 1);
        SleptOnTime(env, w, next, t);
      } else {
        var (ok, w1) := Open(env, w);
        OpenMeaning(env, w);
        if !ok {
          RetriesOnTime(env, w1, Now(env, w1) + RETRY_MS, opts, left - 1);
          RefusedOnTime(env, w, t);
          OpensAtOnce(Since(w, t), Now(env, w), next, Now(env, t));
        } else {
          var (w2, l) := Serve(env, w1, opts, left - 1);
          NothingScheduled(env, w2, Now(env, w2) + RETRY_MS);
          if l > 0 {
            RetriesOnTime(env, w2, Now(env, w2) + RETRY_MS, opts, l - 1);
          }
          ServedOnTime(env, w, opts, left - 1, t);
          OpensAtOnce(Since(w, t), Now(env, w), next, Now(env, t));
        }
      }
    }
  }

  lemma SleptOnTime(env: Env, w: World, next: int, t: World)
    requires Now(env, w) < next
    requires var v := Sleep(w, OFFLINE_MS);
             && Follows(v, t) && OnSchedule(env, v.calls, Since(v, t), Now(env, t))
             && StartsBy(Since(v, t), Now(env, v), next, Now(env, t))
    ensures Follows(w, t) && OnSchedule(env, w.calls, Since(w, t), Now(env, t))
    ensures StartsBy(Since(w, t), Now(env, w), next, Now(env, t))
  {
    hide OnSchedule;
    SleepRecordsNothing(w, t);
  }

  lemma OpensAtOnce(es: seq<Event>, now: int, next: int, end: int)
    requires es != [] && es[0].Opened? && es[0].at == now >= next
    ensures StartsBy(es, now, next, end)
  {
  }

  lemma NothingScheduled(env: Env, w: World, next: int)
    ensures Follows(w, w) && OnSchedule(env, w.calls, Since(w, w), Now(env, w))
    ensures StartsBy(Since(w, w), Now(env, w), next, Now(env, w))
  {
    assert Since(w, w) == [];
  }

  lemma RefusedOnTime(env: Env, w: World, t: World)
    requires var w1 := Open(env, w).1;
             && !env.Opens(w.calls).Usable? && Follows(w1, t)
             && OnSchedule(env, w1.calls, Since(w1, t), Now(env, t))
             && StartsBy(Since(w1, t), Now(env, w1), Now(env, w1) + 30000, Now(env, t))
    ensures Follows(w, t) && OnSchedule(env, w.calls, Since(w, t), Now(env, t))
    ensures Since(w, t) != [] && Since(w, t)[0] == Opened(Now(env, w), env.Opens(w.calls))
  {
    hide OnSchedule, Heard, BytesIn, Acts;
    var w1, o := Open(env, w).1, Opened(Now(env, w), env.Opens(w.calls));
    OpenMeaning(env, w);
    Between(w, w1, t);
    assert [o][..0] == [];
    ScheduleThen(env, w.calls, [o], Now(env, w1), Since(w1, t), Now(env, t));
  }

  lemma ServedOnTime(env: Env, w: World, opts: Options, left: nat, t: World)
    requires env.Valid() && env.Opens(w.calls).Usable?
    requires var w2 := Serve(env, Open(env, w).1, opts, left).0;
             && Follows(w2, t) && OnSchedule(env, w2.calls, Since(w2, t), Now(env, t))
             && StartsBy(Since(w2, t), Now(env, w2), Now(env, w2) + 30000, Now(env, t))
    ensures Follows(w, t) && OnSchedule(env, w.calls, Since(w, t), Now(env, t))
    ensures Since(w, t) != [] && Since(w, t)[0] == Opened(Now(env, w), Usable)
  {
    hide Serve, OnSchedule, Heard, BytesIn, Acts, CallsIn, Stamped;
    var w1, o := Open(env, w).1, Opened(Now(env, w), Usable);
    var w2 := Serve(env, w1, opts, left).0;
    OpenMeaning(env, w);
    CountedOpen(env, w);
    var before, over := ServeTiming(env, w1, opts, left);
    Between(w, w1, w2);
    Between(w, w2, t);
    var a := [o] + (before + [Closed(over)]);
    assert Since(w, w2) == a;
    assert a[..|a| - 1] == [o] + before;
    CallsInAppend([o], before);
    CallsInAppend([o] + before, [Closed(over)]);
    OneOpen(o);
    assert a == ([o] + before) + [Closed(over)];
    OneClose(over);
    CallsInAppend([o], before + [Closed(over)]);
    ScheduleThen(env, w.calls, a, Now(env, w2), Since(w2, t), Now(env, t));
  }

  lemma OneOpen(o: Event)
    requires o.Opened?
    ensures CallsIn([o]) == 1
  {
    assert [o][..0] == [];
  }

  lemma OneClose(over: int)
    ensures CallsIn([Closed(over)]) == 1
  {
    assert [Closed(over)][..0] == [];
  }

  // ---- The probe and the session told without their loops --------------------------------

  lemma RequestBytes()
    ensures RssiRequest() == [0xFF, 0x0A, 0x02, 0x45, 0x01, 0xB3]
  {
    hide Encode, Xor;
    XorOfFew(0x45, 0x01, 0);
    ShortFrame(0x0A, [0x45, 0x01], 2);
  }

  /**
   * The probe asks with an empty buffer, waits up to 1500 ms for 0x8A, no longer and, unless it is
   * answered, no shorter, and then logs its verdict.
   */
  lemma ProbeExactly(env: Env, w: World) returns (u: World, n: nat, f: Option<Frame>, v: World)
    requires env.Valid()
    ensures Asked(env, w.(buffer := []), [0xFF, 0x0A, 0x02, 0x45, 0x01, 0xB3], 0x8A, 1500, u, n, f, v)
    ensures f.None? ==> Now(env, v) >= Now(env, u) + 1500
    ensures var (enabled, t) := Probe(env, w);
            && (enabled <==> f.Some? && |f.value.payload| >= 3 && f.value.payload[2] == 1)
            && t == v.(trace := v.trace + [Probed(enabled)])
  {
    hide Wait, Encode, WaitedFor, Searched, Filled;
    RequestBytes();
    u := Write(env, w.(buffer := []), RssiRequest());
    n := AskedExactly(env, w.(buffer := []), RssiRequest(), 0x8A, 1500);
    f, v := Wait(env, u, Some(0x8A), Now(env, u) + 1500).0, Wait(env, u, Some(0x8A), Now(env, u) + 1500).1;
  }

  /** What `n` calls from number `from` on take. */
  function Busies(env: Env, from: nat, n: nat): nat
    decreases n
  {
    if n == 0 then 0 else env.busy(from) + Busies(env, from + 1, n - 1)
  }

  lemma {:induction false} BusiesAppend(env: Env, from: nat, n: nat, m: nat)
    ensures Busies(env, from, n + m) == Busies(env, from, n) + Busies(env, from + n, m)
    decreases n
  {
    if n > 0 {
      BusiesAppend(env, from + 1, n - 1, m);
    }
  }

  /** From `s` to `t` time passed in calls only. */
  ghost predicate OnlyBusy(env: Env, s: World, t: World) {
    && t.polls == s.polls && t.calls >= s.calls
    && t.waited == s.waited + Busies(env, s.calls, t.calls - s.calls)
  }

  lemma OnlyBusyTrans(env: Env, s: World, t: World, u: World)
    requires OnlyBusy(env, s, t) && OnlyBusy(env, t, u)
    ensures OnlyBusy(env, s, u)
  {
    BusiesAppend(env, s.calls, t.calls - s.calls, u.calls - t.calls);
  }

  lemma HandleBusy(env: Env, w: World, f: Frame, rssiEnabled: bool, opts: Options)
    ensures OnlyBusy(env, w, Handle(env, w, f, rssiEnabled, opts))
  {
    hide Read;
    assert Busies(env, w.calls, 1) == env.busy(w.calls) + Busies(env, w.calls + 1, 0);
  }

  lemma {:induction false} HandleAllBusy(env: Env, w: World, rssiEnabled: bool, opts: Options)
    ensures OnlyBusy(env, w, HandleAll(env, w, rssiEnabled, opts))
    decreases |w.buffer|
  {
    hide Handle, Next;
    var (f, t) := Next(w.buffer);
    if f.Some? {
      var w2 := Handle(env, w.(buffer := t), f.value, rssiEnabled, opts);
      HandleKeepsBuffer(env, w, rssiEnabled, opts);
      HandleBusy(env, w.(buffer := t), f.value, rssiEnabled, opts);
      HandleAllBusy(env, w2, rssiEnabled, opts);
      hide OnlyBusy, HandleAll;
      assert OnlyBusy(env, w, w2) by {
        SameBusy(env, w, t, w2);
      }
      OnlyBusyTrans(env, w, w2, HandleAll(env, w2, rssiEnabled, opts));
      HandleAllStep(env, w, rssiEnabled, opts);
    }
  }

  lemma SameBusy(env: Env, w: World, b: seq<byte>, t: World)
    requires OnlyBusy(env, w.(buffer := b), t)
    ensures OnlyBusy(env, w, t)
  {
  }

  lemma HandleAllStep(env: Env, w: World, rssiEnabled: bool, opts: Options)
    requires Next(w.buffer).0.Some?
    ensures var (f, t) := Next(w.buffer);
            HandleAll(env, w, rssiEnabled, opts)
            == HandleAll(env, Handle(env, w.(buffer := t), f.value, rssiEnabled, opts), rssiEnabled, opts)
  {
    hide Handle, Next;
  }

  /** One round: a read of 4096 bytes, and a sleep of 25 ms if it works but brings nothing. */
  ghost predicate Rounded(env: Env, w: World, alive: bool, t: World) {
    var chunk := ReadAt(env, w.polls, 4096);
    && Follows(w, t) && Got(w, t) == chunk && t.polls == w.polls + 1 && t.calls >= w.calls
    && (alive <==> env.read(w.polls, 4096).Data?)
    && t.waited == w.waited + (if alive && chunk == [] then 25 else 0) + Busies(env, w.calls, t.calls - w.calls)
    && t.peak >= w.peak && (chunk != [] ==> t.peak >= |w.buffer| + |chunk|)
    && t.buffer == Tail(w.buffer, chunk)
  }

  lemma RoundExactly(env: Env, w: World, rssiEnabled: bool, opts: Options)
    requires Pending(w.buffer)
    ensures var (alive, t) := Round(env, w, rssiEnabled, opts); Rounded(env, w, alive, t) && Pending(t.buffer)
  {
    var (alive, t) := Round(env, w, rssiEnabled, opts);
    var chunk := ReadAt(env, w.polls, 4096);
    if chunk == [] {
      assert Since(w, t) == [];
    } else {
      hide HandleAll, Rounded, Pending;
      RoundWithBytes(env, w, rssiEnabled, opts);
    }
  }

  lemma RoundWithBytes(env: Env, w: World, rssiEnabled: bool, opts: Options)
    requires ReadAt(env, w.polls, 4096) != []
    ensures var t := HandleAll(env, Append(AfterRead(env, w, 4096), ReadAt(env, w.polls, 4096)), rssiEnabled, opts);
            Rounded(env, w, true, t) && Pending(t.buffer)
  {
    hide HandleAll, Decode, Timely, Pending, Heard, BytesIn, Acts, Busies;
    var chunk := ReadAt(env, w.polls, 4096);
    var w1 := Append(AfterRead(env, w, 4096), chunk);
    HandleAllMeaning(env, w1, rssiEnabled, opts);
    HandleAllBusy(env, w1, rssiEnabled, opts);
    GotChunk(w, w1, HandleAll(env, w1, rssiEnabled, opts), chunk);
    RestWaits(w1.buffer);
  }

  lemma GotChunk(w: World, w1: World, t: World, chunk: seq<byte>)
    requires w1.trace == w.trace + [In(chunk)] && Follows(w1, t) && Got(w1, t) == []
    ensures Follows(w, t) && Got(w, t) == chunk
  {
    assert Since(w, w1) == [In(chunk)];
    RecordsOfIn(chunk);
    Between(w, w1, t);
  }

  lemma RestWaits(s: seq<byte>)
    ensures Pending(Decode(s).rest)
  {
  }

  lemma TailLater(buffer: seq<byte>, chunk: seq<byte>, more: seq<byte>)
    requires Pending(buffer)
    ensures Tail(buffer, chunk + more) == Tail(Tail(buffer, chunk), more)
  {
    if chunk == [] {
      assert chunk + more == more;
    } else if more == [] {
      assert chunk + more == chunk;
    } else {
      hide Decode;
      Associates(buffer, chunk, more);
      DecodeAppend(buffer + chunk, more);
    }
  }

  /**
   * A session of `n` reads from `w` to `t`, the last of which failed if `failed`: bytes, sleeps, calls and peak.
   */
  ghost predicate Received(env: Env, w: World, n: nat, failed: bool, t: World) {
    && Follows(w, t) && Got(w, t) == Reads(env, w.polls, n, 4096) && t.polls == w.polls + n && t.calls >= w.calls
    && (failed ==> n > 0)
    && (forall k: nat :: w.polls <= k < w.polls + n ==>
          (env.read(k, 4096).Failed? <==> failed && k == w.polls + n - 1))
    && t.waited == w.waited + 25 * (Empties(env, w.polls, n, 4096) - (if failed then 1 else 0))
                   + Busies(env, w.calls, t.calls - w.calls)
    && t.peak >= w.peak
    && forall m: nat :: m < n && ReadAt(env, w.polls + m, 4096) != [] ==>
         t.peak >= |Tail(w.buffer, Reads(env, w.polls, m, 4096))| + |ReadAt(env, w.polls + m, 4096)|
  }

  lemma ReceivedNothing(env: Env, w: World)
    ensures Received(env, w, 0, false, w)
  {
    assert Since(w, w) == [];
  }

  lemma ReceivedOnce(env: Env, w: World, t: World, alive: bool)
    requires Rounded(env, w, alive, t)
    ensures Received(env, w, 1, !alive, t)
  {
    hide BytesIn, Decode;
    OneMoreRead(env, w.polls, 1);
    assert Reads(env, w.polls + 1, 0, 4096) == [] && Empties(env, w.polls + 1, 0, 4096) == 0;
    assert ReadAt(env, w.polls, 4096) + [] == ReadAt(env, w.polls, 4096);
    assert Tail(w.buffer, Reads(env, w.polls, 0, 4096)) == w.buffer;
  }

  lemma OneMoreRead(env: Env, from: nat, n: nat)
    requires n > 0
    ensures Reads(env, from, n, 4096) == ReadAt(env, from, 4096) + Reads(env, from + 1, n - 1, 4096)
    ensures Empties(env, from, n, 4096)
         == (if ReadAt(env, from, 4096) == [] then 1 else 0) + Empties(env, from + 1, n - 1, 4096)
  {
  }

  lemma ReceivedMore(env: Env, w: World, t: World, n: nat, failed: bool, u: World)
    requires Received(env, w, 1, false, t) && Received(env, t, n, failed, u)
    requires Pending(w.buffer) && t.buffer == Tail(w.buffer, ReadAt(env, w.polls, 4096))
    ensures Received(env, w, n + 1, failed, u)
  {
    hide Decode, Heard, BytesIn, Acts, Tail, Pending;
    Between(w, t, u);
    OneMoreRead(env, w.polls, 1);
    OneMoreRead(env, w.polls, n + 1);
    assert Reads(env, w.polls + 1, 0, 4096) == [] && Empties(env, w.polls + 1, 0, 4096) == 0;
    assert ReadAt(env, w.polls, 4096) + [] == ReadAt(env, w.polls, 4096);
    BusiesAppend(env, w.calls, t.calls - w.calls, u.calls - t.calls);
    forall m: nat | m < n + 1 && ReadAt(env, w.polls + m, 4096) != []
      ensures u.peak >= |Tail(w.buffer, Reads(env, w.polls, m, 4096))| + |ReadAt(env, w.polls + m, 4096)|
    {
      PeakCovers(env, w, t, n, failed, u, m);
    }
  }

  lemma PeakCovers(env: Env, w: World, t: World, n: nat, failed: bool, u: World, m: nat)
    requires Received(env, w, 1, false, t) && Received(env, t, n, failed, u)
    requires Pending(w.buffer) && t.buffer == Tail(w.buffer, ReadAt(env, w.polls, 4096))
    requires m < n + 1 && ReadAt(env, w.polls + m, 4096) != []
    ensures u.peak >= |Tail(w.buffer, Reads(env, w.polls, m, 4096))| + |ReadAt(env, w.polls + m, 4096)|
  {
    hide Decode, BytesIn, Tail, Pending;
    if m == 0 {
      assert ReadAt(env, w.polls + 0, 4096) != [];
    } else {
      OneMoreRead(env, w.polls, m);
      TailLater(w.buffer, ReadAt(env, w.polls, 4096), Reads(env, w.polls + 1, m - 1, 4096));
      assert ReadAt(env, t.polls + (m - 1), 4096) == ReadAt(env, w.polls + m, 4096);
    }
  }

  /**
   * A session is this and nothing else: 4096 bytes a read until one fails or the stop signal comes, 25 ms of
   * sleep for each read that brings nothing, and besides only the time of the calls that publish.
   */
  lemma {:induction false} ReceiveExactly(env: Env, w: World, rssiEnabled: bool, opts: Options, left: nat)
    returns (failed: bool)
    requires Pending(w.buffer)
    ensures var (t, l) := Receive(env, w, rssiEnabled, opts, left);
            Received(env, w, left - l, failed, t) && (!failed ==> l == 0)
    decreases left
  {
    hide Round, Pending, Tail, Received;
    failed := false;
    if left == 0 {
      ReceivedNothing(env, w);
    } else {
      var (alive, t) := Round(env, w, rssiEnabled, opts);
      RoundExactly(env, w, rssiEnabled, opts);
      ReceivedOnce(env, w, t, alive);
      failed := !alive;
      if alive {
        failed := ReceiveExactly(env, t, rssiEnabled, opts, left - 1);
        var (u, l) := Receive(env, t, rssiEnabled, opts, left - 1);
        ReceivedMore(env, w, t, left - 1 - l, failed, u);
      }
    }
  }

  // ---- The whole run told without its functions --------------------------------------------

  /** A session: open, the request written, the answer awaited, the stream received, closed. */
  datatype Contact = Contact(ready: World, sent: World, n: nat, answer: Option<Frame>, asked: World, start: World,
                             rounds: nat, failed: bool, end: World, over: World)

  /** The verdict is that of the third payload byte of the answer. */
  predicate Enables(answer: Option<Frame>) {
    answer.Some? && |answer.value.payload| >= 3 && answer.value.payload[2] == 1
  }

  /** All of a session from `w` on: the probe with a buffer of its own, the stream with another, and the close. */
  ghost predicate Served(env: Env, opts: Options, w: World, c: Contact) {
    && OpenedPort(env, w, c.ready) && env.Opens(w.calls).Usable?
    && Asked(env, c.ready, [0xFF, 0x0A, 0x02, 0x45, 0x01, 0xB3], 0x8A, 1500, c.sent, c.n, c.answer, c.asked)
    && c.start == c.asked.(buffer := [], trace := c.asked.trace + [Probed(Enables(c.answer))])
    && Received(env, c.start, c.rounds, c.failed, c.end)
    && StreamRecord(Since(c.start, c.end), Enables(c.answer), opts)
    && ClosedPort(env, c.end, c.over)
  }

  datatype Move = Idling(to: World) | Refusal(to: World) | Visiting(contact: Contact)

  /**
   * A run of these moves from `w` to `t` with `left` checks of the running flag: before the retry time 250 ms
   * of sleep; after it an attempt to open and, if it works, a session, each followed by a new retry
   * time 30000 ms later.
   */
  ghost predicate RunOf(env: Env, opts: Options, w: World, next: int, left: nat, moves: seq<Move>, t: World)
    decreases |moves|
  {
    if moves == [] then left == 0 && t == w
    else
      && left > 0
      && match moves[0]
         case Idling(to) =>
           && Now(env, w) < next && to == w.(waited := w.waited + 250)
           && RunOf(env, opts, to, next, left - 1, moves[1..], t)
         case Refusal(to) =>
           && Now(env, w) >= next && OpenedPort(env, w, to) && !env.Opens(w.calls).Usable?
           && RunOf(env, opts, to, Now(env, to) + 30000, left - 1, moves[1..], t)
         case Visiting(c) =>
           && Now(env, w) >= next && Served(env, opts, w, c) && c.rounds <= left - 1
           && (!c.failed ==> c.rounds == left - 1)
           && (if c.rounds == left - 1 then |moves| == 1 && t == c.over
               else RunOf(env, opts, c.over, Now(env, c.over) + 30000, left - 2 - c.rounds, moves[1..], t))
  }

  lemma ServedExactly(env: Env, w: World, opts: Options, left: nat) returns (c: Contact)
    requires env.Valid() && env.Opens(w.calls).Usable?
    ensures var (t, l) := Serve(env, Open(env, w).1, opts, left);
            && Served(env, opts, w, c) && c.over == t && c.rounds <= left && l == left - c.rounds
            && (!c.failed ==> l == 0)
  {
    hide Probe, Receive, Asked, Received, StreamRecord, Decode;
    var w1 := Open(env, w).1;
    var (enabled, p) := Probe(env, w1);
    var p0 := p.(buffer := []);
    var u, n, f, v := ProbeExactly(env, w1);
    var failed := ReceiveExactly(env, p0, enabled, opts, left);
    var (e, l) := Receive(env, p0, enabled, opts, left);
    ReceiveRecord(env, p0, enabled, opts, left);
    assert w1.(buffer := []) == w1;
    c := Contact(w1, u, n, f, v, p0, left - l, failed, e, Close(env, e));
  }

  /** Every run of the listener is such a run of moves. */
  lemma {:induction false} RunExactly(env: Env, w: World, next: int, opts: Options, left: nat) returns (moves: seq<Move>)
    requires env.Valid()
    ensures RunOf(env, opts, w, next, left, moves, Listen(env, w, next, opts, left))
    decreases left
  {
    hide Listen, Serve, Served, RunOf, Now;
    var t := Listen(env, w, next, opts, left);
    moves := [];
    if left == 0 {
      ListenStops(env, w, next, opts);
      NoMoves(env, opts, w, next);
    } else {
      ListenStep(env, w, next, opts, left);
      if Now(env, w) < next {
        var more := RunExactly(env, Sleep(w, OFFLINE_MS), next, opts, left - 1);
        moves := [Idling(Sleep(w, OFFLINE_MS))] + more;
        IdleMove(env, opts, w, next, left, more, t);
      } else {
        var (ok, w1) := Open(env, w);
        if !ok {
          var more := RunExactly(env, w1, Now(env, w1) + RETRY_MS, opts, left - 1);
          moves := [Refusal(w1)] + more;
          RefusalMove(env, opts, w, next, left, more, t);
        } else {
          var (w2, l) := Serve(env, w1, opts, left - 1);
          var c := ServedExactly(env, w, opts, left - 1);
          var more := [];
          if l > 0 {
            more := RunExactly(env, w2, Now(env, w2) + RETRY_MS, opts, l - 1);
          }
          moves := [Visiting(c)] + more;
          VisitMove(env, opts, w, next, left, c, more, t);
        }
      }
    }
  }

  lemma NoMoves(env: Env, opts: Options, w: World, next: int)
    ensures RunOf(env, opts, w, next, 0, [], w)
  {
  }

  lemma IdleMove(env: Env, opts: Options, w: World, next: int, left: nat, more: seq<Move>, t: World)
    requires left > 0 && Now(env, w) < next && RunOf(env, opts, Sleep(w, OFFLINE_MS), next, left - 1, more, t)
    ensures RunOf(env, opts, w, next, left, [Idling(Sleep(w, OFFLINE_MS))] + more, t)
  {
    var moves := [Idling(Sleep(w, OFFLINE_MS))] + more;
    assert moves[1..] == more;
  }

  lemma RefusalMove(env: Env, opts: Options, w: World, next: int, left: nat, more: seq<Move>, t: World)
    requires left > 0 && Now(env, w) >= next && !env.Opens(w.calls).Usable?
    requires var w1 := Open(env, w).1; RunOf(env, opts, w1, Now(env, w1) + 30000, left - 1, more, t)
    ensures RunOf(env, opts, w, next, left, [Refusal(Open(env, w).1)] + more, t)
  {
    var moves := [Refusal(Open(env, w).1)] + more;
    assert moves[1..] == more;
  }

  lemma VisitMove(env: Env, opts: Options, w: World, next: int, left: nat, c: Contact, more: seq<Move>, t: World)
    requires left > 0 && Now(env, w) >= next && Served(env, opts, w, c) && c.rounds <= left - 1
    requires !c.failed ==> c.rounds == left - 1
    requires if c.rounds == left - 1 then more == [] && t == c.over
             else RunOf(env, opts, c.over, Now(env, c.over) + 30000, left - 2 - c.rounds, more, t)
    ensures RunOf(env, opts, w, next, left, [Visiting(c)] + more, t)
  {
    hide Served;
    var moves := [Visiting(c)] + more;
    assert moves[1..] == more;
  }
}
