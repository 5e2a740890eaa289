// The connection to the message broker: a machine whose steps a disconnect callback may separate
// anywhere, what every run of it keeps, and the client object that follows it.

module Mqtt {
  import opened Bytes
  import opened Telegrams

  const RECONNECT_MS: nat := 30000

  /** What the main thread does next. */
  datatype Place =
    | Idle
    | Deciding                  // in ensure_connected, before anything was looked at
    | Looked(at: int)           // not connected; the clock was read
    | Dialing                   // the retry time had passed
    | Dialed(ok: bool)          // the connect call has returned
    | Noted(ok: bool, at: int)  // the clock was read for the next retry time
    | Scheduled(ok: bool)       // the next retry time is set
    | Admitted                  // ensure_connected returns true
    | PublishFailed
    | Dropped                   // marked as disconnected
    | DropNoted(at: int)        // the clock was read for the retry time after the failure

  /** `job` is the message of the `send` in progress, None during `start`; `now` is the latest time looked at. */
  datatype Client = Client(handle: bool, connected: bool, next: int, now: int, place: Place, job: Option<ServerPayload>)

  datatype Step =
    | Begin(payload: ServerPayload)
    | BeginStart
    | Unavailable
    | Admit
    | Look(at: int)
    | Refuse
    | MayConnect(at: int) // the time looked at is not before the retry time
    | Connect(at: int, ok: bool)
    | Note(at: int)       // read the clock ...
    | Store               // ... and store the retry time, 30 seconds later
    | Up
    | GiveUp
    | EndStart
    | Publish(at: int, payload: ServerPayload, ok: bool)
    | Drop
    | Callback(at: int)

  function Initial(handle: bool, now: int): Client {
    Client(handle, false, 0, now, Idle, None)
  }

  predicate Timed(s: Step) {
    s.Look? || s.Connect? || s.Note? || s.Publish? || s.Callback?
  }

  /** The client after a step, or None if the step cannot happen there. */
  function Do(c: Client, s: Step): Option<Client> {
    if Timed(s) && s.at < c.now then None
    else
      match (c.place, s)
      case (Idle, Begin(p)) => Some(c.(place := Deciding, job := Some(p)))
      case (Idle, BeginStart) => Some(c.(place := Deciding, job := None))
      case (Deciding, Unavailable) => if c.handle then None else Some(c.(place := Idle))
      case (Deciding, Admit) => if c.handle && c.connected then Some(c.(place := Admitted)) else None
      case (Deciding, Look(t)) =>
        if c.handle && !c.connected then Some(c.(place := Looked(t), now := t)) else None
      case (Looked(t), Refuse) => if t < c.next then Some(c.(place := Idle)) else None
      case (Looked(t), MayConnect(at)) => if t == at >= c.next then Some(c.(place := Dialing)) else None
      case (Dialing, Connect(t, ok)) => Some(c.(place := Dialed(ok), now := t))
      case (Dialed(ok), Note(t)) => Some(c.(place := Noted(ok, t), now := t))
      case (Noted(ok, t), Store) => Some(c.(place := Scheduled(ok), next := t + RECONNECT_MS))
      case (Scheduled(true), Up) => Some(c.(place := Admitted, connected := true))
      case (Scheduled(false), GiveUp) => Some(c.(place := Idle))
      case (Admitted, EndStart) => if c.job.None? then Some(c.(place := Idle)) else None
      case (Admitted, Publish(t, p, ok)) =>
        if c.job == Some(p) then Some(c.(place := if ok then Idle else PublishFailed, now := t)) else None
      case (PublishFailed, Drop) => Some(c.(place := Dropped, connected := false))
      case (Dropped, Note(t)) => Some(c.(place := DropNoted(t), now := t))
      case (DropNoted(t), Store) => Some(c.(place := Idle, next := t + RECONNECT_MS))
      case (_, Callback(t)) => Some(c.(connected := false, next := t + RECONNECT_MS, now := t))
      case _ => None
  }

  /** The client after a run; None if the run is impossible. */
  function Run(c: Client, steps: seq<Step>): Option<Client> {
    if steps == [] then Some(c)
    else
      var before := Run(c, steps[..|steps| - 1]);
      if before.None? then None else Do(before.value, steps[|steps| - 1])
  }

  lemma LastStep(c: Client, steps: seq<Step>)
    requires steps != [] && Run(c, steps).Some?
    ensures Run(c, steps[..|steps| - 1]).Some?
    ensures Do(Run(c, steps[..|steps| - 1]).value, steps[|steps| - 1]) == Run(c, steps)
  {
    hide Do;
  }

  /** The first step, and then the others. */
  lemma {:induction false} Forward(c: Client, s: Step, rest: seq<Step>)
    ensures Run(c, [s] + rest) == if Do(c, s).None? then None else Run(Do(c, s).value, rest)
  {
    hide Do;
    RunAppend(c, [s], rest);
    assert [s][..0] == [];
  }

  lemma {:induction false} RunAppend(c: Client, a: seq<Step>, b: seq<Step>)
    ensures Run(c, a + b) == if Run(c, a).None? then None else Run(Run(c, a).value, b)
  {
    hide Do;
    if b == [] {
      assert a + b == a;
    } else {
      RunAppend(c, a, b[..|b| - 1]);
      assert (a + b)[..|a + b| - 1] == a + b[..|b| - 1];
    }
  }

  /** The client `d` in which step number `i` is taken; the rest of the run goes on from there. */
  lemma AfterStep(c: Client, steps: seq<Step>, i: nat) returns (d: Client)
    requires Run(c, steps).Some? && i < |steps|
    ensures Run(c, steps[..i]) == Some(d) && Do(d, steps[i]).Some?
    ensures Run(Do(d, steps[i]).value, steps[i + 1..]).Some?
  {
    hide Run, Do;
    assert steps == steps[..i] + ([steps[i]] + steps[i + 1..]);
    RunAppend(c, steps[..i], [steps[i]] + steps[i + 1..]);
    d := Run(c, steps[..i]).value;
    Forward(d, steps[i], steps[i + 1..]);
  }

  /** The time looked at is past. */
  predicate InOrderOfTime(c: Client) {
    c.place.Looked? ==> c.place.at <= c.now
  }

  // ---- Connect attempts are spaced ---------------------------------------------------

  /** What is known of a connect attempt at time `a` once the client is `c`. */
  predicate AfterConnect(c: Client, a: int) {
    && a <= c.now && InOrderOfTime(c)
    && (c.place.Noted? || c.place.DropNoted? ==> c.place.at >= a)
    && (c.place.Dialing? ==> c.now >= a + RECONNECT_MS)
    && (!c.place.Dialing? && !c.place.Dialed? && !c.place.Noted? ==> c.next >= a + RECONNECT_MS)
  }

  lemma AfterConnectStays(c: Client, s: Step, a: int)
    requires Do(c, s).Some? && AfterConnect(c, a)
    ensures AfterConnect(Do(c, s).value, a)
    ensures s.Connect? ==> s.at >= a + RECONNECT_MS
  {
  }

  lemma ConnectLeaves(c: Client, s: Step)
    requires Do(c, s).Some? && s.Connect?
    ensures AfterConnect(Do(c, s).value, s.at)
  {
  }

  ghost predicate NoConnectBefore(steps: seq<Step>, t: int) {
    forall j :: 0 <= j < |steps| && steps[j].Connect? ==> steps[j].at >= t
  }

  lemma {:induction false} SpacedForGood(c: Client, steps: seq<Step>, a: int)
    requires AfterConnect(c, a) && Run(c, steps).Some?
    ensures AfterConnect(Run(c, steps).value, a) && NoConnectBefore(steps, a + 30000)
  {
    if steps != [] {
      hide Run, Do, AfterConnect, NoConnectBefore;
      var n := |steps| - 1;
      LastStep(c, steps);
      SpacedForGood(c, steps[..n], a);
      AfterConnectStays(Run(c, steps[..n]).value, steps[n], a);
      ConnectSnoc(steps[..n], steps[n], a + 30000);
      assert steps == steps[..n] + [steps[n]];
    }
  }

  lemma ConnectSnoc(steps: seq<Step>, s: Step, t: int)
    requires NoConnectBefore(steps, t) && (s.Connect? ==> s.at >= t)
    ensures NoConnectBefore(steps + [s], t)
  {
  }

  /** In every run, wherever disconnect callbacks fall, connect attempts are at least 30 seconds apart. */
  lemma ConnectSpacing(c: Client, steps: seq<Step>, i: nat)
    requires Run(c, steps).Some? && i < |steps| && steps[i].Connect?
    ensures NoConnectBefore(steps[i + 1..], steps[i].at + 30000)
  {
    hide Run, Do, AfterConnect;
    var d := AfterStep(c, steps, i);
    ConnectLeaves(d, steps[i]);
    SpacedForGood(Do(d, steps[i]).value, steps[i + 1..], steps[i].at);
  }

  // ---- Silence after a failed publish ---------------------------------------------------

  /** What is known of a failed publish at time `a` once the client is `c`. */
  predicate AfterFailure(c: Client, a: int) {
    && a <= c.now && InOrderOfTime(c)
    && (c.place.Idle? || c.place.Deciding? ==>
          c.now >= a + RECONNECT_MS || (!c.connected && c.next >= a + RECONNECT_MS))
    && (c.place.Looked? ==> !c.connected && (c.place.at >= a + RECONNECT_MS || c.next >= a + RECONNECT_MS))
    && (c.place.Dialing? || c.place.Dialed? || c.place.Noted? || c.place.Scheduled? || c.place.Admitted? ==>
          c.now >= a + RECONNECT_MS)
    && (c.place.Dropped? || c.place.DropNoted? ==> !c.connected)
    && (c.place.DropNoted? ==> c.place.at >= a)
  }

  lemma AfterFailureStays(c: Client, s: Step, a: int)
    requires Do(c, s).Some? && AfterFailure(c, a)
    ensures AfterFailure(Do(c, s).value, a)
    ensures s.Connect? || s.Publish? ==> s.at >= a + RECONNECT_MS
  {
  }

  lemma FailureLeaves(c: Client, s: Step)
    requires Do(c, s).Some? && s.Publish? && !s.ok
    ensures AfterFailure(Do(c, s).value, s.at)
  {
  }

  ghost predicate SilentBefore(steps: seq<Step>, t: int) {
    forall j :: 0 <= j < |steps| && (steps[j].Connect? || steps[j].Publish?) ==> steps[j].at >= t
  }

  lemma {:induction false} SilentForGood(c: Client, steps: seq<Step>, a: int)
    requires AfterFailure(c, a) && Run(c, steps).Some?
    ensures AfterFailure(Run(c, steps).value, a) && SilentBefore(steps, a + 30000)
  {
    if steps != [] {
      hide Run, Do, AfterFailure, SilentBefore;
      var n := |steps| - 1;
      LastStep(c, steps);
      SilentForGood(c, steps[..n], a);
      AfterFailureStays(Run(c, steps[..n]).value, steps[n], a);
      SilentSnoc(steps[..n], steps[n], a + 30000);
      assert steps == steps[..n] + [steps[n]];
    }
  }

  lemma SilentSnoc(steps: seq<Step>, s: Step, t: int)
    requires SilentBefore(steps, t) && (s.Connect? || s.Publish? ==> s.at >= t)
    ensures SilentBefore(steps + [s], t)
  {
  }

  /** In every run nothing is published and no connect is tried for 30 seconds after a failed publish. */
  lemma FailureSilence(c: Client, steps: seq<Step>, i: nat)
    requires Run(c, steps).Some? && i < |steps| && steps[i].Publish? && !steps[i].ok
    ensures SilentBefore(steps[i + 1..], steps[i].at + 30000)
  {
    hide Run, Do, AfterFailure;
    var d := AfterStep(c, steps, i);
    FailureLeaves(d, steps[i]);
    SilentForGood(Do(d, steps[i]).value, steps[i + 1..], steps[i].at);
  }

  // ---- Silence after a disconnect -----------------------------------------------------------

  /**
   * A callback at time `b` is overtaken when the main thread is about to store a retry time that it
   * noted before, and will not be connected afterwards.
   */
  predicate Overtaken(c: Client, b: int) {
    || (c.place.Noted? && !c.place.ok && c.place.at < b)
    || (c.place.DropNoted? && c.place.at < b)
  }

  /** What is known of a callback at time `a` that was not overtaken, once the client is `c`. */
  predicate Hushed(c: Client, a: int) {
    && a <= c.now
    && (c.place.Idle? || c.place.Deciding? || c.place.Admitted? ==> c.connected || c.next >= a + RECONNECT_MS)
    && (c.place.Looked? ==> c.next >= a + RECONNECT_MS)
    && (c.place.Noted? ==> c.place.ok || c.place.at >= a)
    && (c.place.Scheduled? ==> c.place.ok || c.next >= a + RECONNECT_MS)
    && (c.place.DropNoted? ==> c.place.at >= a)
  }

  lemma HushedStays(c: Client, s: Step, a: int)
    requires Do(c, s).Some? && Hushed(c, a)
    ensures Hushed(Do(c, s).value, a)
    ensures s.MayConnect? ==> s.at >= a + RECONNECT_MS
  {
  }

  lemma HushedAtOnce(c: Client, b: int)
    requires Do(c, Callback(b)).Some? && !Overtaken(c, b)
    ensures Hushed(Do(c, Callback(b)).value, b)
  {
  }

  ghost predicate NoneDecidedBefore(steps: seq<Step>, t: int) {
    forall j :: 0 <= j < |steps| && steps[j].MayConnect? ==> steps[j].at >= t
  }

  lemma {:induction false} HushedForGood(c: Client, steps: seq<Step>, a: int)
    requires Hushed(c, a) && Run(c, steps).Some?
    ensures Hushed(Run(c, steps).value, a) && NoneDecidedBefore(steps, a + 30000)
  {
    if steps != [] {
      hide Run, Do, Hushed, NoneDecidedBefore;
      var n := |steps| - 1;
      LastStep(c, steps);
      HushedForGood(c, steps[..n], a);
      HushedStays(Run(c, steps[..n]).value, steps[n], a);
      DecidedSnoc(steps[..n], steps[n], a + 30000);
      assert steps == steps[..n] + [steps[n]];
    }
  }

  lemma DecidedSnoc(steps: seq<Step>, s: Step, t: int)
    requires NoneDecidedBefore(steps, t) && (s.MayConnect? ==> s.at >= t)
    ensures NoneDecidedBefore(steps + [s], t)
  {
  }

  /** In every run no connect is decided on for 30 seconds after a disconnect callback that is not overtaken. */
  lemma CallbackSilence(c: Client, steps: seq<Step>, i: nat)
    requires Run(c, steps).Some? && i < |steps| && steps[i].Callback?
    ensures Run(c, steps[..i]).Some?
    ensures !Overtaken(Run(c, steps[..i]).value, steps[i].at) ==> NoneDecidedBefore(steps[i + 1..], steps[i].at + 30000)
  {
    hide Run, Do, Hushed, Overtaken;
    var d := AfterStep(c, steps, i);
    if !Overtaken(d, steps[i].at) {
      HushedAtOnce(d, steps[i].at);
      HushedForGood(Do(d, steps[i]).value, steps[i + 1..], steps[i].at);
    }
  }

  /** The silence after a callback is kept whatever comes exactly when the callback is not overtaken. */
  lemma CallbackSilenceExactly(c: Client, b: int)
    requires c.handle && Do(c, Callback(b)).Some?
    ensures var d := Do(c, Callback(b)).value;
            (forall more: seq<Step> :: Run(d, more).Some? ==> NoneDecidedBefore(more, b + 30000))
            <==> !Overtaken(c, b)
  {
    var d := Do(c, Callback(b)).value;
    if Overtaken(c, b) {
      var more := ConnectsTooSoon(c, b, ServerPayload("", "", None, "", ""));
    } else {
      hide Do, Run, Overtaken;
      HushedAtOnce(c, b);
      forall more: seq<Step> | Run(d, more).Some? ensures NoneDecidedBefore(more, b + 30000) {
        HushedForGood(d, more, b);
      }
    }
  }

  /** After an overtaken callback the next message can bring a connect as soon as the noted retry time comes. */
  lemma ConnectsTooSoon(c: Client, b: int, p: ServerPayload) returns (more: seq<Step>)
    requires c.handle && Do(c, Callback(b)).Some? && Overtaken(c, b)
    ensures Run(Do(c, Callback(b)).value, more).Some? && !NoneDecidedBefore(more, b + 30000)
  {
    hide Run;
    var d, next := Do(c, Callback(b)).value, c.place.at + RECONNECT_MS;
    var u := if next > b then next else b;
    var idle := d.(place := Idle, next := next);
    var again := [Begin(p)] + ([Look(u)] + ([MayConnect(u)] + []));
    DecidesAt(idle, u, p);
    assert again[2] == MayConnect(u);
    if c.place.Noted? {
      more := [Store] + ([GiveUp] + again);
      assert more[4] == again[2];
      Forward(d, Store, [GiveUp] + again);
      Forward(d.(place := Scheduled(false), next := next), GiveUp, again);
    } else {
      more := [Store] + again;
      assert more[3] == again[2];
      Forward(d, Store, again);
    }
  }

  lemma DecidesAt(c: Client, u: int, p: ServerPayload)
    requires c.place.Idle? && c.handle && !c.connected && u >= c.next && u >= c.now
    ensures Run(c, [Begin(p)] + ([Look(u)] + ([MayConnect(u)] + []))).Some?
  {
    hide Run;
    var c1 := c.(place := Deciding, job := Some(p));
    var c2 := c1.(place := Looked(u), now := u);
    Forward(c, Begin(p), [Look(u)] + ([MayConnect(u)] + []));
    Forward(c1, Look(u), [MayConnect(u)] + []);
    Forward(c2, MayConnect(u), []);
    NoSteps(c2.(place := Dialing));
  }

  /** The latest callback since a connect was last decided on. */
  function CallbackSinceDecision(steps: seq<Step>): Option<int> {
    if steps == [] then None
    else
      var s := steps[|steps| - 1];
      if s.MayConnect? then None
      else if s.Callback? then Some(s.at)
      else CallbackSinceDecision(steps[..|steps| - 1])
  }

  lemma {:induction false} DialingIsDue(c: Client, steps: seq<Step>)
    requires c.place.Idle? && Run(c, steps).Some?
    ensures DialingDue(Run(c, steps).value, CallbackSinceDecision(steps))
  {
    if steps != [] {
      hide Run, Do;
      LastStep(c, steps);
      DialingIsDue(c, steps[..|steps| - 1]);
      DueStep(Run(c, steps[..|steps| - 1]).value, steps[|steps| - 1], CallbackSinceDecision(steps[..|steps| - 1]));
    }
  }

  /** While a connect is due, the retry time is past or that of the latest callback `b`. */
  predicate DialingDue(c: Client, b: Option<int>) {
    && InOrderOfTime(c)
    && (c.place.Dialing? ==> if b.None? then c.next <= c.now else c.next == b.value + RECONNECT_MS)
  }

  lemma DueStep(c: Client, s: Step, b: Option<int>)
    requires Do(c, s).Some? && DialingDue(c, b)
    ensures DialingDue(Do(c, s).value, if s.MayConnect? then None else if s.Callback? then Some(s.at) else b)
  {
  }

  /** A connect happens before its retry time exactly when a callback within the last 30 seconds came after the decision. */
  lemma ConnectsEarly(c: Client, steps: seq<Step>, j: nat)
    requires c.place.Idle? && Run(c, steps).Some? && j < |steps| && steps[j].Connect?
    ensures Run(c, steps[..j]).Some?
    ensures var b := CallbackSinceDecision(steps[..j]);
            steps[j].at < Run(c, steps[..j]).value.next <==> b.Some? && steps[j].at < b.value + 30000
  {
    PrefixRuns(c, steps, j);
    PrefixRuns(c, steps, j + 1);
    assert steps[..j + 1][..j] == steps[..j];
    DialingIsDue(c, steps[..j]);
  }

  // ---- Messages are published in order and at most once ----------------------------------

  function Offered(steps: seq<Step>): seq<ServerPayload> {
    if steps == [] then []
    else
      Offered(steps[..|steps| - 1])
      + if steps[|steps| - 1].Begin? then [steps[|steps| - 1].payload] else []
  }

  function Tried(steps: seq<Step>): seq<ServerPayload> {
    if steps == [] then []
    else
      Tried(steps[..|steps| - 1])
      + if steps[|steps| - 1].Publish? then [steps[|steps| - 1].payload] else []
  }

  /** The messages whose flag is set. */
  function Kept(ps: seq<ServerPayload>, flags: seq<bool>): seq<ServerPayload>
    requires |flags| == |ps|
  {
    if ps == [] then []
    else Kept(ps[..|ps| - 1], flags[..|ps| - 1]) + if flags[|ps| - 1] then [ps[|ps| - 1]] else []
  }

  lemma KeptSnoc(ps: seq<ServerPayload>, flags: seq<bool>, p: ServerPayload, flag: bool)
    requires |flags| == |ps|
    ensures Kept(ps + [p], flags + [flag]) == if flag then Kept(ps, flags) + [p] else Kept(ps, flags)
  {
    assert (ps + [p])[..|ps|] == ps && (flags + [flag])[..|ps|] == flags;
  }

  /** `a` is what remains of `b` when some elements are left out. */
  predicate Subsequence<T(==)>(a: seq<T>, b: seq<T>) {
    if a == [] then true
    else if b == [] then false
    else if a[|a| - 1] == b[|b| - 1] && Subsequence(a[..|a| - 1], b[..|b| - 1]) then true
    else Subsequence(a, b[..|b| - 1])
  }

  lemma SubsequenceOfMore<T>(a: seq<T>, b: seq<T>, x: T)
    requires Subsequence(a, b)
    ensures Subsequence(a, b + [x])
    ensures Subsequence(a + [x], b + [x])
  {
    assert (b + [x])[..|b|] == b && (a + [x])[..|a|] == a;
  }

  /** A message is being sent and has not been published yet. */
  predicate Waiting(c: Client) {
    c.job.Some? && (c.place.Deciding? || c.place.Looked? || c.place.Dialing? || c.place.Dialed? || c.place.Noted?
                       || c.place.Scheduled? || c.place.Admitted?)
  }

  /** In every run the messages handed to publish are a subsequence, in order, of those offered. */
  lemma {:induction false} PublishedInOrder(c: Client, steps: seq<Step>)
    requires c.place.Idle? && Run(c, steps).Some?
    ensures Subsequence(Tried(steps), Offered(steps))
    ensures InOrder(Run(c, steps).value, Tried(steps), Offered(steps))
  {
    if steps != [] {
      var n := |steps| - 1;
      PublishedInOrder(c, steps[..n]);
      OneOfferMore(steps[..n], steps[n]);
      assert steps == steps[..n] + [steps[n]];
      var before := Run(c, steps[..n]).value;
      WaitingStep(before, steps[n]);
      hide Run, Do, Waiting, Offered, Tried, Subsequence;
      OrderStep(before, Tried(steps[..n]), Offered(steps[..n]), steps[n], Run(c, steps).value);
    }
  }

  /** Where the message in progress comes from and where it goes. */
  lemma WaitingStep(c: Client, s: Step)
    requires Do(c, s).Some?
    ensures var d := Do(c, s).value;
            && (s.Begin? ==> Waiting(d) && d.job == Some(s.payload))
            && (s.Publish? ==> Waiting(c) && c.job == Some(s.payload) && !Waiting(d))
            && (!s.Begin? && !s.Publish? && Waiting(d) ==> Waiting(c) && d.job == c.job)
  {
  }

  lemma OneOfferMore(steps: seq<Step>, s: Step)
    ensures Offered(steps + [s]) == if s.Begin? then Offered(steps) + [s.payload] else Offered(steps)
    ensures Tried(steps + [s]) == if s.Publish? then Tried(steps) + [s.payload] else Tried(steps)
  {
    assert (steps + [s])[..|steps|] == steps;
  }

  /** `tried` is a subsequence of `offered`, without the last offer while that is in progress. */
  ghost predicate InOrder(c: Client, tried: seq<ServerPayload>, offered: seq<ServerPayload>) {
    && Subsequence(tried, offered)
    && (Waiting(c) ==> |offered| > 0 && offered[|offered| - 1] == c.job.value
                       && Subsequence(tried, offered[..|offered| - 1]))
  }

  lemma OrderStep(c: Client, tried: seq<ServerPayload>, offered: seq<ServerPayload>, s: Step, d: Client)
    requires InOrder(c, tried, offered)
    requires s.Begin? ==> Waiting(d) && d.job == Some(s.payload)
    requires s.Publish? ==> Waiting(c) && c.job == Some(s.payload) && !Waiting(d)
    requires !s.Begin? && !s.Publish? && Waiting(d) ==> Waiting(c) && d.job == c.job
    ensures InOrder(d, if s.Publish? then tried + [s.payload] else tried,
                    if s.Begin? then offered + [s.payload] else offered)
  {
    hide Waiting, Subsequence;
    if s.Begin? {
      SubsequenceOfMore(tried, offered, s.payload);
      assert (offered + [s.payload])[..|offered|] == offered;
    } else if s.Publish? {
      var m := |offered| - 1;
      SubsequenceOfMore(tried, offered[..m], s.payload);
      assert offered[..m] + [s.payload] == offered;
    }
  }

  // ---- Publishing while connected ----------------------------------------------------------

  /** Whether a callback has come since the connection was last found or set up. */
  function CallbackSinceAdmission(steps: seq<Step>): bool {
    if steps == [] then false
    else
      var s := steps[|steps| - 1];
      if s.Admit? || s.Up? then false
      else s.Callback? || CallbackSinceAdmission(steps[..|steps| - 1])
  }

  lemma {:induction false} AdmittedIsConnected(c: Client, steps: seq<Step>)
    requires c.place.Idle? && Run(c, steps).Some? && Run(c, steps).value.place.Admitted?
    ensures Run(c, steps).value.connected <==> !CallbackSinceAdmission(steps)
  {
    var n := |steps| - 1;
    var d := Run(c, steps[..n]).value;
    if d.place.Admitted? {
      AdmittedIsConnected(c, steps[..n]);
    }
  }

  /**
   * A message is published while the client counts as connected exactly when no callback has
   * fallen between the check and the publish.
   */
  lemma PublishedWhileConnected(c: Client, steps: seq<Step>, j: nat)
    requires c.place.Idle? && Run(c, steps).Some? && j < |steps| && steps[j].Publish?
    ensures Run(c, steps[..j]).Some?
         && (Run(c, steps[..j]).value.connected <==> !CallbackSinceAdmission(steps[..j]))
  {
    PrefixRuns(c, steps, j);
    PrefixRuns(c, steps, j + 1);
    assert steps[..j + 1][..j] == steps[..j];
    AdmittedIsConnected(c, steps[..j]);
  }

  lemma {:induction false} PrefixRuns(c: Client, steps: seq<Step>, j: nat)
    requires Run(c, steps).Some? && j <= |steps|
    ensures Run(c, steps[..j]).Some?
  {
    if j < |steps| {
      PrefixRuns(c, steps[..|steps| - 1], j);
      assert steps[..|steps| - 1][..j] == steps[..j];
    } else {
      assert steps[..j] == steps;
    }
  }

  lemma OneMore(c: Client, steps: seq<Step>, s: Step)
    ensures Run(c, steps + [s]) == if Run(c, steps).None? then None else Do(Run(c, steps).value, s)
    ensures CallbackSinceAdmission(steps + [s])
            <==> (s.Callback? || (!s.Admit? && !s.Up? && CallbackSinceAdmission(steps)))
  {
    assert (steps + [s])[..|steps|] == steps;
  }

  /** Step number `j` publishes although the client has been marked as disconnected. */
  ghost predicate PublishesWhileDown(c: Client, steps: seq<Step>, j: nat) {
    && Run(c, steps).Some? && j < |steps| && steps[j].Publish?
    && Run(c, steps[..j]).Some? && !Run(c, steps[..j]).value.connected
  }

  function LateLoss(p: ServerPayload): (more: seq<Step>) {
    [Begin(p)] + ([Look(1)] + ([MayConnect(1)] + ([Connect(1, true)] + ([Note(2)] + ([Store] + ([Up] + ([Callback(3)] + [])))))))
  }

  /** Such a callback is possible: here a message goes out after the connection was marked as lost. */
  lemma PublishedWhileDown(p: ServerPayload)
    ensures PublishesWhileDown(Initial(true, 0), LateLoss(p) + [Publish(4, p, true)], 8)
  {
    var d := Client(true, false, 30003, 3, Admitted, Some(p));
    LateLossRuns(p);
    assert |LateLoss(p)| == 8;
    OneMore(Initial(true, 0), LateLoss(p), Publish(4, p, true));
    assert (LateLoss(p) + [Publish(4, p, true)])[..8] == LateLoss(p);
  }

  lemma LateLossRuns(p: ServerPayload)
    ensures Run(Initial(true, 0), LateLoss(p)) == Some(Client(true, false, 30003, 3, Admitted, Some(p)))
  {
    hide Run;
    var c0 := Initial(true, 0);
    var c1 := c0.(place := Deciding, job := Some(p));
    var c2 := c1.(place := Looked(1), now := 1);
    var c3 := c2.(place := Dialing);
    var c4 := c3.(place := Dialed(true));
    var s4 := [Note(2)] + ([Store] + ([Up] + ([Callback(3)] + [])));
    LossRuns(c4);
    Forward(c3, Connect(1, true), s4);
    Forward(c2, MayConnect(1), [Connect(1, true)] + s4);
    Forward(c1, Look(1), [MayConnect(1)] + ([Connect(1, true)] + s4));
    Forward(c0, Begin(p), [Look(1)] + ([MayConnect(1)] + ([Connect(1, true)] + s4)));
  }

  lemma LossRuns(c: Client)
    requires c.place == Dialed(true) && c.now <= 2
    ensures Run(c, [Note(2)] + ([Store] + ([Up] + ([Callback(3)] + []))))
         == Some(c.(connected := false, next := 30003, now := 3, place := Admitted))
  {
    hide Run;
    var c1 := c.(place := Noted(true, 2), now := 2);
    var c2 := c1.(place := Scheduled(true), next := 30002);
    var c3 := c2.(place := Admitted, connected := true);
    Forward(c, Note(2), [Store] + ([Up] + ([Callback(3)] + [])));
    Forward(c1, Store, [Up] + ([Callback(3)] + []));
    Forward(c2, Up, [Callback(3)] + []);
    Forward(c3, Callback(3), []);
    NoSteps(Do(c3, Callback(3)).value);
  }

  lemma NoSteps(c: Client)
    ensures Run(c, []) == Some(c)
  {
  }

  // ---- The client object ----------------------------------------------------------------------

  /**
   * The k-th look at the clock shows `clock(k)`; before the k-th step of the main thread
   * `callbacks(k)` disconnect callbacks run; the k-th library call succeeds if `succeeds(k)`.
   */
  datatype Broker = Broker(clock: nat -> int, callbacks: nat -> nat, succeeds: nat -> bool)
  {
    ghost predicate Steady() {
      forall i: nat, j: nat :: i <= j ==> clock(i) <= clock(j)
    }
  }

  /** What the library answered, call by call: whether a connect worked, whether a publish did. */
  function Answers(steps: seq<Step>): seq<bool> {
    if steps == [] then []
    else
      var s := steps[|steps| - 1];
      Answers(steps[..|steps| - 1]) + if s.Connect? || s.Publish? then [s.ok] else []
  }

  lemma AnswersSnoc(steps: seq<Step>, s: Step)
    ensures Answers(steps + [s]) == Answers(steps) + if s.Connect? || s.Publish? then [s.ok] else []
  {
    assert (steps + [s])[..|steps|] == steps;
  }

  lemma StepKeeps(c: Client, s: Step)
    requires Do(c, s).Some?
    ensures var d := Do(c, s).value;
            d.handle == c.handle && d.now == if Timed(s) then s.at else c.now
  {
  }

  class MqttClient {
    const broker: Broker
    const handle: bool
    var connected: bool
    var nextReconnect: int
    var looks: nat
    var points: nat
    var libraryCalls: nat
    ghost var steps: seq<Step>
    ghost var place: Place
    ghost var job: Option<ServerPayload>
    ghost var now: int
    ghost var admitted: seq<bool>

    /** The object is where the machine is after the recorded steps. */
    ghost predicate Valid()
      reads this
    {
      && broker.Steady() && now <= broker.clock(looks)
      && Run(Initial(handle, broker.clock(0)), steps)
         == Some(Client(handle, connected, nextReconnect, now, place, job))
      && Truthful(Answers(steps))
    }

    /** These are the answers that the library gave, no more and no fewer. */
    ghost predicate Truthful(answers: seq<bool>)
      reads this
    {
      |answers| == libraryCalls && forall k :: 0 <= k < libraryCalls ==> answers[k] == broker.succeeds(k)
    }

    /** The retry time is 30 seconds after a look at the clock that was taken in between. */
    twostate predicate Rescheduled()
      reads this
    {
      exists k :: old(looks) <= k < looks && nextReconnect == broker.clock(k) + 30000
    }

    /** No callback comes at the next `n` points. */
    ghost predicate Still(n: nat)
      reads this
    {
      forall k :: points <= k < points + n ==> broker.callbacks(k) == 0
    }

    /** Nothing was offered or published in between. */
    twostate predicate SameMessages()
      reads this
    {
      && old(steps) <= steps && Offered(steps) == old(Offered(steps)) && Tried(steps) == old(Tried(steps))
      && admitted == old(admitted)
    }

    /** The messages handed to publish are those offered for which the client was admitted. */
    ghost predicate Sorted()
      reads this
    {
      |admitted| == |Offered(steps)| && Tried(steps) == Kept(Offered(steps), admitted)
    }

    constructor (broker: Broker, handle: bool)
      requires broker.Steady()
      ensures Valid() && steps == [] && admitted == [] && place == Idle && this.broker == broker && this.handle == handle
    {
      this.broker, this.handle := broker, handle;
      connected, nextReconnect := false, 0;
      looks, points, libraryCalls := 0, 0, 0;
      steps, place, job, now, admitted := [], Idle, None, broker.clock(0), [];
    }

    method NowMs() returns (t: int)
      requires Valid()
      modifies this`looks
      ensures Valid() && now <= t && t == broker.clock(old(looks)) && looks == old(looks) + 1
    {
      t := broker.clock(looks);
      looks := looks + 1;
    }

    /** Records a step that the fields have just taken. */
    ghost method Record(s: Step, before: Client)
      requires broker.Steady()
      requires Run(Initial(handle, broker.clock(0)), steps) == Some(before)
      requires Do(before, s).Some?
      requires before.handle == handle
      requires var c := Do(before, s).value; c.connected == connected && c.next == nextReconnect
      requires before.now <= broker.clock(looks)
      requires Timed(s) ==> looks > 0 && s.at == broker.clock(looks - 1)
      requires Truthful(Answers(steps) + if s.Connect? || s.Publish? then [s.ok] else [])
      modifies this`steps, this`place, this`job, this`now
      ensures Valid() && steps == old(steps) + [s]
      ensures var c := Do(before, s).value; place == c.place && job == c.job && now == c.now
      ensures Offered(steps) == if s.Begin? then old(Offered(steps)) + [s.payload] else old(Offered(steps))
      ensures Tried(steps) == if s.Publish? then old(Tried(steps)) + [s.payload] else old(Tried(steps))
    {
      OneOfferMore(steps, s);
      AnswersSnoc(steps, s);
      OneMore(Initial(handle, broker.clock(0)), steps, s);
      StepKeeps(before, s);
      hide Run, Do, Offered, Tried, Answers;
      var c := Do(before, s).value;
      steps := steps + [s];
      place, job, now := c.place, c.job, c.now;
    }

    ghost function Self(): Client
      reads this
    {
      Client(handle, connected, nextReconnect, now, place, job)
    }

    /** mark_disconnected, as the callback runs it. */
    method OnDisconnect()
      requires Valid()
      modifies this
      ensures Valid() && place == old(place) && job == old(job)
      ensures points == old(points) && libraryCalls == old(libraryCalls)
      ensures !connected && looks == old(looks) + 1 && nextReconnect == broker.clock(old(looks)) + 30000
      ensures SameMessages()
    {
      hide Run, Offered, Tried, Answers;
      ghost var before := Self();
      connected := false;
      var t := broker.clock(looks);
      looks := looks + 1;
      nextReconnect := t + RECONNECT_MS;
      assert broker.clock(looks - 1) <= broker.clock(looks);
      Record(Callback(t), before);
    }

    /** The callbacks that run at the current point. */
    function Coming(): nat
      reads this
    {
      broker.callbacks(points)
    }

    /** All callbacks of this point run here; the last one leaves its retry time. */
    method Preempt()
      requires Valid()
      modifies this
      ensures Valid() && place == old(place) && job == old(job)
      ensures points == old(points) + 1 && libraryCalls == old(libraryCalls) && looks == old(looks) + old(Coming())
      ensures connected <==> old(connected) && old(Coming()) == 0
      ensures nextReconnect == if old(Coming()) == 0 then old(nextReconnect) else broker.clock(looks - 1) + 30000
      ensures SameMessages()
    {
      hide Run, Offered, Tried, Answers;
      var n := broker.callbacks(points);
      points := points + 1;
      var i := 0;
      while i < n
        invariant i <= n && Valid() && place == old(place) && job == old(job)
        invariant points == old(points) + 1 && libraryCalls == old(libraryCalls) && looks == old(looks) + i
        invariant connected <==> old(connected) && i == 0
        invariant nextReconnect == if i == 0 then old(nextReconnect) else broker.clock(looks - 1) + 30000
        invariant SameMessages()
      {
        OnDisconnect();
        i := i + 1;
      }
    }

    method CallLibrary() returns (ok: bool)
      requires Truthful(Answers(steps))
      modifies this`libraryCalls
      ensures ok == broker.succeeds(old(libraryCalls)) && libraryCalls == old(libraryCalls) + 1
      ensures Truthful(Answers(steps) + [ok])
    {
      ok := broker.succeeds(libraryCalls);
      libraryCalls := libraryCalls + 1;
    }

    /**
     * Whether ensure_connected will try to connect: there is a handle, the client is not connected or a
     * callback comes first, and the retry time has passed. The retry time is 30 seconds after the last
     * callback, if any comes before the clock is read; if one comes between that and the comparison, it
     * is too early again.
     */
    ghost predicate Dials()
      reads this
    {
      var first := broker.callbacks(points);
      var due := looks + first + broker.callbacks(points + 1);
      && handle && !(connected && first == 0) && broker.callbacks(points + 2) == 0
      && broker.clock(due) >= (if due == looks then nextReconnect else broker.clock(due - 1) + 30000)
    }

    /** Whether it will say yes: the client stays connected, or it tries to connect and the broker answers. */
    ghost predicate Admits()
      reads this
    {
      handle && ((connected && broker.callbacks(points) == 0) || (Dials() && broker.succeeds(libraryCalls)))
    }

    method EnsureConnected() returns (ok: bool)
      requires Valid() && place == Deciding
      modifies this
      ensures Valid() && job == old(job)
      ensures place == if ok then Admitted else Idle
      ensures ok <==> old(Admits())
      ensures handle ==> (connected <==> ok)
      ensures libraryCalls == old(libraryCalls) + if old(Dials()) then 1 else 0
      ensures if old(Dials()) then Rescheduled() else old(Still(3)) ==> nextReconnect == old(nextReconnect)
      ensures old(looks) <= looks && old(points) <= points <= old(points) + 7
      ensures SameMessages()
    {
      hide Run, Offered, Tried, Answers;
      Preempt();
      if !handle {
        Record(Unavailable, Self());
        return false;
      }
      if connected {
        Record(Admit, Self());
        return true;
      }
      ok := TryAgain();
    }

    /** The retry time has come when the clock is read, and no callback moves it before the comparison. */
    ghost predicate Due()
      reads this
    {
      var due := looks + broker.callbacks(points);
      && broker.callbacks(points + 1) == 0
      && broker.clock(due) >= (if due == looks then nextReconnect else broker.clock(due - 1) + 30000)
    }

    method TryAgain() returns (ok: bool)
      requires Valid() && place == Deciding && handle && !connected
      modifies this
      ensures Valid() && job == old(job)
      ensures place == if ok then Admitted else Idle
      ensures ok <==> old(Due()) && broker.succeeds(old(libraryCalls))
      ensures connected <==> ok
      ensures libraryCalls == old(libraryCalls) + if old(Due()) then 1 else 0
      ensures if old(Due()) then Rescheduled() else old(Still(2)) ==> nextReconnect == old(nextReconnect)
      ensures old(looks) <= looks && old(points) <= points <= old(points) + 6
      ensures SameMessages()
    {
      hide Run, Do, Offered, Tried, Answers;
      var t := LookAtClock();
      ok := false;
      var due := CompareTime(t);
      if due {
        ok := Dial();
      }
    }

    method LookAtClock() returns (t: int)
      requires Valid() && place == Deciding && handle && !connected
      modifies this
      ensures Valid() && job == old(job) && place == Looked(t)
      ensures points == old(points) + 1 && libraryCalls == old(libraryCalls)
      ensures looks == old(looks) + old(Coming()) + 1 && t == broker.clock(looks - 1)
      ensures nextReconnect == if old(Coming()) == 0 then old(nextReconnect) else broker.clock(looks - 2) + 30000
      ensures !connected
      ensures SameMessages()
    {
      hide Run, Offered, Tried, Answers;
      Preempt();
      t := NowMs();
      Record(Look(t), Self());
    }

    method CompareTime(t: int) returns (due: bool)
      requires Valid() && place == Looked(t) && t <= broker.clock(looks) && !connected
      modifies this
      ensures Valid() && job == old(job) && place == if due then Dialing else Idle
      ensures libraryCalls == old(libraryCalls) && !connected
      ensures looks >= old(looks) && points == old(points) + 1
      ensures old(Coming()) == 0 ==> nextReconnect == old(nextReconnect)
      ensures due <==> old(Coming()) == 0 && t >= old(nextReconnect)
      ensures SameMessages()
    {
      hide Run, Offered, Tried, Answers;
      Preempt();
      due := t >= nextReconnect;
      if due {
        Record(MayConnect(t), Self());
      } else {
        Record(Refuse, Self());
      }
    }

    method Dial() returns (ok: bool)
      requires Valid() && place == Dialing && !connected
      modifies this
      ensures Valid() && job == old(job)
      ensures place == if ok then Admitted else Idle
      ensures ok == broker.succeeds(old(libraryCalls)) && libraryCalls == old(libraryCalls) + 1
      ensures (connected <==> ok) && Rescheduled()
      ensures points == old(points) + 4
      ensures SameMessages()
    {
      hide Run, Do, Offered, Tried, Answers;
      Preempt();
      ok := CallConnect();
      Preempt();
      SetRetryTime();
      Preempt();
      FinishDialing(ok);
    }

    method CallConnect() returns (ok: bool)
      requires Valid() && place == Dialing
      modifies this
      ensures Valid() && job == old(job) && place == Dialed(ok) && ok == broker.succeeds(old(libraryCalls))
      ensures libraryCalls == old(libraryCalls) + 1 && looks == old(looks) + 1
      ensures points == old(points) && connected == old(connected)
      ensures SameMessages()
    {
      hide Run, Offered, Tried, Answers;
      var t := NowMs();
      ok := CallLibrary();
      Record(Connect(t, ok), Self());
    }

    /** Reads the clock, then stores; a callback may come in between. */
    method SetRetryTime()
      requires Valid() && (place.Dialed? || place.Dropped?)
      modifies this
      ensures Valid() && job == old(job)
      ensures place == if old(place).Dialed? then Scheduled(old(place).ok) else Idle
      ensures connected ==> old(connected)
      ensures nextReconnect == broker.clock(old(looks)) + 30000
      ensures looks > old(looks) && points == old(points) + 1 && libraryCalls == old(libraryCalls)
      ensures SameMessages()
    {
      hide Run, Do, Offered, Tried, Answers;
      var t := NoteTime();
      Preempt();
      StoreTime(t);
    }

    method NoteTime() returns (t: int)
      requires Valid() && (place.Dialed? || place.Dropped?)
      modifies this
      ensures Valid() && job == old(job) && connected == old(connected)
      ensures place == if old(place).Dialed? then Noted(old(place).ok, t) else DropNoted(t)
      ensures t == broker.clock(old(looks)) && looks == old(looks) + 1
      ensures points == old(points) && libraryCalls == old(libraryCalls)
      ensures SameMessages()
    {
      hide Run, Offered, Tried, Answers;
      t := NowMs();
      Record(Note(t), Self());
    }

    method StoreTime(t: int)
      requires Valid() && (place.Noted? || place.DropNoted?) && place.at == t
      modifies this
      ensures Valid() && job == old(job) && connected == old(connected)
      ensures place == if old(place).Noted? then Scheduled(old(place).ok) else Idle
      ensures nextReconnect == t + 30000
      ensures looks == old(looks) && points == old(points) && libraryCalls == old(libraryCalls)
      ensures SameMessages()
    {
      hide Run, Offered, Tried, Answers;
      ghost var before := Self();
      nextReconnect := t + RECONNECT_MS;
      Record(Store, before);
    }

    method FinishDialing(ok: bool)
      requires Valid() && place == Scheduled(ok)
      modifies this
      ensures Valid() && job == old(job)
      ensures place == if ok then Admitted else Idle
      ensures (connected <==> ok || old(connected)) && nextReconnect == old(nextReconnect)
      ensures looks == old(looks) && points == old(points) && libraryCalls == old(libraryCalls)
      ensures SameMessages()
    {
      hide Run, Offered, Tried, Answers;
      ghost var before := Self();
      if ok {
        connected := true;
        Record(Up, before);
      } else {
        Record(GiveUp, before);
      }
    }

    /** Tries to connect once; with a handle the client is connected afterwards exactly if it was admitted. */
    method Start()
      requires Valid() && place == Idle
      modifies this
      ensures Valid() && place == Idle
      ensures |steps| > |old(steps)| && steps[|old(steps)|] == BeginStart
      ensures handle ==> (connected <==> old(Admits()))
      ensures libraryCalls == old(libraryCalls) + if old(Dials()) then 1 else 0
      ensures if old(Dials()) then Rescheduled() else old(Still(3)) ==> nextReconnect == old(nextReconnect)
      ensures SameMessages()
    {
      hide Run, Do, Offered, Tried, Answers;
      StartStep(BeginStart);
      var ok := EnsureConnected();
      if ok {
        StartStep(EndStart);
      }
    }

    ghost method StartStep(s: Step)
      requires Valid() && (if s.BeginStart? then place == Idle else s.EndStart? && place == Admitted && job == None)
      modifies this`steps, this`place, this`job, this`now
      ensures Valid() && SameMessages() && job == None && place == if s.BeginStart? then Deciding else Idle
      ensures steps == old(steps) + [s]
    {
      hide Run, Offered, Tried, Answers;
      Record(s, Self());
    }

    /**
     * Offers one message; it is handed to the library once if the client is admitted, and dropped
     * otherwise. If the library refuses it, the client is down and will not retry for 30 seconds.
     */
    method Send(payload: ServerPayload)
      requires Valid() && place == Idle
      modifies this
      ensures Valid() && place == Idle && old(steps) <= steps
      ensures Offered(steps) == old(Offered(steps)) + [payload]
      ensures Tried(steps) == if old(Admits()) then old(Tried(steps)) + [payload] else old(Tried(steps))
      ensures libraryCalls == old(libraryCalls) + (if old(Dials()) then 1 else 0) + if old(Admits()) then 1 else 0
      ensures old(Admits()) && !broker.succeeds(libraryCalls - 1) ==> !connected && Rescheduled()
      ensures old(Admits()) && broker.succeeds(libraryCalls - 1) && old(Still(8)) ==> connected
      ensures !old(Admits()) && handle ==> !connected
      ensures old(Dials()) ==> Rescheduled()
      ensures !old(Dials()) && old(Still(8)) && (old(Admits()) ==> broker.succeeds(libraryCalls - 1)) ==>
                nextReconnect == old(nextReconnect)
      ensures admitted == old(admitted) + [old(Admits())]
      ensures old(Sorted()) ==> Sorted()
    {
      hide Run, Do, Offered, Tried, Kept, Answers;
      ghost var yes := Admits();
      if old(Sorted()) {
        KeptSnoc(Offered(steps), admitted, payload, yes);
      }
      SendOrDrop(payload);
      admitted := admitted + [yes];
    }

    method SendOrDrop(payload: ServerPayload)
      requires Valid() && place == Idle
      modifies this
      ensures Valid() && place == Idle && old(steps) <= steps && admitted == old(admitted)
      ensures Offered(steps) == old(Offered(steps)) + [payload]
      ensures Tried(steps) == if old(Admits()) then old(Tried(steps)) + [payload] else old(Tried(steps))
      ensures libraryCalls == old(libraryCalls) + (if old(Dials()) then 1 else 0) + if old(Admits()) then 1 else 0
      ensures old(Admits()) && !broker.succeeds(libraryCalls - 1) ==> !connected && Rescheduled()
      ensures old(Admits()) && broker.succeeds(libraryCalls - 1) && old(Still(8)) ==> connected
      ensures !old(Admits()) && handle ==> !connected
      ensures old(Dials()) ==> Rescheduled()
      ensures !old(Dials()) && old(Still(8)) && (old(Admits()) ==> broker.succeeds(libraryCalls - 1)) ==>
                nextReconnect == old(nextReconnect)
    {
      hide Run, Do, Offered, Tried, Answers;
      BeginSend(payload);
      var ok := EnsureConnected();
      if ok {
        HandOver(payload);
      }
    }

    method HandOver(payload: ServerPayload)
      requires Valid() && place == Admitted && job == Some(payload)
      modifies this
      ensures Valid() && place == Idle && old(steps) <= steps && admitted == old(admitted)
      ensures Offered(steps) == old(Offered(steps)) && Tried(steps) == old(Tried(steps)) + [payload]
      ensures libraryCalls == old(libraryCalls) + 1 && looks >= old(looks)
      ensures if broker.succeeds(old(libraryCalls)) then
                && (old(Coming()) == 0 ==> connected == old(connected) && nextReconnect == old(nextReconnect))
                && (old(Coming()) > 0 ==> Rescheduled())
              else !connected && Rescheduled()
    {
      hide Run, Do, Offered, Tried, Answers;
      var sent := PublishNow(payload);
      if !sent {
        Preempt();
        MarkDisconnected();
      }
    }

    ghost method BeginSend(payload: ServerPayload)
      requires Valid() && place == Idle
      modifies this`steps, this`place, this`job, this`now
      ensures Valid() && steps == old(steps) + [Begin(payload)] && place == Deciding && job == Some(payload)
      ensures Offered(steps) == old(Offered(steps)) + [payload] && Tried(steps) == old(Tried(steps))
    {
      hide Run, Offered, Tried, Answers;
      Record(Begin(payload), Self());
    }

    method PublishNow(payload: ServerPayload) returns (sent: bool)
      requires Valid() && place == Admitted && job == Some(payload)
      modifies this
      ensures Valid() && old(steps) <= steps && place == if sent then Idle else PublishFailed
      ensures Offered(steps) == old(Offered(steps)) && Tried(steps) == old(Tried(steps)) + [payload]
      ensures admitted == old(admitted)
      ensures sent == broker.succeeds(old(libraryCalls)) && libraryCalls == old(libraryCalls) + 1
      ensures looks == old(looks) + old(Coming()) + 1 && points == old(points) + 1
      ensures connected <==> old(connected) && old(Coming()) == 0
      ensures nextReconnect == if old(Coming()) == 0 then old(nextReconnect) else broker.clock(looks - 2) + 30000
    {
      hide Run, Offered, Tried, Answers;
      Preempt();
      var t := NowMs();
      sent := CallLibrary();
      Record(Publish(t, payload, sent), Self());
    }

    /** mark_disconnected, as a failed publish runs it. */
    method MarkDisconnected()
      requires Valid() && place == PublishFailed
      modifies this
      ensures Valid() && place == Idle && !connected
      ensures nextReconnect == broker.clock(old(looks) + old(Coming())) + 30000
      ensures nextReconnect >= broker.clock(old(looks)) + 30000 && looks > old(looks) + old(Coming())
      ensures libraryCalls == old(libraryCalls)
      ensures SameMessages()
    {
      hide Run, Offered, Tried, Answers;
      ghost var before := Self();
      connected := false;
      Record(Drop, before);
      Preempt();
      SetRetryTime();
    }
  }
}
