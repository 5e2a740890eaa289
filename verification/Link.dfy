// The outside world as the programs see it: a serial line, a clock, and a record of what happened.

module Link {
  import opened Bytes
  import opened Framing
  import opened Telegrams

  /** The result of one read: an error, or the bytes that have arrived, possibly none. */
  datatype ReadOutcome = Failed | Data(bytes: seq<byte>)

  /** What the system does when the device is opened: no such device, no access to its settings, or not to changing them. */
  datatype Device = Absent | Unreadable | Unsettable | Ready

  /** How opening the port ends: with a usable port, with an error, or with an error that leaves a descriptor open. */
  datatype Opening = Usable | Unopened | Leaked

  predicate Supported(baud: int) {
    baud in {1200, 2400, 4800, 9600, 19200, 38400, 57600, 115200}
  }

  /** The baud rate is looked up after the device was opened and before its settings are changed. */
  function SerialOpen(device: Device, baud: int): Opening {
    if device.Absent? || device.Unreadable? then Unopened
    else if !Supported(baud) then Leaked
    else if device.Unsettable? then Unopened
    else Usable
  }

  /** The port is usable only if all goes well; it leaks exactly when an accessible device gets an unknown rate. */
  lemma SerialOpenMeaning(device: Device, baud: int)
    ensures var known := baud == 1200 || baud == 2400 || baud == 4800 || baud == 9600 || baud == 19200
                         || baud == 38400 || baud == 57600 || baud == 115200;
            && (SerialOpen(device, baud).Usable? <==> device.Ready? && known)
            && (SerialOpen(device, baud).Leaked? <==> (device.Ready? || device.Unsettable?) && !known)
  {
  }

  /**
   * What can be observed, in order: the port opened or closed, bytes written, a read that brought
   * bytes, a frame taken out of the buffer, the probe's verdict in the log, a message sent on.
   */
  datatype Event =
    | Opened(at: int, how: Opening)
    | Closed(at: int)
    | Tx(bytes: seq<byte>)
    | In(bytes: seq<byte>)
    | Rx(frame: Frame)
    | Probed(enabled: bool)
    | Sent(payload: ServerPayload)

  /**
   * Everything that is outside the programs' control. `read(k, max)` is the outcome of the k-th
   * read with a buffer of `max` bytes, and the first k reads take `elapsed(k)` ms in all. The
   * k-th other call that blocks (write, open, close, publish) takes `busy(k)` ms; if it opens the
   * port, `device(k)` is what the system does and `baud` the rate asked for. `stamp(k)` is the date and time at that moment.
   * `reach(t)` is a number of reads after which `t` ms have passed: time does not stand still.
   */
  datatype Env = Env(
    read: (nat, nat) -> ReadOutcome,
    elapsed: nat -> nat,
    reach: nat -> nat,
    busy: nat -> nat,
    device: nat -> Device,
    stamp: nat -> string,
    baud: int)
  {
    function Opens(k: nat): Opening { SerialOpen(device(k), baud) }

    ghost predicate Valid() {
      && (forall k: nat, max: nat :: read(k, max).Data? ==> |read(k, max).bytes| <= max)
      && (forall i: nat, j: nat :: i <= j ==> elapsed(i) <= elapsed(j))
      && (forall t: nat :: t <= elapsed(reach(t)))
    }

    /** No read takes longer than `d` ms and no other call longer than `b` ms. */
    ghost predicate Prompt(d: nat, b: nat) {
      && (forall k: nat :: elapsed(k + 1) <= elapsed(k) + d)
      && (forall k: nat :: busy(k) <= b)
    }
  }

  /**
   * Where a run has got to: the receive buffer, how many reads and other calls were made, how
   * long those calls and the sleeps took, every event, and the fullest the buffer has been.
   */
  datatype World = World(
    buffer: seq<byte>, polls: nat, calls: nat, waited: nat, trace: seq<Event>, peak: nat)

  function Now(env: Env, w: World): int {
    w.waited + env.elapsed(w.polls)
  }

  function Sleep(w: World, ms: nat): World {
    w.(waited := w.waited + ms)
  }

  /** One call that blocks for a while and is recorded as `e`. */
  function Call(env: Env, w: World, e: Event): World {
    w.(waited := w.waited + env.busy(w.calls), calls := w.calls + 1, trace := w.trace + [e])
  }

  function Write(env: Env, w: World, bytes: seq<byte>): World {
    Call(env, w, Tx(bytes))
  }

  /** Open the port with an empty buffer; whether that worked. */
  function Open(env: Env, w: World): (bool, World) {
    (env.Opens(w.calls).Usable?, Call(env, w, Opened(Now(env, w), env.Opens(w.calls))).(buffer := []))
  }

  function Close(env: Env, w: World): World {
    Call(env, w, Closed(Now(env, w)))
  }

  /** From `s` to `t` the port was opened, well or not, and the buffer is a new one. */
  ghost predicate OpenedPort(env: Env, s: World, t: World) {
    t == World([], s.polls, s.calls + 1, s.waited + env.busy(s.calls),
               s.trace + [Opened(s.waited + env.elapsed(s.polls), env.Opens(s.calls))], s.peak)
  }

  /** From `s` to `t` the port was closed. */
  ghost predicate ClosedPort(env: Env, s: World, t: World) {
    t == World(s.buffer, s.polls, s.calls + 1, s.waited + env.busy(s.calls),
               s.trace + [Closed(s.waited + env.elapsed(s.polls))], s.peak)
  }

  /** The world after a read; the bytes are not in the buffer yet. */
  function AfterRead(env: Env, w: World, max: nat): World {
    w.(polls := w.polls + 1, trace := w.trace + Arrival(env.read(w.polls, max)))
  }

  /** A read is recorded when it brings bytes. */
  function Arrival(r: ReadOutcome): seq<Event> {
    if r.Data? && r.bytes != [] then [In(r.bytes)] else []
  }

  function Append(w: World, chunk: seq<byte>): World {
    var b := w.buffer + chunk;
    w.(buffer := b, peak := if |b| > w.peak then |b| else w.peak)
  }

  function Rxs(fs: seq<Frame>): (es: seq<Event>)
    ensures |es| == |fs|
  {
    seq(|fs|, i requires 0 <= i < |fs| => Rx(fs[i]))
  }

  /** Take frames out of the buffer, leaving `rest`. */
  function TakeOut(w: World, frames: seq<Frame>, rest: seq<byte>): World {
    w.(buffer := rest, trace := w.trace + Rxs(frames))
  }

  // ---- Reading a record --------------------------------------------------------

  /** The frames handed out or logged. */
  function Heard(es: seq<Event>): seq<Frame> {
    if es == [] then []
    else Heard(es[..|es| - 1]) + (if es[|es| - 1].Rx? then [es[|es| - 1].frame] else [])
  }

  /** The bytes read. */
  function BytesIn(es: seq<Event>): seq<byte> {
    if es == [] then []
    else BytesIn(es[..|es| - 1]) + (if es[|es| - 1].In? then es[|es| - 1].bytes else [])
  }

  /** Everything but the bytes read and the frames taken out of the buffer. */
  function Acts(es: seq<Event>): seq<Event> {
    if es == [] then []
    else Acts(es[..|es| - 1]) + (if es[|es| - 1].Rx? || es[|es| - 1].In? then [] else [es[|es| - 1]])
  }

  lemma {:induction false} HeardAppend(a: seq<Event>, b: seq<Event>)
    ensures Heard(a + b) == Heard(a) + Heard(b)
  {
    if b == [] {
      assert a + b == a;
    } else {
      var n := |b| - 1;
      HeardAppend(a, b[..n]);
      assert (a + b)[..|a + b| - 1] == a + b[..n] && (a + b)[|a + b| - 1] == b[n];
    }
  }

  lemma {:induction false} BytesInAppend(a: seq<Event>, b: seq<Event>)
    ensures BytesIn(a + b) == BytesIn(a) + BytesIn(b)
  {
    if b == [] {
      assert a + b == a;
    } else {
      var n := |b| - 1;
      BytesInAppend(a, b[..n]);
      assert (a + b)[..|a + b| - 1] == a + b[..n] && (a + b)[|a + b| - 1] == b[n];
    }
  }

  lemma {:induction false} ActsAppend(a: seq<Event>, b: seq<Event>)
    ensures Acts(a + b) == Acts(a) + Acts(b)
  {
    if b == [] {
      assert a + b == a;
    } else {
      var n := |b| - 1;
      ActsAppend(a, b[..n]);
      assert (a + b)[..|a + b| - 1] == a + b[..n] && (a + b)[|a + b| - 1] == b[n];
    }
  }

  lemma RecordsAppend(a: seq<Event>, b: seq<Event>)
    ensures Heard(a + b) == Heard(a) + Heard(b)
    ensures BytesIn(a + b) == BytesIn(a) + BytesIn(b)
    ensures Acts(a + b) == Acts(a) + Acts(b)
  {
    HeardAppend(a, b);
    BytesInAppend(a, b);
    ActsAppend(a, b);
  }

  lemma {:induction false} RecordsOfRxs(fs: seq<Frame>)
    ensures Heard(Rxs(fs)) == fs && Acts(Rxs(fs)) == [] && BytesIn(Rxs(fs)) == []
  {
    if fs != [] {
      var n := |fs| - 1;
      RecordsOfRxs(fs[..n]);
      assert Rxs(fs)[..n] == Rxs(fs[..n]);
      assert fs == fs[..n] + [fs[n]];
    }
  }

  lemma RecordsOfAct(e: Event)
    requires !e.Rx? && !e.In?
    ensures Heard([e]) == [] && BytesIn([e]) == [] && Acts([e]) == [e]
  {
    assert [e][..0] == [];
  }

  lemma RecordsOfIn(bytes: seq<byte>)
    ensures Heard([In(bytes)]) == [] && BytesIn([In(bytes)]) == bytes && Acts([In(bytes)]) == []
  {
    assert [In(bytes)][..0] == [];
  }

  lemma {:induction false} ActsKeep(es: seq<Event>, i: nat)
    requires i < |es| && !es[i].Rx? && !es[i].In?
    ensures es[i] in Acts(es)
  {
    if i < |es| - 1 {
      ActsKeep(es[..|es| - 1], i);
    }
  }

  /** Whether the port is open after `e`; None once an event has come at the wrong time. */
  function PortStep(open: Option<bool>, e: Event): Option<bool> {
    match (open, e)
    case (Some(false), Opened(_, how)) => Some(how.Usable?)
    case (Some(true), Closed(_)) => Some(false)
    case (Some(true), Opened(_, _)) => None
    case (Some(true), _) => Some(true)
    case _ => None
  }

  function PortAfter(es: seq<Event>, start: Option<bool>): Option<bool> {
    if es == [] then start else PortStep(PortAfter(es[..|es| - 1], start), es[|es| - 1])
  }

  lemma PortAfterOne(e: Event, start: Option<bool>)
    ensures PortAfter([e], start) == PortStep(start, e)
  {
    assert [e][..0] == [];
  }

  lemma {:induction false} PortAfterAppend(a: seq<Event>, b: seq<Event>, start: Option<bool>)
    ensures PortAfter(a + b, start) == PortAfter(b, PortAfter(a, start))
  {
    hide PortStep;
    if b == [] {
      assert a + b == a;
    } else {
      var n := |b| - 1;
      PortAfterAppend(a, b[..n], start);
      assert (a + b)[..|a + b| - 1] == a + b[..n];
    }
  }

  /** Nothing is opened or closed. */
  predicate Inside(es: seq<Event>) {
    forall i :: 0 <= i < |es| ==> !es[i].Opened? && !es[i].Closed?
  }

  lemma {:induction false} OpenStaysOpen(es: seq<Event>)
    requires Inside(es)
    ensures PortAfter(es, Some(true)) == Some(true)
  {
    if es != [] {
      OpenStaysOpen(es[..|es| - 1]);
    }
  }

  lemma InsideByActs(es: seq<Event>)
    requires forall e :: e in Acts(es) ==> !e.Opened? && !e.Closed?
    ensures Inside(es)
  {
    forall i | 0 <= i < |es| ensures !es[i].Opened? && !es[i].Closed? {
      if !es[i].Rx? && !es[i].In? {
        ActsKeep(es, i);
      }
    }
  }

  /** How many more descriptors are open after `es` than before. */
  function Descriptors(es: seq<Event>): int {
    if es == [] then 0
    else
      var e := es[|es| - 1];
      Descriptors(es[..|es| - 1]) + if e.Opened? && !e.how.Unopened? then 1 else if e.Closed? then -1 else 0
  }

  /** How often opening the port left a descriptor behind. */
  function Leaks(es: seq<Event>): nat {
    if es == [] then 0
    else
      var e := es[|es| - 1];
      Leaks(es[..|es| - 1]) + if e.Opened? && e.how.Leaked? then 1 else 0
  }

  lemma {:induction false} LeaksAppend(a: seq<Event>, b: seq<Event>)
    ensures Leaks(a + b) == Leaks(a) + Leaks(b)
  {
    if b == [] {
      assert a + b == a;
    } else {
      var n := |b| - 1;
      LeaksAppend(a, b[..n]);
      assert (a + b)[..|a + b| - 1] == a + b[..n] && (a + b)[|a + b| - 1] == b[n];
    }
  }

  lemma {:induction false} NoLeaksInside(es: seq<Event>)
    requires forall i :: 0 <= i < |es| ==> !es[i].Opened?
    ensures Leaks(es) == 0
  {
    if es != [] {
      NoLeaksInside(es[..|es| - 1]);
    }
  }

  /** On a port used in order, the descriptors that stay open are the port in use and those left behind. */
  lemma {:induction false} DescriptorsInOrder(es: seq<Event>, start: bool)
    requires PortAfter(es, Some(start)).Some?
    ensures Descriptors(es) + (if start then 1 else 0)
         == Leaks(es) + if PortAfter(es, Some(start)).value then 1 else 0
  {
    if es != [] {
      DescriptorsInOrder(es[..|es| - 1], start);
    }
  }

  // ---- From one moment to a later one --------------------------------------------

  ghost predicate Follows(s: World, t: World) {
    s.trace <= t.trace
  }

  /** The events in between. */
  function Since(s: World, t: World): seq<Event>
    requires Follows(s, t)
  {
    t.trace[|s.trace|..]
  }

  /** The bytes read in between. */
  function Got(s: World, t: World): seq<byte>
    requires Follows(s, t)
  {
    BytesIn(Since(s, t))
  }

  lemma Between(s: World, t: World, u: World)
    requires Follows(s, t) && Follows(t, u)
    ensures Follows(s, u)
    ensures Got(s, u) == Got(s, t) + Got(t, u) && Since(s, u) == Since(s, t) + Since(t, u)
    ensures Heard(Since(s, u)) == Heard(Since(s, t)) + Heard(Since(t, u))
    ensures Acts(Since(s, u)) == Acts(Since(s, t)) + Acts(Since(t, u))
  {
    hide Heard, BytesIn, Acts;
    assert Since(s, u) == Since(s, t) + Since(t, u);
    RecordsAppend(Since(s, t), Since(t, u));
  }

  /** The frames heard are the first that the buffer and the bytes read say. */
  predicate HeardFrom(buffer: seq<byte>, es: seq<Event>) {
    Heard(es) <= Decode(buffer + BytesIn(es)).frames
  }

  /** At every moment that holds: no frame is heard before its bytes have come. */
  ghost predicate Causal(buffer: seq<byte>, es: seq<Event>) {
    forall i :: 0 <= i <= |es| ==> HeardFrom(buffer, es[..i])
  }

  lemma CausalAppend(buffer: seq<byte>, a: seq<Event>, rest: seq<byte>, b: seq<Event>)
    requires Causal(buffer, a) && Causal(rest, b)
    requires Decode(buffer + BytesIn(a)) == Prepend(Heard(a), Decode(rest))
    ensures Causal(buffer, a + b)
  {
    hide HeardFrom, Decode, Heard, BytesIn;
    forall i | 0 <= i <= |a + b| ensures HeardFrom(buffer, (a + b)[..i]) {
      if i <= |a| {
        assert (a + b)[..i] == a[..i];
      } else {
        assert (a + b)[..i] == a + b[..i - |a|];
        HeardLater(buffer, a, rest, b[..i - |a|]);
      }
    }
  }

  lemma HeardLater(buffer: seq<byte>, a: seq<Event>, rest: seq<byte>, b: seq<Event>)
    requires HeardFrom(rest, b)
    requires Decode(buffer + BytesIn(a)) == Prepend(Heard(a), Decode(rest))
    ensures HeardFrom(buffer, a + b)
  {
    hide Decode, Heard, BytesIn, Acts;
    RecordsAppend(a, b);
    Associates(buffer, BytesIn(a), BytesIn(b));
    DecodeResumes(buffer + BytesIn(a), Heard(a), rest, BytesIn(b));
  }

  lemma CausalWhenQuiet(buffer: seq<byte>, es: seq<Event>)
    requires Heard(es) == []
    ensures Causal(buffer, es)
  {
    hide Decode, BytesIn, Acts;
    forall i | 0 <= i <= |es| ensures HeardFrom(buffer, es[..i]) {
      assert es == es[..i] + es[i..];
      HeardAppend(es[..i], es[i..]);
    }
  }

  /**
   * No frame is lost, repeated, reordered or heard before its bytes have come: what was handed out
   * or logged, followed by what the buffer still holds, is what the old buffer and the bytes read say.
   */
  ghost predicate Conserved(s: World, t: World) {
    && Follows(s, t) && Causal(s.buffer, Since(s, t))
    && Decode(s.buffer + Got(s, t)) == Prepend(Heard(Since(s, t)), Decode(t.buffer))
  }

  lemma ConservedTrans(s: World, t: World, u: World)
    requires Conserved(s, t) && Conserved(t, u)
    ensures Conserved(s, u)
  {
    hide Decode, Causal, Heard, BytesIn, Acts;
    Between(s, t, u);
    CausalAppend(s.buffer, Since(s, t), t.buffer, Since(t, u));
    Associates(s.buffer, Got(s, t), Got(t, u));
    DecodeResumes(s.buffer + Got(s, t), Heard(Since(s, t)), t.buffer, Got(t, u));
    PrependTwice(Heard(Since(s, t)), Heard(Since(t, u)), Decode(u.buffer));
  }

  /** From `s` to `t` nothing was lost, `acts` were done and `heard` was taken out. */
  ghost predicate Ran(s: World, t: World, acts: seq<Event>, heard: seq<Frame>) {
    Conserved(s, t) && Acts(Since(s, t)) == acts && Heard(Since(s, t)) == heard
  }

  /** Concatenation, plainly equal to one side when the other is empty. */
  function Cat<T(==)>(a: seq<T>, b: seq<T>): (c: seq<T>)
    ensures c == a + b
  {
    if a == [] then b else if b == [] then a else a + b
  }

  lemma RanTrans(s: World, t: World, u: World,
                 acts: seq<Event>, heard: seq<Frame>, acts': seq<Event>, heard': seq<Frame>)
    requires Ran(s, t, acts, heard) && Ran(t, u, acts', heard')
    ensures Ran(s, u, Cat(acts, acts'), Cat(heard, heard'))
  {
    ConservedTrans(s, t, u);
    Between(s, t, u);
  }

  /** As `Ran`, but the buffer may have been dropped. */
  ghost predicate Did(s: World, t: World, acts: seq<Event>, heard: seq<Frame>) {
    Follows(s, t) && Acts(Since(s, t)) == acts && Heard(Since(s, t)) == heard
  }

  lemma OpenMeaning(env: Env, w: World)
    ensures var (ok, t) := Open(env, w);
            && (ok <==> env.Opens(w.calls).Usable?) && Now(env, w) <= Now(env, t)
            && Did(w, t, [Opened(Now(env, w), env.Opens(w.calls))], [])
            && Since(w, t) == [Opened(Now(env, w), env.Opens(w.calls))]
  {
    var (ok, t) := Open(env, w);
    RecordsOfAct(Opened(Now(env, w), env.Opens(w.calls)));
    assert Since(w, t) == [Opened(Now(env, w), env.Opens(w.calls))];
  }

  lemma CallMeaning(env: Env, w: World, e: Event)
    requires !e.Rx? && !e.In?
    ensures Did(w, Call(env, w, e), [e], [])
  {
    RecordsOfAct(e);
    assert Since(w, Call(env, w, e)) == [e];
  }

  /** The first thing that happened between `s` and `t`, and the last. */
  ghost predicate Begins(s: World, t: World, e: Event) {
    Follows(s, t) && |Since(s, t)| > 0 && Since(s, t)[0] == e
  }

  ghost predicate Ends(s: World, t: World, e: Event) {
    Follows(s, t) && |Since(s, t)| > 0 && Since(s, t)[|Since(s, t)| - 1] == e
  }

  lemma BeginsEarlier(s: World, t: World, u: World, e: Event, acts: seq<Event>, heard: seq<Frame>)
    requires Begins(s, t, e) && Ran(t, u, acts, heard)
    ensures Begins(s, u, e)
  {
    hide Decode, Causal, Heard, BytesIn, Acts;
  }

  lemma EndsLater(s: World, t: World, u: World, e: Event, acts: seq<Event>, heard: seq<Frame>)
    requires Ran(s, t, acts, heard) && Ends(t, u, e)
    ensures Ends(s, u, e)
  {
    hide Decode, Causal, Heard, BytesIn, Acts;
  }

  /** A step that reads nothing, takes nothing out and only records `acts`. */
  lemma QuietStep(s: World, t: World, acts: seq<Event>)
    requires t.buffer == s.buffer && t.trace == s.trace + acts
    requires Heard(acts) == [] && BytesIn(acts) == []
    ensures Ran(s, t, Acts(acts), []) && Got(s, t) == [] && Since(s, t) == acts
  {
    assert Since(s, t) == acts;
    CausalWhenQuiet(s.buffer, acts);
    hide Decode, Causal;
    assert s.buffer + Got(s, t) == s.buffer;
    assert [] + Decode(t.buffer).frames == Decode(t.buffer).frames;
  }

  lemma CausalTake(buffer: seq<byte>, chunk: seq<byte>, frames: seq<Frame>, rest: seq<byte>)
    requires Decode(buffer + chunk) == Prepend(frames, Decode(rest))
    ensures Causal(buffer, [In(chunk)] + Rxs(frames))
  {
    hide Heard, BytesIn, Acts, Decode, HeardFrom;
    var es := [In(chunk)] + Rxs(frames);
    forall i | 0 <= i <= |es| ensures HeardFrom(buffer, es[..i]) {
      if i == 0 {
        NothingHeardYet(buffer);
      } else {
        assert es[..i] == [In(chunk)] + Rxs(frames[..i - 1]);
        HeardSoFar(buffer, chunk, frames, rest, frames[..i - 1]);
      }
    }
  }

  lemma NothingHeardYet(buffer: seq<byte>)
    ensures HeardFrom(buffer, [])
  {
  }

  lemma HeardSoFar(buffer: seq<byte>, chunk: seq<byte>, frames: seq<Frame>, rest: seq<byte>, first: seq<Frame>)
    requires Decode(buffer + chunk) == Prepend(frames, Decode(rest)) && first <= frames
    ensures HeardFrom(buffer, [In(chunk)] + Rxs(first))
  {
    hide Heard, BytesIn, Acts, Decode;
    RecordsOfIn(chunk);
    RecordsOfRxs(first);
    RecordsAppend([In(chunk)], Rxs(first));
    assert [] + first == first && chunk + [] == chunk;
  }

  /** Bytes read and appended, then frames taken out. */
  lemma TakeStep(s: World, t: World, chunk: seq<byte>, frames: seq<Frame>)
    requires t.trace == s.trace + [In(chunk)] + Rxs(frames)
    requires Decode(s.buffer + chunk) == Prepend(frames, Decode(t.buffer))
    ensures Ran(s, t, [], frames) && Got(s, t) == chunk && Since(s, t) == [In(chunk)] + Rxs(frames)
  {
    hide Heard, BytesIn, Acts, Decode, Causal;
    assert t.trace == s.trace + ([In(chunk)] + Rxs(frames));
    CausalTake(s.buffer, chunk, frames, t.buffer);
    assert Since(s, t) == [In(chunk)] + Rxs(frames);
    RecordsOfIn(chunk);
    RecordsOfRxs(frames);
    RecordsAppend([In(chunk)], Rxs(frames));
    assert [] + frames == frames && chunk + [] == chunk;
  }
}
