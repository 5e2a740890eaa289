// The listening program: serial sessions with a timed reconnect, each feeding telegrams to the server.

module Listener {
  import opened Bytes
  import opened Framing
  import opened Codec
  import opened Hex
  import opened Telegrams
  import opened ReceiveBuffers
  import opened Link
  import opened Protocol
  import opened Commands
  import opened SerialPorts
  import Mqtt

  const RETRY_MS: nat := 30000
  const OFFLINE_MS: nat := 250
  const LISTEN_SIZE: nat := 4096
  const PROBE_MS: nat := 1500
  const DATA_INDICATION: byte := 0x03
  const RSSI_RESPONSE: byte := 0x8A

  function RssiRequest(): seq<byte> { Encode(0x0A, [0x45, 0x01]) }

  datatype Options = Options(gatewayId: string, topic: string)

  // ---- One session -------------------------------------------------------------------

  /** Asks for the option that appends signal strengths and logs the verdict; no answer counts as off. */
  function Probe(env: Env, w: World): (bool, World)
    requires env.Valid()
  {
    var (f, t) := SendAndGet(env, w.(buffer := []), RssiRequest(), RSSI_RESPONSE, PROBE_MS);
    var enabled := f.Some? && |f.value.payload| >= 3 && f.value.payload[2] == 1;
    (enabled, t.(trace := t.trace + [Probed(enabled)]))
  }

  /** One frame: a data indication that can be read is sent on, everything else is only logged. */
  function Handle(env: Env, w: World, f: Frame, rssiEnabled: bool, opts: Options): World {
    var w1 := w.(trace := w.trace + [Rx(f)]);
    var r := if f.command == DATA_INDICATION then Read(f.payload, rssiEnabled) else None;
    if r.None? then w1
    else Call(env, w1, Sent(Published(r.value, opts.gatewayId, opts.topic, env.stamp(w1.calls))))
  }

  /** All frames that the buffer holds. */
  function HandleAll(env: Env, w: World, rssiEnabled: bool, opts: Options): World
    decreases |w.buffer|
  {
    var (f, t) := Next(w.buffer);
    if f.None? then w.(buffer := t)
    else HandleAll(env, Handle(env, w.(buffer := t), f.value, rssiEnabled, opts), rssiEnabled, opts)
  }

  /** One read; false when it fails. */
  function Round(env: Env, w: World, rssiEnabled: bool, opts: Options): (bool, World) {
    var r, w1 := env.read(w.polls, LISTEN_SIZE), AfterRead(env, w, LISTEN_SIZE);
    if r.Failed? then (false, w1)
    else if r.bytes == [] then (true, Sleep(w1, IDLE_MS))
    else (true, HandleAll(env, Append(w1, r.bytes), rssiEnabled, opts))
  }

  /** Reads until one fails or the stop signal comes, which it does after `left` more checks. */
  function Receive(env: Env, w: World, rssiEnabled: bool, opts: Options, left: nat): (r: (World, nat))
    ensures r.1 <= left
    decreases left
  {
    if left == 0 then (w, 0)
    else
      var (alive, t) := Round(env, w, rssiEnabled, opts);
      if alive then Receive(env, t, rssiEnabled, opts, left - 1) else (t, left - 1)
  }

  /** One connection from the probe to the close. */
  function Serve(env: Env, w: World, opts: Options, left: nat): (r: (World, nat))
    requires env.Valid()
    ensures r.1 <= left
  {
    var (rssiEnabled, t) := Probe(env, w);
    var (u, l) := Receive(env, t.(buffer := []), rssiEnabled, opts, left);
    (Close(env, u), l)
  }

  /** The whole program: `next` is the time before which the port is not opened again. */
  function Listen(env: Env, w: World, next: int, opts: Options, left: nat): World
    requires env.Valid()
    decreases left
  {
    if left == 0 then w
    else if Now(env, w) < next then Listen(env, Sleep(w, OFFLINE_MS), next, opts, left - 1)
    else
      var (ok, w1) := Open(env, w);
      if !ok then Listen(env, w1, Now(env, w1) + RETRY_MS, opts, left - 1)
      else
        var (w2, l) := Serve(env, w1, opts, left - 1);
        if l == 0 then w2 else Listen(env, w2, Now(env, w2) + RETRY_MS, opts, l - 1)
  }

  /** One check of the running flag, and then the rest of the run. */
  lemma ListenStep(env: Env, w: World, next: int, opts: Options, left: nat)
    requires env.Valid() && left > 0
    ensures Listen(env, w, next, opts, left)
         == if Now(env, w) < next then Listen(env, Sleep(w, OFFLINE_MS), next, opts, left - 1)
            else
              var (ok, w1) := Open(env, w);
              if !ok then Listen(env, w1, Now(env, w1) + RETRY_MS, opts, left - 1)
              else
                var (w2, l) := Serve(env, w1, opts, left - 1);
                if l == 0 then w2 else Listen(env, w2, Now(env, w2) + RETRY_MS, opts, l - 1)
  {
    hide Serve, Open, Now, Sleep;
  }

  lemma ListenStops(env: Env, w: World, next: int, opts: Options)
    requires env.Valid()
    ensures Listen(env, w, next, opts, 0) == w
  {
  }

  // ---- What is delivered ----------------------------------------------------------------

  /** A published message without its time stamp. */
  datatype Delivery = Delivery(payloadHex: string, gatewayId: string, rssi: Option<int>, topic: string)

  function Deliveries(es: seq<Event>): seq<Delivery> {
    if es == [] then []
    else
      var e := es[|es| - 1];
      Deliveries(es[..|es| - 1])
      + if e.Sent? then [Delivery(e.payload.payloadHex, e.payload.gatewayId, e.payload.rssi, e.payload.topic)] else []
  }

  /** What a frame asks to be delivered. */
  function Due(f: Frame, rssiEnabled: bool, opts: Options): seq<Delivery> {
    var r := if f.command == DATA_INDICATION then Read(f.payload, rssiEnabled) else None;
    if r.None? then []
    else [Delivery(ToHex(r.value.telegram), opts.gatewayId, r.value.rssi, opts.topic)]
  }

  function DueAll(fs: seq<Frame>, rssiEnabled: bool, opts: Options): seq<Delivery> {
    if fs == [] then [] else Due(fs[0], rssiEnabled, opts) + DueAll(fs[1..], rssiEnabled, opts)
  }

  /**
   * What is due for a frame, in its own bytes: nothing unless it is a 0x03 of at least eleven bytes, and
   * then one message whose text reads back to the payload, without the last byte if that is taken for
   * the strength.
   */
  lemma DueExactly(f: Frame, rssiEnabled: bool, opts: Options)
    ensures Due(f, rssiEnabled, opts) == [] <==> f.command != 0x03 || |f.payload| < 11
    ensures Due(f, rssiEnabled, opts) != [] ==>
              var ds, cut := Due(f, rssiEnabled, opts), rssiEnabled && |f.payload| >= 12;
              && |ds| == 1 && ds[0].gatewayId == opts.gatewayId && ds[0].topic == opts.topic
              && FromHex(ds[0].payloadHex) == Some(if cut then f.payload[..|f.payload| - 1] else f.payload)
              && (ds[0].rssi.Some? <==> cut)
              && (cut ==> StandsFor(ds[0].rssi.value, f.payload[|f.payload| - 1]))
  {
    if f.command == 0x03 && |f.payload| >= 11 {
      PublishedReadsBack(f.payload, rssiEnabled, opts.gatewayId, opts.topic, "");
    }
  }

  lemma {:induction false} DeliveriesAppend(a: seq<Event>, b: seq<Event>)
    ensures Deliveries(a + b) == Deliveries(a) + Deliveries(b)
  {
    if b == [] {
      assert a + b == a;
    } else {
      DeliveriesAppend(a, b[..|b| - 1]);
      assert (a + b)[..|a + b| - 1] == a + b[..|b| - 1];
    }
  }

  lemma {:induction false} DueAllAppend(a: seq<Frame>, b: seq<Frame>, rssiEnabled: bool, opts: Options)
    ensures DueAll(a + b, rssiEnabled, opts) == DueAll(a, rssiEnabled, opts) + DueAll(b, rssiEnabled, opts)
  {
    if a == [] {
      assert a + b == b;
    } else {
      DueAllAppend(a[1..], b, rssiEnabled, opts);
      assert (a + b)[1..] == a[1..] + b && (a + b)[0] == a[0];
      var x, y, z := Due(a[0], rssiEnabled, opts), DueAll(a[1..], rssiEnabled, opts), DueAll(b, rssiEnabled, opts);
      assert x + (y + z) == (x + y) + z;
    }
  }

  /** Only bytes read, frames taken out and messages sent on. */
  predicate OnlyTraffic(es: seq<Event>) {
    forall i :: 0 <= i < |es| ==> es[i].In? || es[i].Rx? || es[i].Sent?
  }

  /**
   * One moment of a session, before event number `i` or at its end: the frames heard come from bytes
   * already read, and deliveries only from frames already heard. Everything due has been
   * delivered unless a delivery comes next, and every frame has been heard before more is read.
   */
  ghost predicate OnTime(buffer: seq<byte>, es: seq<Event>, i: nat, rssiEnabled: bool, opts: Options)
    requires i <= |es|
  {
    && HeardFrom(buffer, es[..i]) && Deliveries(es[..i]) <= DueAll(Heard(es[..i]), rssiEnabled, opts)
    && (i == |es| || !es[i].Sent? ==> Deliveries(es[..i]) == DueAll(Heard(es[..i]), rssiEnabled, opts))
    && (i < |es| && es[i].In? ==> Heard(es[..i]) == Decode(buffer + BytesIn(es[..i])).frames)
  }

  ghost predicate Timely(buffer: seq<byte>, es: seq<Event>, rssiEnabled: bool, opts: Options) {
    forall i :: 0 <= i <= |es| ==> OnTime(buffer, es, i, rssiEnabled, opts)
  }

  lemma TimelyAppend(buffer: seq<byte>, a: seq<Event>, rest: seq<byte>, b: seq<Event>, rssiEnabled: bool, opts: Options)
    requires Timely(buffer, a, rssiEnabled, opts) && Timely(rest, b, rssiEnabled, opts)
    requires Decode(buffer + BytesIn(a)) == Prepend(Heard(a), Decode(rest))
    ensures Timely(buffer, a + b, rssiEnabled, opts)
  {
    hide OnTime, Decode, Heard, BytesIn;
    assert OnTime(buffer, a, |a|, rssiEnabled, opts);
    forall i | 0 <= i <= |a + b| ensures OnTime(buffer, a + b, i, rssiEnabled, opts) {
      if i < |a| {
        SameMoment(buffer, a, b, i, rssiEnabled, opts);
      } else {
        LaterMoment(buffer, a, rest, b, i - |a|, rssiEnabled, opts);
      }
    }
  }

  lemma SameMoment(buffer: seq<byte>, a: seq<Event>, b: seq<Event>, i: nat, rssiEnabled: bool, opts: Options)
    requires i < |a| && OnTime(buffer, a, i, rssiEnabled, opts)
    ensures OnTime(buffer, a + b, i, rssiEnabled, opts)
  {
    hide HeardFrom, Decode, Heard, BytesIn, Deliveries, DueAll;
    assert (a + b)[..i] == a[..i] && (a + b)[i] == a[i];
  }

  lemma LaterMoment(buffer: seq<byte>, a: seq<Event>, rest: seq<byte>, b: seq<Event>, j: nat,
                    rssiEnabled: bool, opts: Options)
    requires OnTime(buffer, a, |a|, rssiEnabled, opts)
    requires j <= |b| && OnTime(rest, b, j, rssiEnabled, opts)
    requires Decode(buffer + BytesIn(a)) == Prepend(Heard(a), Decode(rest))
    ensures OnTime(buffer, a + b, |a| + j, rssiEnabled, opts)
  {
    hide HeardFrom, Decode, Heard, BytesIn, Acts, Deliveries, DueAll;
    var p := b[..j];
    assert a[..|a|] == a && (a + b)[..|a| + j] == a + p;
    assert j < |b| ==> (a + b)[|a| + j] == b[j];
    HeardLater(buffer, a, rest, p);
    RecordsAppend(a, p);
    DeliveriesAppend(a, p);
    DueAllAppend(Heard(a), Heard(p), rssiEnabled, opts);
    Associates(buffer, BytesIn(a), BytesIn(p));
    DecodeResumes(buffer + BytesIn(a), Heard(a), rest, BytesIn(p));
  }

  /** A delivery or none follows the frame that asks for it. */
  lemma HandledOnTime(buffer: seq<byte>, f: Frame, rest: seq<byte>, es: seq<Event>, rssiEnabled: bool, opts: Options)
    requires Decode(buffer) == Prepend([f], Decode(rest))
    requires es == [Rx(f)] || (|es| == 2 && es[0] == Rx(f) && es[1].Sent?)
    requires Deliveries(es) == DueAll([f], rssiEnabled, opts) && Heard(es) == [f] && BytesIn(es) == []
    ensures Timely(buffer, es, rssiEnabled, opts)
  {
    hide Decode;
    OneFrame(f);
    assert buffer + [] == buffer;
    forall i | 0 <= i <= |es| ensures OnTime(buffer, es, i, rssiEnabled, opts) {
      if i == |es| {
        assert es[..i] == es;
      } else if i == 1 {
        assert es[..1] == [Rx(f)];
      }
    }
  }

  /** Before anything is read, nothing is left to be heard. */
  lemma ReadOnTime(buffer: seq<byte>, chunk: seq<byte>, rssiEnabled: bool, opts: Options)
    requires Pending(buffer)
    ensures Timely(buffer, [In(chunk)], rssiEnabled, opts)
  {
    var es := [In(chunk)];
    PendingDecodes(buffer);
    hide Decode;
    RecordsOfIn(chunk);
    NothingSent(es);
    assert buffer + [] == buffer;
    forall i | 0 <= i <= |es| ensures OnTime(buffer, es, i, rssiEnabled, opts) {
      assert es[..i] == if i == 0 then [] else es;
    }
  }

  /** Frames `fs` were taken out in order and everything due for them was delivered in order. */
  ghost predicate Delivered(s: World, t: World, fs: seq<Frame>, rssiEnabled: bool, opts: Options) {
    && Follows(s, t) && OnlyTraffic(Since(s, t))
    && Heard(Since(s, t)) == fs && Deliveries(Since(s, t)) == DueAll(fs, rssiEnabled, opts)
  }

  lemma DeliveredTrans(s: World, t: World, u: World, fs: seq<Frame>, gs: seq<Frame>, rssiEnabled: bool, opts: Options)
    requires Delivered(s, t, fs, rssiEnabled, opts) && Delivered(t, u, gs, rssiEnabled, opts)
    ensures Delivered(s, u, fs + gs, rssiEnabled, opts)
  {
    Between(s, t, u);
    DeliveriesAppend(Since(s, t), Since(t, u));
    DueAllAppend(fs, gs, rssiEnabled, opts);
  }

  lemma HandleMeaning(env: Env, w: World, f: Frame, rssiEnabled: bool, opts: Options)
    ensures var t := Handle(env, w, f, rssiEnabled, opts);
            && Delivered(w, t, [f], rssiEnabled, opts) && Got(w, t) == []
            && (Since(w, t) == [Rx(f)] || (|Since(w, t)| == 2 && Since(w, t)[0] == Rx(f) && Since(w, t)[1].Sent?))
            && t.buffer == w.buffer && t.polls == w.polls && t.peak == w.peak
            && t.waited >= w.waited
  {
    var t := Handle(env, w, f, rssiEnabled, opts);
    var r := if f.command == DATA_INDICATION then Read(f.payload, rssiEnabled) else None;
    OneFrame(f);
    assert DueAll([f], rssiEnabled, opts) == Due(f, rssiEnabled, opts) + [];
    if r.None? {
      assert Since(w, t) == [Rx(f)];
    } else {
      var p := Published(r.value, opts.gatewayId, opts.topic, env.stamp(w.calls));
      assert Since(w, t) == [Rx(f)] + [Sent(p)];
      RecordsOfAct(Sent(p));
      RecordsAppend([Rx(f)], [Sent(p)]);
      DeliveriesAppend([Rx(f)], [Sent(p)]);
      OneSent(p);
    }
  }

  lemma OneFrame(f: Frame)
    ensures Heard([Rx(f)]) == [f] && Acts([Rx(f)]) == [] && BytesIn([Rx(f)]) == [] && Deliveries([Rx(f)]) == []
  {
    assert [Rx(f)][..0] == [];
  }

  lemma OneSent(p: ServerPayload)
    ensures Deliveries([Sent(p)]) == [Delivery(p.payloadHex, p.gatewayId, p.rssi, p.topic)]
  {
    assert [Sent(p)][..0] == [];
  }

  /** From `s` to `t` the bytes read, after those still pending, were decoded and dealt with once each. */
  ghost predicate Listened(s: World, t: World, rssiEnabled: bool, opts: Options) {
    && Follows(s, t)
    && var d := Decode(s.buffer + Got(s, t));
       && d.rest == t.buffer && Delivered(s, t, d.frames, rssiEnabled, opts)
       && Timely(s.buffer, Since(s, t), rssiEnabled, opts)
  }

  lemma {:induction false} HandleAllMeaning(env: Env, w: World, rssiEnabled: bool, opts: Options)
    ensures var t := HandleAll(env, w, rssiEnabled, opts);
            && t.polls == w.polls && t.peak == w.peak && t.waited >= w.waited
            && t.buffer == Decode(w.buffer).rest
            && Delivered(w, t, Decode(w.buffer).frames, rssiEnabled, opts) && Got(w, t) == []
            && Timely(w.buffer, Since(w, t), rssiEnabled, opts)
    decreases |w.buffer|
  {
    hide Decode, Handle, Timely, Heard, BytesIn, Deliveries, DueAll;
    NextMeaning(w.buffer);
    var (f, t) := Next(w.buffer);
    var w1 := w.(buffer := t);
    if f.None? {
      NothingHandled(w, w1, rssiEnabled, opts);
    } else {
      HandleMeaning(env, w1, f.value, rssiEnabled, opts);
      var w2 := Handle(env, w1, f.value, rssiEnabled, opts);
      HandleAllMeaning(env, w2, rssiEnabled, opts);
      SameRecord(w, w1, w2, [f.value], rssiEnabled, opts);
      var u := HandleAll(env, w2, rssiEnabled, opts);
      DeliveredTrans(w, w2, u, [f.value], Decode(t).frames, rssiEnabled, opts);
      Between(w, w2, u);
      HandledOnTime(w.buffer, f.value, t, Since(w, w2), rssiEnabled, opts);
      assert w.buffer + [] == w.buffer;
      TimelyAppend(w.buffer, Since(w, w2), t, Since(w2, u), rssiEnabled, opts);
    }
  }

  lemma NothingHandled(w: World, t: World, rssiEnabled: bool, opts: Options)
    requires t.trace == w.trace
    ensures Delivered(w, t, [], rssiEnabled, opts) && Got(w, t) == [] && Timely(w.buffer, Since(w, t), rssiEnabled, opts)
  {
    assert Since(w, t) == [];
    CausalWhenQuiet(w.buffer, []);
  }

  lemma SameRecord(w: World, w1: World, t: World, fs: seq<Frame>, rssiEnabled: bool, opts: Options)
    requires w1 == w.(buffer := w1.buffer) && Delivered(w1, t, fs, rssiEnabled, opts)
    ensures Delivered(w, t, fs, rssiEnabled, opts) && Got(w, t) == Got(w1, t) && Since(w, t) == Since(w1, t)
  {
    assert Since(w, t) == Since(w1, t);
  }

  lemma RoundMeaning(env: Env, w: World, rssiEnabled: bool, opts: Options)
    requires Pending(w.buffer)
    ensures var (alive, t) := Round(env, w, rssiEnabled, opts);
            Listened(w, t, rssiEnabled, opts) && t.polls == w.polls + 1 && t.waited >= w.waited
  {
    var (alive, t) := Round(env, w, rssiEnabled, opts);
    var chunk := Chunk(env, w, LISTEN_SIZE);
    if chunk == [] {
      NothingHandled(w, t, rssiEnabled, opts);
      PendingDecodes(w.buffer);
      hide Delivered, Timely, Decode;
      assert w.buffer + [] == w.buffer;
    } else {
      var w1 := Append(AfterRead(env, w, LISTEN_SIZE), chunk);
      hide HandleAll, Delivered, Decode, Timely;
      HandleAllMeaning(env, w1, rssiEnabled, opts);
      ReadStep(w, w1, t, chunk, Decode(w1.buffer).frames, rssiEnabled, opts);
    }
  }

  lemma ReadStep(w: World, w1: World, t: World, chunk: seq<byte>, fs: seq<Frame>, rssiEnabled: bool, opts: Options)
    requires w1.trace == w.trace + [In(chunk)]
    requires Delivered(w1, t, fs, rssiEnabled, opts) && Got(w1, t) == []
    requires Pending(w.buffer) && w1.buffer == w.buffer + chunk && Timely(w1.buffer, Since(w1, t), rssiEnabled, opts)
    ensures Delivered(w, t, fs, rssiEnabled, opts) && Got(w, t) == chunk
    ensures Timely(w.buffer, Since(w, t), rssiEnabled, opts)
  {
    hide Timely, Decode, Pending;
    ReadOnTime(w.buffer, chunk, rssiEnabled, opts);
    assert Since(w, w1) == [In(chunk)];
    assert Since(w, t) == [In(chunk)] + Since(w1, t);
    RecordsOfIn(chunk);
    RecordsAppend([In(chunk)], Since(w1, t));
    DeliveriesAppend([In(chunk)], Since(w1, t));
    assert [In(chunk)][..0] == [];
    assert [] + Deliveries(Since(w1, t)) == Deliveries(Since(w1, t)) && [] + fs == fs && chunk + [] == chunk;
    assert [] + Decode(w1.buffer).frames == Decode(w1.buffer).frames;
    TimelyAppend(w.buffer, [In(chunk)], w1.buffer, Since(w1, t), rssiEnabled, opts);
  }

  lemma StillToHear(s: World, t: World, rssiEnabled: bool, opts: Options)
    requires Listened(s, t, rssiEnabled, opts)
    ensures Decode(s.buffer + Got(s, t)) == Prepend(Heard(Since(s, t)), Decode(t.buffer))
  {
    hide Heard, BytesIn, Timely;
    PendingDecodes(t.buffer);
    assert Heard(Since(s, t)) + [] == Heard(Since(s, t));
  }

  lemma ListenedTrans(s: World, t: World, u: World, rssiEnabled: bool, opts: Options)
    requires Listened(s, t, rssiEnabled, opts) && Listened(t, u, rssiEnabled, opts)
    ensures Listened(s, u, rssiEnabled, opts)
  {
    hide Delivered, Timely;
    StillToHear(s, t, rssiEnabled, opts);
    hide Decode;
    TimelyAppend(s.buffer, Since(s, t), t.buffer, Since(t, u), rssiEnabled, opts);
    var d, e := Decode(s.buffer + Got(s, t)), Decode(t.buffer + Got(t, u));
    Between(s, t, u);
    Associates(s.buffer, Got(s, t), Got(t, u));
    DecodeAppend(s.buffer + Got(s, t), Got(t, u));
    DeliveredTrans(s, t, u, d.frames, e.frames, rssiEnabled, opts);
  }

  /**
   * Over a whole session what is delivered is exactly what is due for the frames that the bytes
   * read decode to, in order, however they were split into reads and whatever happened in between.
   */
  lemma {:induction false} SessionDelivers(env: Env, w: World, rssiEnabled: bool, opts: Options, left: nat)
    requires Pending(w.buffer)
    ensures Listened(w, Receive(env, w, rssiEnabled, opts, left).0, rssiEnabled, opts)
    decreases left
  {
    hide Round, Listened;
    if left == 0 {
      NothingHeard(w, rssiEnabled, opts);
    } else {
      var (alive, t) := Round(env, w, rssiEnabled, opts);
      RoundMeaning(env, w, rssiEnabled, opts);
      if alive {
        ListenedKeepsPending(w, t, rssiEnabled, opts);
        SessionDelivers(env, t, rssiEnabled, opts, left - 1);
        ListenedTrans(w, t, Receive(env, t, rssiEnabled, opts, left - 1).0, rssiEnabled, opts);
      }
    }
  }

  lemma NothingHeard(w: World, rssiEnabled: bool, opts: Options)
    requires Pending(w.buffer)
    ensures Listened(w, w, rssiEnabled, opts)
  {
    NothingHandled(w, w, rssiEnabled, opts);
    PendingDecodes(w.buffer);
    hide Delivered, Timely, Decode;
    assert w.buffer + Got(w, w) == w.buffer;
  }

  lemma ListenedKeepsPending(s: World, t: World, rssiEnabled: bool, opts: Options)
    requires Listened(s, t, rssiEnabled, opts)
    ensures Pending(t.buffer)
  {
  }

  /** The same bytes give the same deliveries and the same tail, whatever the reads, times and errors. */
  lemma SplitsDoNotMatter(env: Env, env': Env, w: World, w': World, rssiEnabled: bool, opts: Options, left: nat, left': nat)
    requires Pending(w.buffer) && w'.buffer == w.buffer
    ensures var t, t' := Receive(env, w, rssiEnabled, opts, left).0, Receive(env', w', rssiEnabled, opts, left').0;
            && Follows(w, t) && Follows(w', t')
            && (Got(w, t) == Got(w', t') ==>
                  Deliveries(Since(w, t)) == Deliveries(Since(w', t')) && t.buffer == t'.buffer)
  {
    SessionDelivers(env, w, rssiEnabled, opts, left);
    SessionDelivers(env', w', rssiEnabled, opts, left');
  }

  // ---- From telegram to server ---------------------------------------------------------------

  /** A telegram on the air with the strength the device measured, and noise in front of it on the line. */
  datatype Telegram = Telegram(noise: seq<byte>, bytes: seq<byte>, strength: byte)

  function Indications(ts: seq<Telegram>): (items: seq<Item>)
    ensures |items| == |ts|
  {
    seq(|ts|, i requires 0 <= i < |ts| => Item(ts[i].noise, DATA_INDICATION, ts[i].bytes + [ts[i].strength]))
  }

  function Expected(ts: seq<Telegram>, opts: Options): (ds: seq<Delivery>)
    ensures |ds| == |ts|
  {
    seq(|ts|, i requires 0 <= i < |ts| =>
      Delivery(ToHex(ts[i].bytes), opts.gatewayId, Some(Dbm(ts[i].strength)), opts.topic))
  }

  lemma OneDue(t: Telegram, opts: Options)
    requires |t.bytes| >= 11
    ensures Due(ItemFrame(Item(t.noise, DATA_INDICATION, t.bytes + [t.strength])), true, opts)
         == [Delivery(ToHex(t.bytes), opts.gatewayId, Some(Dbm(t.strength)), opts.topic)]
  {
    ReadingComesThrough(t.bytes, t.strength, true);
  }

  lemma FirstIndication(ts: seq<Telegram>, opts: Options)
    requires ts != []
    ensures var t := ts[0];
            && Indications(ts) == [Item(t.noise, DATA_INDICATION, t.bytes + [t.strength])] + Indications(ts[1..])
            && Expected(ts, opts) == [Delivery(ToHex(t.bytes), opts.gatewayId, Some(Dbm(t.strength)), opts.topic)]
                                     + Expected(ts[1..], opts)
  {
  }

  lemma DueAllCons(f: Frame, fs: seq<Frame>, rssiEnabled: bool, opts: Options)
    ensures DueAll([f] + fs, rssiEnabled, opts) == Due(f, rssiEnabled, opts) + DueAll(fs, rssiEnabled, opts)
  {
    assert ([f] + fs)[1..] == fs;
  }

  lemma {:induction false} AllDue(ts: seq<Telegram>, opts: Options)
    requires forall i :: 0 <= i < |ts| ==> |ts[i].bytes| >= 11
    ensures DueAll(Codec.Sent(Indications(ts)), true, opts) == Expected(ts, opts)
  {
    if ts != [] {
      hide Due, Expected, Indications;
      AllDue(ts[1..], opts);
      FirstIndication(ts, opts);
      OneDue(ts[0], opts);
      SentCons(Indications(ts));
      DueAllCons(ItemFrame(Indications(ts)[0]), Codec.Sent(Indications(ts[1..])), true, opts);
      assert Indications(ts)[1..] == Indications(ts[1..]);
    }
  }

  /**
   * End to end: when the probe's last frame says that strengths are on, and the bytes that come
   * after the probe are data indications of telegrams of 11 to 254 bytes, each with its strength,
   * among quiet noise, then the connection delivers exactly these telegrams in order, as text that
   * reads back to them, with their strengths.
   */
  lemma TelegramsReachServer(env: Env, w: World, opts: Options, left: nat, ts: seq<Telegram>, noise: seq<byte>)
    requires env.Valid() && Quiet(noise)
    requires forall i :: 0 <= i < |ts| ==> Quiet(ts[i].noise) && 11 <= |ts[i].bytes| <= 254
    ensures var p, t := Probe(env, w).1, Serve(env, w, opts, left).0;
            && Follows(w, p) && Follows(p, t)
            && (SaysEnabled(Heard(Since(w, p))) && Got(p, t) == Wire(Indications(ts)) + noise ==>
                  Deliveries(Since(w, t)) == Expected(ts, opts))
    ensures forall i :: 0 <= i < |ts| ==>
              && FromHex(Expected(ts, opts)[i].payloadHex) == Some(ts[i].bytes)
              && Expected(ts, opts)[i].rssi.Some? && StandsFor(Expected(ts, opts)[i].rssi.value, ts[i].strength)
  {
    hide Probe, Serve, Dbm, Wire, Decode, SaysEnabled, Indications, Expected, Heard, BytesIn, Deliveries, DueAll;
    var (enabled, p) := Probe(env, w);
    var t := Serve(env, w, opts, left).0;
    var probe, stream, over := ServeRecord(env, w, opts, left);
    ConnectionRecord(w, p, t, probe, enabled, stream, over, opts);
    if enabled && Got(p, t) == Wire(Indications(ts)) + noise {
      DecodedIndications(ts, opts, noise);
    }
    forall i | 0 <= i < |ts|
      ensures FromHex(Expected(ts, opts)[i].payloadHex) == Some(ts[i].bytes)
      ensures Expected(ts, opts)[i].rssi.Some? && StandsFor(Expected(ts, opts)[i].rssi.value, ts[i].strength)
    {
      ExpectedReadsBack(ts, opts, i);
    }
  }

  lemma DecodedIndications(ts: seq<Telegram>, opts: Options, noise: seq<byte>)
    requires Quiet(noise)
    requires forall i :: 0 <= i < |ts| ==> Quiet(ts[i].noise) && 11 <= |ts[i].bytes| <= 254
    ensures DueAll(Decode(Wire(Indications(ts)) + noise).frames, true, opts) == Expected(ts, opts)
  {
    hide Wire, Decode, Expected, DueAll;
    StreamRoundTrip(Indications(ts), noise);
    AllDue(ts, opts);
  }

  lemma ExpectedReadsBack(ts: seq<Telegram>, opts: Options, i: nat)
    requires i < |ts|
    ensures FromHex(Expected(ts, opts)[i].payloadHex) == Some(ts[i].bytes)
    ensures Expected(ts, opts)[i].rssi.Some? && StandsFor(Expected(ts, opts)[i].rssi.value, ts[i].strength)
  {
    HexReadsBack(ts[i].bytes);
    DbmRange(ts[i].strength);
  }

  /** What the two parts of a connection's record say about the worlds at its ends. */
  lemma ConnectionRecord(w: World, p: World, t: World, probe: seq<Event>, enabled: bool, stream: seq<Event>, over: int,
                         opts: Options)
    requires Follows(w, p) && Since(w, p) == probe + [Probed(enabled)] && ProbeRecord(probe, enabled)
    requires Follows(p, t) && Since(p, t) == stream + [Closed(over)] && StreamRecord(stream, enabled, opts)
    ensures Follows(w, t)
    ensures enabled <==> SaysEnabled(Heard(Since(w, p)))
    ensures Got(p, t) == BytesIn(stream)
    ensures Deliveries(Since(w, t)) == DueAll(Decode(BytesIn(stream)).frames, enabled, opts)
  {
    hide Decode, SaysEnabled, Heard, BytesIn, Deliveries, DueAll;
    Between(w, p, t);
    ProbeEvents(probe, enabled);
    RecordsOfAct(Probed(enabled));
    RecordsOfAct(Closed(over));
    RecordsAppend(probe, [Probed(enabled)]);
    RecordsAppend(stream, [Closed(over)]);
    NothingSent([Probed(enabled)]);
    NothingSent([Closed(over)]);
    DeliveriesAppend(probe, [Probed(enabled)]);
    DeliveriesAppend(stream, [Closed(over)]);
    DeliveriesAppend(probe + [Probed(enabled)], stream + [Closed(over)]);
    assert Heard(probe) + [] == Heard(probe) && BytesIn(stream) + [] == BytesIn(stream);
  }

  // ---- The probe's own buffer -------------------------------------------------------------------

  /** Bytes that complete a pending candidate to a frame without holding one themselves. */
  function Completion(r: seq<byte>): seq<byte>
    requires Pending(r) && r != []
  {
    var total := if |r| < 3 then 4 else Total(r[2]);
    var zeros := Repeat(0 as byte, total - 1 - |r|);
    zeros + [Xor(r + zeros)]
  }

  lemma CompletionCompletes(r: seq<byte>)
    requires Pending(r) && r != []
    ensures Decode(Completion(r)).frames == []
    ensures |Decode(r + Completion(r)).frames| == 1
  {
    hide Decode, Pending;
    var total := if |r| < 3 then 4 else Total(r[2]);
    var s := r + Completion(r);
    CompletedIsAccepted(r);
    DecodeStep(Accepted(s), []);
    assert s + [] == s;
    var zeros := Repeat(0 as byte, total - 1 - |r|);
    var x := Xor(r + zeros);
    NoiseIsSkipped(zeros, [x]);
    OneByte(x);
    PendingDecodes([]);
  }

  lemma CompletedIsAccepted(r: seq<byte>)
    requires Pending(r) && r != []
    ensures ValidPiece(Accepted(r + Completion(r)))
  {
    hide Xor;
    var total := if |r| < 3 then 4 else Total(r[2]);
    var zeros := Repeat(0 as byte, total - 1 - |r|);
    var body := r + zeros;
    assert r + Completion(r) == body + [Xor(body)];
    assert (body + [Xor(body)])[..|body|] == body;
    assert body[0] == START && body[2] == (if |r| < 3 then 0 else r[2]);
    assert Total(0) == 4;
  }

  lemma OneByte(x: byte)
    ensures Decode([x]).frames == []
  {
    if x != START {
      DecodeStep(Noise(x), []);
      assert [x] + [] == [x];
    }
  }

  /** Bytes can be dropped without any effect on what follows exactly when they decode to nothing at all. */
  lemma DroppingIsHarmless(left: seq<byte>)
    ensures (forall later :: Decode(left + later).frames == Decode(later).frames)
            <==> Decode(left) == Decoded([], [])
  {
    var d := Decode(left);
    forall later
      ensures Decode(left + later).frames == d.frames + Decode(d.rest + later).frames
    {
      DecodeAppend(left, later);
    }
    if d == Decoded([], []) {
      forall later ensures Decode(left + later).frames == Decode(later).frames {
        assert [] + later == later;
      }
    } else {
      var later := if d.rest == [] then [] else Completion(d.rest);
      if d.rest != [] {
        CompletionCompletes(d.rest);
      } else {
        assert d.rest + later == [];
      }
      assert |Decode(left + later).frames| > |Decode(later).frames|;
    }
  }

  /**
   * The probe's buffer is dropped when the session goes on. The frames of the whole connection
   * all arrive, whatever is read later, exactly when nothing decodable was left in that buffer.
   */
  lemma ProbeHandover(env: Env, w: World)
    requires env.Valid()
    ensures var t := Probe(env, w).1;
            && Follows(w, t)
            && ((forall later :: Decode(Got(w, t) + later).frames == Heard(Since(w, t)) + Decode(later).frames)
                <==> Decode(t.buffer) == Decoded([], []))
  {
    hide Decode, Heard, BytesIn, Probe, ProbeRecord;
    var (enabled, t) := Probe(env, w);
    var es := ProbeMeaning(env, w);
    RecordsAppend(es, [Probed(enabled)]);
    RecordsOfAct(Probed(enabled));
    assert BytesIn(es) + [] == BytesIn(es) && Heard(es) + [] == Heard(es);
    DroppedTail(Got(w, t), Heard(Since(w, t)), t.buffer);
  }

  lemma DroppedTail(got: seq<byte>, heard: seq<Frame>, buffer: seq<byte>)
    requires Decode(got) == Prepend(heard, Decode(buffer))
    ensures (forall later :: Decode(got + later).frames == heard + Decode(later).frames)
            <==> Decode(buffer) == Decoded([], [])
  {
    hide Decode;
    forall later ensures Decode(got + later).frames == heard + Decode(buffer + later).frames {
      DecodeResumes(got, heard, buffer, later);
    }
    DroppingIsHarmless(buffer);
    if forall later :: Decode(got + later).frames == heard + Decode(later).frames {
      forall later ensures Decode(buffer + later).frames == Decode(later).frames {
        SameTail(heard, Decode(buffer + later).frames, Decode(later).frames);
      }
    }
  }

  lemma SameTail(a: seq<Frame>, b: seq<Frame>, c: seq<Frame>)
    ensures a + b == a + c ==> b == c
  {
    assert b == (a + b)[|a|..] && c == (a + c)[|a|..];
  }

  /** The last frame heard is a response to the request that shows the option on. */
  predicate SaysEnabled(heard: seq<Frame>) {
    && |heard| > 0 && heard[|heard| - 1].command == RSSI_RESPONSE
    && |heard[|heard| - 1].payload| >= 3 && heard[|heard| - 1].payload[2] == 1
  }

  /** The record of a probe up to its verdict: one request; what it hears it has read; the verdict is the last response's. */
  ghost predicate ProbeRecord(es: seq<Event>, enabled: bool) {
    && |es| > 0 && es[0] == Tx(RssiRequest()) && Acts(es) == [Tx(RssiRequest())]
    && Causal([], es)
    && (enabled <==> SaysEnabled(Heard(es)))
  }

  /** Everything the probe's function says, before the verdict is logged. */
  lemma ProbeSteps(env: Env, w: World) returns (u: World, heard: seq<Frame>)
    requires env.Valid()
    ensures var (enabled, t) := Probe(env, w);
            && t == u.(trace := u.trace + [Probed(enabled)])
            && Ran(w.(buffer := []), u, [Tx(RssiRequest())], heard) && Begins(w.(buffer := []), u, Tx(RssiRequest()))
            && Now(env, w) <= Now(env, t) && (enabled <==> SaysEnabled(heard))
  {
    hide Wait, Encode, Ran, Begins, EndsAtFirst, NoneMatch, SaysEnabled;
    var w0 := w.(buffer := []);
    var w1 := Write(env, w0, RssiRequest());
    var deadline := Now(env, w1) + PROBE_MS;
    heard := WriteThenWait(env, w0, RssiRequest(), Some(RSSI_RESPONSE), deadline);
    WaitEndsInTime(env, w1, Some(RSSI_RESPONSE), deadline);
    u := Wait(env, w1, Some(RSSI_RESPONSE), deadline).1;
    EnabledHeard(heard, Wait(env, w1, Some(RSSI_RESPONSE), deadline).0);
  }

  /** The probe records one request, what it reads and hears, and then the verdict that the response gives. */
  lemma ProbeMeaning(env: Env, w: World) returns (es: seq<Event>)
    requires env.Valid()
    ensures var (enabled, t) := Probe(env, w);
            && Follows(w, t) && Since(w, t) == es + [Probed(enabled)] && ProbeRecord(es, enabled)
            && Decode(BytesIn(es)) == Prepend(Heard(es), Decode(t.buffer))
            && Now(env, w) <= Now(env, t)
  {
    hide Probe, Decode, SaysEnabled;
    var u, heard := ProbeSteps(env, w);
    var w0 := w.(buffer := []);
    es := Since(w0, u);
    assert w0.buffer + Got(w0, u) == Got(w0, u);
    assert Since(w, Probe(env, w).1) == es + [Probed(Probe(env, w).0)];
  }

  lemma EnabledHeard(heard: seq<Frame>, f: Option<Frame>)
    requires f.Some? ==> EndsAtFirst(heard, Some(RSSI_RESPONSE), f.value)
    requires f.None? ==> NoneMatch(heard, Some(RSSI_RESPONSE))
    ensures SaysEnabled(heard) <==> f.Some? && |f.value.payload| >= 3 && f.value.payload[2] == 1
  {
    if f.None? && |heard| > 0 {
      assert heard[|heard| - 1] in heard;
    }
  }

  // ---- Memory ---------------------------------------------------------------------------------------

  /** A pending tail and one full read. */
  const MOST: nat := 258 + LISTEN_SIZE

  lemma {:induction false} ReceivePeak(env: Env, w: World, rssiEnabled: bool, opts: Options, left: nat)
    requires env.Valid() && Pending(w.buffer) && w.peak <= MOST
    ensures Receive(env, w, rssiEnabled, opts, left).0.peak <= MOST
    decreases left
  {
    if left > 0 {
      hide Round;
      var (alive, t) := Round(env, w, rssiEnabled, opts);
      RoundPeak(env, w, rssiEnabled, opts);
      if alive {
        ReceivePeak(env, t, rssiEnabled, opts, left - 1);
      }
    }
  }

  lemma RoundPeak(env: Env, w: World, rssiEnabled: bool, opts: Options)
    requires env.Valid() && Pending(w.buffer) && w.peak <= MOST
    ensures Round(env, w, rssiEnabled, opts).1.peak <= MOST
    ensures Pending(Round(env, w, rssiEnabled, opts).1.buffer)
  {
    var chunk := Chunk(env, w, LISTEN_SIZE);
    PendingIsShort(w.buffer);
    HandleAllMeaning(env, Append(AfterRead(env, w, LISTEN_SIZE), chunk), rssiEnabled, opts);
  }

  lemma ProbePeak(env: Env, w: World)
    requires env.Valid() && w.peak <= MOST
    ensures Probe(env, w).1.peak <= MOST
  {
    hide Wait, Encode;
    var w1 := Write(env, w.(buffer := []), RssiRequest());
    WaitPeak(env, w1, Some(RSSI_RESPONSE), Now(env, w1) + PROBE_MS);
  }

  lemma ServePeak(env: Env, w: World, opts: Options, left: nat)
    requires env.Valid() && w.peak <= MOST
    ensures Serve(env, w, opts, left).0.peak <= MOST
  {
    hide Receive, Probe;
    ProbePeak(env, w);
    var (rssiEnabled, t) := Probe(env, w);
    ReceivePeak(env, t.(buffer := []), rssiEnabled, opts, left);
  }

  /** Over every run the session's buffer, for which 8192 bytes are reserved, and the probe's never hold more than 4354. */
  lemma {:induction false} ListenerMemory(env: Env, w: World, next: int, opts: Options, left: nat)
    requires env.Valid() && w.peak <= MOST
    ensures Listen(env, w, next, opts, left).peak <= MOST < 8192
    decreases left
  {
    hide Serve;
    if left > 0 {
      if Now(env, w) < next {
        ListenerMemory(env, Sleep(w, OFFLINE_MS), next, opts, left - 1);
      } else {
        var (ok, w1) := Open(env, w);
        if !ok {
          ListenerMemory(env, w1, Now(env, w1) + RETRY_MS, opts, left - 1);
        } else {
          var (w2, l) := Serve(env, w1, opts, left - 1);
          ServePeak(env, w1, opts, left - 1);
          if l > 0 {
            ListenerMemory(env, w2, Now(env, w2) + RETRY_MS, opts, l - 1);
          }
        }
      }
    }
  }

  // ---- One connection as it was recorded ---------------------------------------------------------

  /**
   * The record of a session after its probe: everything due for the frames its bytes decode to, and
   * nothing else, each delivery in the round whose read completes its frame.
   */
  ghost predicate StreamRecord(es: seq<Event>, enabled: bool, opts: Options) {
    && OnlyTraffic(es) && Heard(es) == Decode(BytesIn(es)).frames
    && Deliveries(es) == DueAll(Heard(es), enabled, opts) && Timely([], es, enabled, opts)
  }

  lemma ReceiveRecord(env: Env, w: World, rssiEnabled: bool, opts: Options, left: nat)
    requires w.buffer == []
    ensures var t := Receive(env, w, rssiEnabled, opts, left).0;
            Follows(w, t) && StreamRecord(Since(w, t), rssiEnabled, opts)
  {
    hide Receive, Decode, Heard, BytesIn;
    var t := Receive(env, w, rssiEnabled, opts, left).0;
    SessionDelivers(env, w, rssiEnabled, opts, left);
    assert w.buffer + Got(w, t) == Got(w, t);
  }

  lemma {:induction false} ReceiveTakesTime(env: Env, w: World, rssiEnabled: bool, opts: Options, left: nat)
    requires env.Valid() && Pending(w.buffer)
    ensures Now(env, w) <= Now(env, Receive(env, w, rssiEnabled, opts, left).0)
    decreases left
  {
    hide Round, Now, Pending;
    if left > 0 {
      var (alive, t) := Round(env, w, rssiEnabled, opts);
      RoundTakesTime(env, w, rssiEnabled, opts);
      if alive {
        ReceiveTakesTime(env, t, rssiEnabled, opts, left - 1);
      }
    }
  }

  lemma RoundTakesTime(env: Env, w: World, rssiEnabled: bool, opts: Options)
    requires env.Valid() && Pending(w.buffer)
    ensures var t := Round(env, w, rssiEnabled, opts).1;
            Now(env, w) <= Now(env, t) && Pending(t.buffer)
  {
    RoundMeaning(env, w, rssiEnabled, opts);
    assert env.elapsed(w.polls) <= env.elapsed(w.polls + 1);
  }

  /** A session records its probe and the verdict, then its stream, then the close. */
  lemma ServeRecord(env: Env, w: World, opts: Options, left: nat)
    returns (probe: seq<Event>, stream: seq<Event>, over: int)
    requires env.Valid()
    ensures var (enabled, p) := Probe(env, w);
            var t := Serve(env, w, opts, left).0;
            && Follows(w, p) && Since(w, p) == probe + [Probed(enabled)] && ProbeRecord(probe, enabled)
            && Follows(p, t) && Since(p, t) == stream + [Closed(over)] && StreamRecord(stream, enabled, opts)
            && Now(env, w) <= Now(env, t)
  {
    hide Receive, Probe, ProbeRecord, StreamRecord, Decode;
    var (enabled, p) := Probe(env, w);
    var p0 := p.(buffer := []);
    var u := Receive(env, p0, enabled, opts, left).0;
    probe := ProbeMeaning(env, w);
    ReceiveRecord(env, p0, enabled, opts, left);
    ReceiveTakesTime(env, p0, enabled, opts, left);
    stream, over := Since(p0, u), Now(env, u);
    Closing(env, p, u);
  }

  lemma Closing(env: Env, p: World, u: World)
    requires Follows(p.(buffer := []), u)
    ensures var t := Close(env, u);
            && Follows(p, t) && Since(p, t) == Since(p.(buffer := []), u) + [Closed(Now(env, u))]
            && Now(env, p.(buffer := [])) == Now(env, p) && Now(env, u) <= Now(env, t)
  {
  }

  lemma {:induction false} NothingSent(es: seq<Event>)
    requires forall i :: 0 <= i < |es| ==> !es[i].Sent?
    ensures Deliveries(es) == []
  {
    if es != [] {
      NothingSent(es[..|es| - 1]);
    }
  }

  /** What a probe may record before its verdict. */
  lemma ProbeEvents(es: seq<Event>, enabled: bool)
    requires ProbeRecord(es, enabled)
    ensures Inside(es) && Deliveries(es) == []
    ensures forall i :: 0 <= i < |es| ==> !es[i].Probed? && !es[i].Sent?
  {
    hide Causal, Heard, BytesIn, Decode, Deliveries, SaysEnabled, RssiRequest;
    forall i | 0 <= i < |es| ensures es[i].Tx? || es[i].Rx? || es[i].In? {
      if !es[i].Rx? && !es[i].In? {
        ActsKeep(es, i);
      }
    }
    NothingSent(es);
  }

  // ---- Opening and closing -----------------------------------------------------------------------------

  predicate NoOpen(es: seq<Event>) {
    forall i :: 0 <= i < |es| ==> !es[i].Opened?
  }

  /** Attempts to open come at `from` or later and at least 30 seconds apart. */
  ghost predicate Spaced(es: seq<Event>, from: int) {
    && (forall i :: 0 <= i < |es| && es[i].Opened? ==> es[i].at >= from)
    && (forall i, j :: 0 <= i < j < |es| && es[i].Opened? && es[j].Opened? ==> es[j].at >= es[i].at + 30000)
  }

  lemma SpacedAfter(e: Event, rest: seq<Event>, from: int)
    requires e.Opened? && e.at >= from && Spaced(rest, e.at + RETRY_MS)
    ensures Spaced([e] + rest, from)
  {
    var es := [e] + rest;
    assert forall i :: 1 <= i < |es| ==> es[i] == rest[i - 1];
  }

  lemma SpacedBefore(a: seq<Event>, b: seq<Event>, from: int, later: int)
    requires NoOpen(a) && Spaced(b, later) && from <= later
    ensures Spaced(a + b, from)
  {
    var es := a + b;
    assert forall i :: |a| <= i < |es| ==> es[i] == b[i - |a|];
  }

  /** A session opens nothing and closes the port once, at its end. */
  lemma ServeDiscipline(env: Env, w: World, opts: Options, left: nat)
    requires env.Valid()
    ensures var t := Serve(env, w, opts, left).0;
            && Follows(w, t) && Now(env, w) <= Now(env, t)
            && NoOpen(Since(w, t)) && PortAfter(Since(w, t), Some(true)) == Some(false)
  {
    hide Serve, Probe, Now, ProbeRecord, StreamRecord;
    var (enabled, p) := Probe(env, w);
    var t := Serve(env, w, opts, left).0;
    var probe, stream, over := ServeRecord(env, w, opts, left);
    Between(w, p, t);
    ConnectionEvents(probe, enabled, stream, over, opts);
  }

  lemma ConnectionEvents(probe: seq<Event>, enabled: bool, stream: seq<Event>, over: int, opts: Options)
    requires ProbeRecord(probe, enabled) && StreamRecord(stream, enabled, opts)
    ensures var es := (probe + [Probed(enabled)]) + (stream + [Closed(over)]);
            NoOpen(es) && PortAfter(es, Some(true)) == Some(false)
  {
    hide PortAfter, ProbeRecord, Timely, Heard, BytesIn, Deliveries, DueAll, Decode;
    ProbeEvents(probe, enabled);
    var es := (probe + [Probed(enabled)]) + stream;
    assert (probe + [Probed(enabled)]) + (stream + [Closed(over)]) == es + [Closed(over)];
    OpenStaysOpen(es);
    PortAfterAppend(es, [Closed(over)], Some(true));
    PortAfterOne(Closed(over), Some(true));
  }

  /**
   * Over every run, attempts to open the port are at least 30 seconds apart, the port is never opened
   * while open nor used or closed while closed, and it is closed when the program stops.
   */
  lemma {:induction false} ListenerDiscipline(env: Env, w: World, next: int, opts: Options, left: nat)
    requires env.Valid()
    ensures var t := Listen(env, w, next, opts, left);
            Follows(w, t) && Spaced(Since(w, t), next) && PortAfter(Since(w, t), Some(false)) == Some(false)
    decreases left
  {
    hide Listen, Serve, Open, Now, Sleep, Follows, Spaced, PortAfter;
    var t := Listen(env, w, next, opts, left);
    if left == 0 {
      ListenStops(env, w, next, opts);
      NothingDone(w, next);
    } else {
      ListenStep(env, w, next, opts, left);
      if Now(env, w) < next {
        ListenerDiscipline(env, Sleep(w, OFFLINE_MS), next, opts, left - 1);
        SleepRecordsNothing(w, t);
      } else {
        var (ok, w1) := Open(env, w);
        OpenMeaning(env, w);
        if !ok {
          ListenerDiscipline(env, w1, Now(env, w1) + RETRY_MS, opts, left - 1);
          FollowsItself(w1);
          Attempted(w, w1, w1, t, Now(env, w), env.Opens(w.calls), next, Now(env, w1) + RETRY_MS);
        } else {
          var (w2, l) := Serve(env, w1, opts, left - 1);
          ServeDiscipline(env, w1, opts, left - 1);
          if l > 0 {
            ListenerDiscipline(env, w2, Now(env, w2) + RETRY_MS, opts, l - 1);
          } else {
            NothingDone(w2, Now(env, w2) + RETRY_MS);
          }
          Attempted(w, w1, w2, t, Now(env, w), Usable, next, Now(env, w2) + RETRY_MS);
        }
      }
    }
  }

  lemma SleepRecordsNothing(w: World, t: World)
    requires Follows(Sleep(w, OFFLINE_MS), t)
    ensures Follows(w, t) && Since(w, t) == Since(Sleep(w, OFFLINE_MS), t)
  {
  }

  lemma NothingDone(w: World, next: int)
    ensures Follows(w, w) && Spaced(Since(w, w), next) && PortAfter(Since(w, w), Some(false)) == Some(false)
  {
    assert Since(w, w) == [];
  }

  /** One attempt to open, perhaps a session, and then the rest of the run. */
  lemma Attempted(w: World, w1: World, w2: World, t: World, at: int, how: Opening, next: int, later: int)
    requires Follows(w, w1) && Since(w, w1) == [Opened(at, how)] && at >= next
    requires Follows(w1, w2) && NoOpen(Since(w1, w2))
    requires if how.Usable? then PortAfter(Since(w1, w2), Some(true)) == Some(false) else w2 == w1
    requires Follows(w2, t) && Spaced(Since(w2, t), later) && later >= at + RETRY_MS
    requires PortAfter(Since(w2, t), Some(false)) == Some(false)
    ensures Follows(w, t) && Spaced(Since(w, t), next) && PortAfter(Since(w, t), Some(false)) == Some(false)
  {
    hide PortAfter, Spaced, NoOpen, Heard, BytesIn, Acts;
    var e, mid, rest := Opened(at, how), Since(w1, w2), Since(w2, t);
    Between(w1, w2, t);
    Between(w, w1, t);
    SpacedBefore(mid, rest, at + RETRY_MS, later);
    SpacedAfter(e, mid + rest, next);
    PortAfterOne(e, Some(false));
    PortAfterAppend([e], mid + rest, Some(false));
    if how.Usable? {
      PortAfterAppend(mid, rest, Some(true));
    } else {
      assert mid + rest == rest;
    }
  }

  // ---- Descriptors left behind ---------------------------------------------------------------------------

  /** When the program stops, the descriptors still open are those that failing opens left behind. */
  lemma ListenerDescriptors(env: Env, w: World, next: int, opts: Options, left: nat)
    requires env.Valid()
    ensures var t := Listen(env, w, next, opts, left);
            Follows(w, t) && Descriptors(Since(w, t)) == Leaks(Since(w, t))
  {
    hide Listen, Descriptors, Leaks, PortAfter, Spaced;
    ListenerDiscipline(env, w, next, opts, left);
    DescriptorsInOrder(Since(w, Listen(env, w, next, opts, left)), false);
  }

  lemma OpenThen(w: World, w1: World, t: World, at: int, how: Opening)
    requires Follows(w, w1) && Since(w, w1) == [Opened(at, how)] && Follows(w1, t)
    ensures Follows(w, t) && Leaks(Since(w, t)) == (if how.Leaked? then 1 else 0) + Leaks(Since(w1, t))
  {
    var e := Opened(at, how);
    Between(w, w1, t);
    LeaksAppend([e], Since(w1, t));
    assert [e][..0] == [];
  }

  /** With a supported baud rate no open leaves a descriptor behind. */
  lemma {:induction false} NoLeaks(env: Env, w: World, next: int, opts: Options, left: nat)
    requires env.Valid() && Supported(env.baud)
    ensures var t := Listen(env, w, next, opts, left);
            Follows(w, t) && Leaks(Since(w, t)) == 0
    decreases left
  {
    hide Listen, Serve, Open, Now, Sleep, Follows, Leaks;
    var t := Listen(env, w, next, opts, left);
    if left == 0 {
      ListenStops(env, w, next, opts);
      LeaksOfNothing(w);
    } else {
      ListenStep(env, w, next, opts, left);
      if Now(env, w) < next {
        NoLeaks(env, Sleep(w, OFFLINE_MS), next, opts, left - 1);
        SleepRecordsNothing(w, t);
      } else {
        var (ok, w1) := Open(env, w);
        OpenMeaning(env, w);
        if !ok {
          NoLeaks(env, w1, Now(env, w1) + RETRY_MS, opts, left - 1);
        } else {
          var (w2, l) := Serve(env, w1, opts, left - 1);
          LeaksOfNothing(w2);
          if l > 0 {
            NoLeaks(env, w2, Now(env, w2) + RETRY_MS, opts, l - 1);
          }
          SessionLeaksNothing(env, w1, opts, left - 1, t);
        }
        OpenThen(w, w1, t, Now(env, w), env.Opens(w.calls));
      }
    }
  }

  lemma SessionLeaksNothing(env: Env, w: World, opts: Options, left: nat, t: World)
    requires env.Valid() && Follows(Serve(env, w, opts, left).0, t)
    ensures Follows(w, t) && Leaks(Since(w, t)) == Leaks(Since(Serve(env, w, opts, left).0, t))
  {
    hide Serve, Leaks, PortAfter, Heard, BytesIn, Acts;
    var u := Serve(env, w, opts, left).0;
    ServeDiscipline(env, w, opts, left);
    NoLeaksInside(Since(w, u));
    Between(w, u, t);
    LeaksAppend(Since(w, u), Since(u, t));
  }

  lemma LeaksOfNothing(w: World)
    ensures Follows(w, w) && Leaks(Since(w, w)) == 0
  {
    assert Since(w, w) == [];
  }

  /** The open that is call number `k` leaves a descriptor behind; some run gets there. */
  lemma LeakComes(env: Env, w: World, next: int, opts: Options, k: nat) returns (left: nat)
    requires env.Valid() && !Supported(env.baud) && w.calls <= k && env.Opens(k).Leaked?
    ensures var t := Listen(env, w, next, opts, left); Follows(w, t) && Leaks(Since(w, t)) > 0
    decreases k - w.calls, next - Now(env, w)
  {
    hide Listen, Serve, Leaks;
    if Now(env, w) < next {
      var n := LeakComes(env, Sleep(w, OFFLINE_MS), next, opts, k);
      left := n + 1;
      ListenStep(env, w, next, opts, left);
    } else {
      var w1 := Open(env, w).1;
      var n := 0;
      if w.calls < k {
        n := LeakComes(env, w1, Now(env, w1) + RETRY_MS, opts, k);
      }
      left := n + 1;
      LeakNowOrLater(env, w, next, opts, n);
    }
  }

  lemma LeakNowOrLater(env: Env, w: World, next: int, opts: Options, n: nat)
    requires env.Valid() && !Supported(env.baud) && Now(env, w) >= next
    requires var w1 := Open(env, w).1;
             var t := Listen(env, w1, Now(env, w1) + RETRY_MS, opts, n);
             if env.Opens(w.calls).Leaked? && n == 0 then true else Follows(w1, t) && Leaks(Since(w1, t)) > 0
    ensures var t := Listen(env, w, next, opts, n + 1); Follows(w, t) && Leaks(Since(w, t)) > 0
  {
    hide Serve, Leaks, Now;
    var w1 := Open(env, w).1;
    OpenMeaning(env, w);
    ListenStep(env, w, next, opts, n + 1);
    LeaksOfNothing(w1);
    OpenThen(w, w1, Listen(env, w1, Now(env, w1) + RETRY_MS, opts, n), Now(env, w), env.Opens(w.calls));
  }

  /**
   * However long the program runs it leaves no descriptor behind, exactly when the baud rate is
   * supported or the system never gives access to the device's settings.
   */
  lemma NothingLeftBehind(env: Env, w: World, next: int, opts: Options)
    requires env.Valid()
    ensures (forall left: nat :: LeavesNothing(env, w, next, opts, left))
            <==> Supported(env.baud) || forall k: nat :: k >= w.calls ==> env.device(k).Absent? || env.device(k).Unreadable?
  {
    hide Listen, Descriptors, Leaks;
    forall left: nat
      ensures LeavesNothing(env, w, next, opts, left)
              <==> Follows(w, Listen(env, w, next, opts, left)) && Leaks(Since(w, Listen(env, w, next, opts, left))) == 0
    {
      ListenerDescriptors(env, w, next, opts, left);
    }
    if Supported(env.baud) {
      forall left: nat ensures LeavesNothing(env, w, next, opts, left) {
        NoLeaks(env, w, next, opts, left);
      }
    } else if k: nat :| k >= w.calls && !env.device(k).Absent? && !env.device(k).Unreadable? {
      var left := LeakComes(env, w, next, opts, k);
      assert !LeavesNothing(env, w, next, opts, left);
    } else {
      forall left: nat ensures LeavesNothing(env, w, next, opts, left) {
        NeverLeaks(env, w, next, opts, left);
      }
    }
  }

  ghost predicate LeavesNothing(env: Env, w: World, next: int, opts: Options, left: nat)
    requires env.Valid()
  {
    var t := Listen(env, w, next, opts, left);
    Follows(w, t) && Descriptors(Since(w, t)) == 0
  }

  lemma {:induction false} NeverLeaks(env: Env, w: World, next: int, opts: Options, left: nat)
    requires env.Valid() && !Supported(env.baud)
    requires forall k: nat :: k >= w.calls ==> env.device(k).Absent? || env.device(k).Unreadable?
    ensures var t := Listen(env, w, next, opts, left);
            Follows(w, t) && Leaks(Since(w, t)) == 0
    decreases left
  {
    hide Listen, Serve, Leaks;
    var t := Listen(env, w, next, opts, left);
    if left > 0 {
      ListenStep(env, w, next, opts, left);
    } else {
      ListenStops(env, w, next, opts);
    }
    if left == 0 {
      LeaksOfNothing(w);
    } else if Now(env, w) < next {
      NeverLeaks(env, Sleep(w, OFFLINE_MS), next, opts, left - 1);
    } else {
      var w1 := Open(env, w).1;
      OpenMeaning(env, w);
      NeverLeaks(env, w1, Now(env, w1) + RETRY_MS, opts, left - 1);
      OpenThen(w, w1, t, Now(env, w), env.Opens(w.calls));
    }
  }

  // ---- A whole run ------------------------------------------------------------------------------------

  /** One attempt to open the port, and the connection that follows if it works. */
  datatype Visit =
    | Refused(at: int, how: Opening)
    | Connection(at: int, probe: seq<Event>, enabled: bool, stream: seq<Event>, over: int)

  /** What a visit leaves in the record. */
  function Recorded(v: Visit): seq<Event> {
    match v
    case Refused(at, how) => [Opened(at, how)]
    case Connection(at, probe, enabled, stream, over) =>
      [Opened(at, Usable)] + ((probe + [Probed(enabled)]) + (stream + [Closed(over)]))
  }

  function AllRecorded(vs: seq<Visit>): seq<Event> {
    if vs == [] then [] else Recorded(vs[0]) + AllRecorded(vs[1..])
  }

  /** The verdict is that of the probe's own bytes, the deliveries are those of the stream's own bytes. */
  ghost predicate Proper(v: Visit, opts: Options) {
    match v
    case Refused(_, how) => !how.Usable?
    case Connection(_, probe, enabled, stream, _) => ProbeRecord(probe, enabled) && StreamRecord(stream, enabled, opts)
  }

  ghost predicate AllProper(vs: seq<Visit>, opts: Options) {
    forall v :: v in vs ==> Proper(v, opts)
  }

  lemma AllRecordedCons(v: Visit, vs: seq<Visit>, opts: Options)
    requires Proper(v, opts) && AllProper(vs, opts)
    ensures AllRecorded([v] + vs) == Recorded(v) + AllRecorded(vs) && AllProper([v] + vs, opts)
  {
    assert ([v] + vs)[1..] == vs;
  }

  /** From `s` to `t` exactly these visits were made. */
  ghost predicate Visited(s: World, t: World, vs: seq<Visit>, opts: Options) {
    Follows(s, t) && Since(s, t) == AllRecorded(vs) && AllProper(vs, opts)
  }

  /** A successful open and its session make one visit. */
  lemma ServeVisit(env: Env, w: World, w1: World, opts: Options, left: nat) returns (v: Visit)
    requires env.Valid() && Follows(w, w1) && Since(w, w1) == [Opened(Now(env, w), Usable)]
    ensures var t := Serve(env, w1, opts, left).0;
            Follows(w, t) && Since(w, t) == Recorded(v) && Proper(v, opts)
  {
    hide Serve, Probe, Now, ProbeRecord, StreamRecord;
    var (enabled, p) := Probe(env, w1);
    var t := Serve(env, w1, opts, left).0;
    var probe, stream, over := ServeRecord(env, w1, opts, left);
    Between(w1, p, t);
    Between(w, w1, t);
    v := Connection(Now(env, w), probe, enabled, stream, over);
  }

  lemma VisitThen(s: World, t: World, u: World, v: Visit, vs: seq<Visit>, opts: Options)
    requires Follows(s, t) && Since(s, t) == Recorded(v) && Proper(v, opts) && Visited(t, u, vs, opts)
    ensures Visited(s, u, [v] + vs, opts)
  {
    hide Recorded, Proper;
    Between(s, t, u);
    AllRecordedCons(v, vs, opts);
  }

  lemma NoVisit(s: World, t: World, opts: Options)
    requires t.trace == s.trace
    ensures Visited(s, t, [], opts)
  {
    assert Since(s, t) == [];
  }

  /**
   * The record of a whole run is a sequence of visits: each connection starts at its open, its probe
   * ends with the verdict drawn from the bytes read up to there, and it delivers what its bytes from
   * there to its close decode to. No partial frame crosses from one part to another.
   */
  lemma {:induction false} RunDelivers(env: Env, w: World, next: int, opts: Options, left: nat) returns (vs: seq<Visit>)
    requires env.Valid()
    ensures Visited(w, Listen(env, w, next, opts, left), vs, opts)
    decreases left
  {
    hide Listen, Serve, Open, Now, Sleep, Visited, Recorded, Proper;
    var t := Listen(env, w, next, opts, left);
    NoVisit(w, w, opts);
    vs := [];
    if left == 0 {
      ListenStops(env, w, next, opts);
    } else {
      ListenStep(env, w, next, opts, left);
      if Now(env, w) < next {
        vs := RunDelivers(env, Sleep(w, OFFLINE_MS), next, opts, left - 1);
        VisitedAfterSleep(w, t, vs, opts);
      } else {
        var (ok, w1) := Open(env, w);
        OpenMeaning(env, w);
        var v := Refused(Now(env, w), env.Opens(w.calls));
        if !ok {
          RefusedVisit(v, opts);
          vs := RunDelivers(env, w1, Now(env, w1) + RETRY_MS, opts, left - 1);
          VisitThen(w, w1, t, v, vs, opts);
        } else {
          var (w2, l) := Serve(env, w1, opts, left - 1);
          v := ServeVisit(env, w, w1, opts, left - 1);
          NoVisit(w2, w2, opts);
          if l > 0 {
            vs := RunDelivers(env, w2, Now(env, w2) + RETRY_MS, opts, l - 1);
          }
          VisitThen(w, w2, t, v, vs, opts);
        }
        vs := [v] + vs;
      }
    }
  }

  lemma VisitedAfterSleep(w: World, t: World, vs: seq<Visit>, opts: Options)
    requires Visited(Sleep(w, OFFLINE_MS), t, vs, opts)
    ensures Visited(w, t, vs, opts)
  {
    hide AllRecorded, AllProper;
    SleepRecordsNothing(w, t);
  }

  lemma RefusedVisit(v: Visit, opts: Options)
    requires v.Refused? && !v.how.Usable?
    ensures Recorded(v) == [Opened(v.at, v.how)] && Proper(v, opts)
  {
  }

  /** Two ways to cut a record at the first event of a kind are the same. */
  lemma SameCut(stop: Event -> bool, a: seq<Event>, m: Event, x: seq<Event>, b: seq<Event>, n: Event, y: seq<Event>)
    requires a + ([m] + x) == b + ([n] + y) && stop(m) && stop(n)
    requires forall i :: 0 <= i < |a| ==> !stop(a[i])
    requires forall i :: 0 <= i < |b| ==> !stop(b[i])
    ensures a == b && m == n && x == y
  {
    var s := a + ([m] + x);
    assert forall i :: 0 <= i < |a| ==> s[i] == a[i];
    assert forall i :: 0 <= i < |b| ==> s[i] == b[i];
    assert s[|a|] == m && s[|b|] == n;
    assert |a| == |b|;
    assert a == s[..|a|] && b == s[..|a|];
    assert x == s[|a| + 1..] && y == s[|a| + 1..];
  }

  /** A record can be read as a sequence of visits in one way only. */
  lemma {:induction false} VisitsAreUnique(vs: seq<Visit>, us: seq<Visit>, opts: Options)
    requires AllProper(vs, opts) && AllProper(us, opts) && AllRecorded(vs) == AllRecorded(us)
    ensures vs == us
    decreases |vs|
  {
    if vs == [] || us == [] {
      assert AllRecorded(vs) == [];
    } else {
      hide ProbeRecord, StreamRecord;
      FirstVisit(vs[0], AllRecorded(vs[1..]), us[0], AllRecorded(us[1..]), opts);
      VisitsAreUnique(vs[1..], us[1..], opts);
      assert vs == [vs[0]] + vs[1..] && us == [us[0]] + us[1..];
    }
  }

  lemma FirstVisit(v: Visit, x: seq<Event>, u: Visit, y: seq<Event>, opts: Options)
    requires Proper(v, opts) && Proper(u, opts) && Recorded(v) + x == Recorded(u) + y
    ensures v == u && x == y
  {
    hide ProbeRecord, StreamRecord;
    var s := Recorded(v) + x;
    assert s[0] == Recorded(v)[0] && s[0] == Recorded(u)[0];
    if v.Refused? {
      assert x == s[1..] && y == s[1..];
    } else {
      ProbeEvents(v.probe, v.enabled);
      ProbeEvents(u.probe, u.enabled);
      StreamEvents(v.stream, v.enabled, opts);
      StreamEvents(u.stream, u.enabled, opts);
      AfterOpening(v, x);
      AfterOpening(u, y);
      SameCut((e: Event) => e.Probed?, v.probe, Probed(v.enabled), v.stream + ([Closed(v.over)] + x),
              u.probe, Probed(u.enabled), u.stream + ([Closed(u.over)] + y));
      SameCut((e: Event) => e.Closed?, v.stream, Closed(v.over), x, u.stream, Closed(u.over), y);
    }
  }

  lemma StreamEvents(es: seq<Event>, enabled: bool, opts: Options)
    requires StreamRecord(es, enabled, opts)
    ensures forall i :: 0 <= i < |es| ==> !es[i].Closed?
  {
  }

  lemma AfterOpening(v: Visit, x: seq<Event>)
    requires v.Connection?
    ensures (Recorded(v) + x)[1..] == v.probe + ([Probed(v.enabled)] + (v.stream + ([Closed(v.over)] + x)))
  {
  }

  // ---- When a session ends, and when the next one begins -------------------------------------------

  /** A session reads until the first failing read, or for as many rounds as the running flag allows. */
  lemma {:induction false} ReceiveEnds(env: Env, w: World, rssiEnabled: bool, opts: Options, left: nat)
    requires Pending(w.buffer)
    ensures var (t, l) := Receive(env, w, rssiEnabled, opts, left);
            && t.polls == w.polls + (left - l)
            && (forall k: nat :: w.polls <= k < t.polls - 1 ==> env.read(k, LISTEN_SIZE).Data?)
            && (l > 0 ==> t.polls > w.polls && env.read(t.polls - 1, LISTEN_SIZE).Failed?)
    decreases left
  {
    hide Round, Pending;
    if left > 0 {
      RoundEnds(env, w, rssiEnabled, opts);
      var (alive, t) := Round(env, w, rssiEnabled, opts);
      if alive {
        ReceiveEnds(env, t, rssiEnabled, opts, left - 1);
      }
    }
  }

  lemma RoundEnds(env: Env, w: World, rssiEnabled: bool, opts: Options)
    requires Pending(w.buffer)
    ensures var (alive, t) := Round(env, w, rssiEnabled, opts);
            && t.polls == w.polls + 1 && Pending(t.buffer)
            && (alive <==> env.read(w.polls, LISTEN_SIZE).Data?)
  {
    RoundMeaning(env, w, rssiEnabled, opts);
    ListenedKeepsPending(w, Round(env, w, rssiEnabled, opts).1, rssiEnabled, opts);
  }

  /**
   * Once the retry time has come the port is tried within one idle period of 250 ms, unless the stop
   * signal comes first.
   */
  lemma {:induction false} ListenerTriesAgain(env: Env, w: World, next: int, opts: Options, left: nat)
    requires env.Valid() && left > 0 && Now(env, w) + 250 * (left - 1) >= next
    ensures var t := Listen(env, w, next, opts, left);
            && Follows(w, t) && |Since(w, t)| > 0
            && var e := Since(w, t)[0];
               e.Opened? && next <= e.at && (e.at == Now(env, w) || e.at < next + 250)
    decreases left
  {
    hide Serve, Follows, Spaced, PortAfter;
    var t := Listen(env, w, next, opts, left);
    ListenerDiscipline(env, w, next, opts, left);
    if Now(env, w) < next {
      var w' := Sleep(w, OFFLINE_MS);
      ListenerTriesAgain(env, w', next, opts, left - 1);
      SameTrace(w, w', t);
    } else {
      TriesNow(env, w, next, opts, left);
    }
  }

  lemma SameTrace(w: World, w': World, t: World)
    requires w'.trace == w.trace && Follows(w', t)
    ensures Follows(w, t) && Since(w, t) == Since(w', t)
  {
  }

  lemma TriesNow(env: Env, w: World, next: int, opts: Options, left: nat)
    requires env.Valid() && left > 0 && Now(env, w) >= next
    ensures var t := Listen(env, w, next, opts, left);
            Follows(w, t) && |Since(w, t)| > 0 && Since(w, t)[0] == Opened(Now(env, w), env.Opens(w.calls))
  {
    hide Serve, Follows, Spaced, PortAfter;
    var t := Listen(env, w, next, opts, left);
    var (ok, w1) := Open(env, w);
    OpenMeaning(env, w);
    if !ok {
      ListenerDiscipline(env, w1, Now(env, w1) + RETRY_MS, opts, left - 1);
      FollowsItself(w1);
      FirstEvent(w, w1, w1, t, Opened(Now(env, w), env.Opens(w.calls)));
    } else {
      var (w2, l) := Serve(env, w1, opts, left - 1);
      ServeDiscipline(env, w1, opts, left - 1);
      FollowsItself(w2);
      if l > 0 {
        ListenerDiscipline(env, w2, Now(env, w2) + RETRY_MS, opts, l - 1);
      }
      FirstEvent(w, w1, w2, t, Opened(Now(env, w), env.Opens(w.calls)));
    }
  }

  lemma FollowsItself(w: World)
    ensures Follows(w, w)
  {
  }

  lemma FirstEvent(w: World, w1: World, w2: World, t: World, e: Event)
    requires Follows(w, w1) && Since(w, w1) == [e] && Follows(w1, w2) && Follows(w2, t)
    ensures Follows(w, t) && |Since(w, t)| > 0 && Since(w, t)[0] == e
  {
    Between(w1, w2, t);
    Between(w, w1, t);
  }

  // ---- What the broker client is offered ----------------------------------------------------------------

  /** The messages sent on, complete with their time stamps. */
  function Payloads(es: seq<Event>): seq<ServerPayload> {
    if es == [] then []
    else Payloads(es[..|es| - 1]) + if es[|es| - 1].Sent? then [es[|es| - 1].payload] else []
  }

  lemma PayloadsSnoc(es: seq<Event>, e: Event)
    ensures Payloads(es + [e]) == if e.Sent? then Payloads(es) + [e.payload] else Payloads(es)
  {
    assert (es + [e])[..|es|] == es;
  }

  lemma {:induction false} NoPayloads(es: seq<Event>, more: seq<Event>)
    requires forall i :: 0 <= i < |more| ==> !more[i].Sent?
    ensures Payloads(es + more) == Payloads(es)
  {
    if more == [] {
      assert es + more == es;
    } else {
      var n := |more| - 1;
      NoPayloads(es, more[..n]);
      assert (es + more)[..|es + more| - 1] == es + more[..n] && (es + more)[|es + more| - 1] == more[n];
    }
  }

  lemma ProbeSendsNothing(env: Env, w: World)
    requires env.Valid()
    ensures Payloads(Probe(env, w).1.trace) == Payloads(w.trace)
  {
    hide Probe, ProbeRecord, Decode, Payloads;
    var (enabled, t) := Probe(env, w);
    var es := ProbeMeaning(env, w);
    ProbeEvents(es, enabled);
    NoPayloads(w.trace, Since(w, t));
    assert t.trace == w.trace + Since(w, t);
  }

  lemma {:induction false} DeliveriesOfPayloads(es: seq<Event>)
    ensures |Deliveries(es)| == |Payloads(es)|
    ensures forall i :: 0 <= i < |Payloads(es)| ==>
              var p := Payloads(es)[i]; Deliveries(es)[i] == Delivery(p.payloadHex, p.gatewayId, p.rssi, p.topic)
  {
    if es != [] {
      DeliveriesOfPayloads(es[..|es| - 1]);
    }
  }

  /** The client was started first, has been offered exactly the messages on record, and has sorted them as it was admitted. */
  ghost predicate InStep(port: SerialPort, client: Mqtt.MqttClient)
    reads port, client
  {
    && client.Valid() && client.place.Idle? && client.Sorted()
    && Mqtt.Offered(client.steps) == Payloads(port.trace)
    && |client.steps| > 0 && client.steps[0].BeginStart?
  }

  // ---- The program ------------------------------------------------------------------------------------

  /** The returned bytes are what the probe leaves behind in its own buffer. */
  method TryReadRssiEnabled(port: SerialPort, ghost before: seq<byte>) returns (enabled: bool, ghost leftover: seq<byte>)
    requires port.env.Valid()
    modifies port
    ensures (enabled, PortState(port, leftover)) == Probe(port.env, old(PortState(port, before)))
    ensures Payloads(port.trace) == old(Payloads(port.trace))
  {
    hide SendAndGet, Encode, Payloads;
    ProbeSendsNothing(port.env, PortState(port, before));
    var buffer := new ReceiveBuffer();
    var command := BuildFrame(0x0A, [0x45, 0x01]);
    var response := SendCommandAndGet(port, buffer, command, RSSI_RESPONSE, PROBE_MS);
    enabled := response.Some? && |response.value.payload| >= 3 && response.value.payload[2] == 1;
    port.Note(Probed(enabled));
    leftover := buffer.bytes;
  }

  method HandleFrame(port: SerialPort, client: Mqtt.MqttClient, buffer: ReceiveBuffer, frame: Frame,
                     rssiEnabled: bool, opts: Options)
    requires InStep(port, client)
    modifies port, client
    ensures State(port, buffer) == Handle(port.env, old(State(port, buffer)), frame, rssiEnabled, opts)
    ensures InStep(port, client)
  {
    hide Mqtt.Run, Mqtt.Offered, Mqtt.Tried, Mqtt.Kept, Payloads;
    PayloadsSnoc(port.trace, Rx(frame));
    port.Note(Rx(frame));
    if frame.command == DATA_INDICATION {
      var payload, line := ParseAndPrint(frame, rssiEnabled, opts.gatewayId, opts.topic, port.env.stamp(port.calls));
      if payload.Some? {
        PublishOn(port, client, payload.value);
      }
    }
  }

  /** The call of the client is the event that the port's record knows. */
  method PublishOn(port: SerialPort, client: Mqtt.MqttClient, payload: ServerPayload)
    requires InStep(port, client)
    modifies port, client
    ensures forall bytes :: PortState(port, bytes) == Call(port.env, old(PortState(port, bytes)), Sent(payload))
    ensures InStep(port, client)
  {
    hide Mqtt.Run, Mqtt.Offered, Mqtt.Tried, Mqtt.Kept, Payloads;
    PayloadsSnoc(port.trace, Sent(payload));
    port.Perform(Sent(payload));
    client.Send(payload);
  }

  /** The inner loop of a session; `left` counts the checks until the stop signal comes. */
  method ReceiveLoop(port: SerialPort, client: Mqtt.MqttClient, rssiEnabled: bool, opts: Options, left: nat,
                     ghost before: seq<byte>)
    returns (remaining: nat, ghost rest: seq<byte>)
    requires InStep(port, client)
    modifies port, client
    ensures (PortState(port, rest), remaining)
         == Receive(port.env, old(PortState(port, before)).(buffer := []), rssiEnabled, opts, left)
    ensures InStep(port, client)
  {
    hide HandleAll, Handle, Mqtt.Run, Mqtt.Offered, Mqtt.Tried, Mqtt.Kept, Payloads;
    var buffer := new ReceiveBuffer();
    ghost var goal := Receive(port.env, State(port, buffer), rssiEnabled, opts, left);
    remaining := left;
    while remaining > 0
      invariant fresh(buffer) && InStep(port, client)
      invariant Receive(port.env, State(port, buffer), rssiEnabled, opts, remaining) == goal
    {
      remaining := remaining - 1;
      var alive := ReadRound(port, client, buffer, rssiEnabled, opts);
      if !alive {
        return remaining, buffer.bytes;
      }
    }
    rest := buffer.bytes;
  }

  /** One round of the inner loop; false when the read fails. */
  method ReadRound(port: SerialPort, client: Mqtt.MqttClient, buffer: ReceiveBuffer, rssiEnabled: bool, opts: Options)
    returns (alive: bool)
    requires InStep(port, client)
    modifies port, client, buffer
    ensures (alive, State(port, buffer)) == Round(port.env, old(State(port, buffer)), rssiEnabled, opts)
    ensures InStep(port, client)
  {
    hide HandleAll, Handle, Mqtt.Run, Mqtt.Offered, Mqtt.Tried, Mqtt.Kept, Payloads;
    NoPayloads(port.trace, Arrival(port.env.read(port.polls, LISTEN_SIZE)));
    var r := port.ReadBytes(LISTEN_SIZE);
    if r.Failed? {
      return false;
    }
    if r.bytes == [] {
      port.SleepMs(IDLE_MS);
      return true;
    }
    buffer.Append(r.bytes);
    port.NoteSize(|buffer.bytes|);
    DrainFrames(port, client, buffer, rssiEnabled, opts);
    return true;
  }

  method DrainFrames(port: SerialPort, client: Mqtt.MqttClient, buffer: ReceiveBuffer, rssiEnabled: bool, opts: Options)
    requires InStep(port, client)
    modifies port, client, buffer
    ensures State(port, buffer) == HandleAll(port.env, old(State(port, buffer)), rssiEnabled, opts)
    ensures InStep(port, client)
  {
    hide Handle, Next, InStep;
    ghost var goal := HandleAll(port.env, State(port, buffer), rssiEnabled, opts);
    while true
      invariant InStep(port, client)
      invariant HandleAll(port.env, State(port, buffer), rssiEnabled, opts) == goal
      decreases |buffer.bytes|
    {
      HandleKeepsBuffer(port.env, State(port, buffer), rssiEnabled, opts);
      var frame := buffer.TryExtractFrame();
      if frame.None? {
        return;
      }
      HandleFrame(port, client, buffer, frame.value, rssiEnabled, opts);
    }
  }

  lemma HandleKeepsBuffer(env: Env, w: World, rssiEnabled: bool, opts: Options)
    ensures var (f, t) := Next(w.buffer);
            f.Some? ==> |t| < |w.buffer| && Handle(env, w.(buffer := t), f.value, rssiEnabled, opts).buffer == t
  {
  }

  /** One session from the probe to the close. */
  method ServeSession(port: SerialPort, client: Mqtt.MqttClient, opts: Options, left: nat, ghost before: seq<byte>)
    returns (remaining: nat, ghost rest: seq<byte>)
    requires port.env.Valid() && InStep(port, client)
    modifies port, client
    ensures remaining <= left
    ensures (PortState(port, rest), remaining) == Serve(port.env, old(PortState(port, before)), opts, left)
    ensures InStep(port, client)
  {
    hide Probe, Receive, Mqtt.Run, Mqtt.Offered, Mqtt.Tried, Mqtt.Kept, Payloads;
    ghost var leftover;
    var rssiEnabled;
    rssiEnabled, leftover := TryReadRssiEnabled(port, before);
    remaining, rest := ReceiveLoop(port, client, rssiEnabled, opts, left, leftover);
    PayloadsSnoc(port.trace, Closed(port.waited + port.env.elapsed(port.polls)));
    port.Perform(Closed(port.waited + port.env.elapsed(port.polls)));
  }

  method OpenDevice(port: SerialPort, client: Mqtt.MqttClient, ghost before: seq<byte>) returns (ok: bool)
    requires InStep(port, client)
    modifies port
    ensures (ok, PortState(port, [])) == Open(port.env, old(PortState(port, before)))
    ensures InStep(port, client)
  {
    hide Mqtt.Run, Mqtt.Offered, Mqtt.Tried, Mqtt.Kept, Payloads;
    PayloadsSnoc(port.trace, Opened(port.waited + port.env.elapsed(port.polls), port.env.Opens(port.calls)));
    ok := port.Open();
  }

  method WaitOffline(port: SerialPort, client: Mqtt.MqttClient)
    requires InStep(port, client)
    modifies port`waited
    ensures port.waited == old(port.waited) + OFFLINE_MS && InStep(port, client)
  {
    port.SleepMs(OFFLINE_MS);
  }

  /** The stop signal comes after `left` more checks of the running flag. */
  method ListenLoop(port: SerialPort, client: Mqtt.MqttClient, opts: Options, left: nat) returns (ghost rest: seq<byte>)
    requires port.env.Valid() && InStep(port, client)
    modifies port, client
    ensures PortState(port, rest) == Listen(port.env, old(PortState(port, [])), 0, opts, left)
    ensures InStep(port, client)
  {
    hide Listen, Serve, Open, InStep;
    rest := [];
    ghost var goal := Listen(port.env, PortState(port, rest), 0, opts, left);
    var nextReconnect := 0;
    var remaining := left;
    while remaining > 0
      invariant InStep(port, client)
      invariant Listen(port.env, PortState(port, rest), nextReconnect, opts, remaining) == goal
    {
      ListenStep(port.env, PortState(port, rest), nextReconnect, opts, remaining);
      remaining := remaining - 1;
      var now := port.TickMs();
      if now < nextReconnect {
        WaitOffline(port, client);
        continue;
      }
      var ok := OpenDevice(port, client, rest);
      rest := [];
      if !ok {
        now := port.TickMs();
        nextReconnect := now + RETRY_MS;
        continue;
      }
      remaining, rest := ServeSession(port, client, opts, remaining, rest);
      if remaining > 0 {
        remaining := remaining - 1;
        now := port.TickMs();
        nextReconnect := now + RETRY_MS;
      } else {
        ListenStops(port.env, PortState(port, rest), nextReconnect, opts);
      }
    }
    ListenStops(port.env, PortState(port, rest), nextReconnect, opts);
  }

  /**
   * The program without set-up: the client starts, then the listener runs. The messages handed to the
   * broker are, in order, those of the run's deliveries for which the client was admitted.
   */
  method Gateway(env: Env, broker: Mqtt.Broker, handle: bool, opts: Options, left: nat)
    returns (port: SerialPort, client: Mqtt.MqttClient)
    requires env.Valid() && broker.Steady()
    ensures client.Valid() && client.Sorted() && |client.steps| > 0 && client.steps[0].BeginStart?
    ensures Mqtt.Offered(client.steps) == Payloads(Listen(env, World([], 0, 0, 0, [], 0), 0, opts, left).trace)
    ensures port.trace == Listen(env, World([], 0, 0, 0, [], 0), 0, opts, left).trace
  {
    hide Listen, Mqtt.Run, Mqtt.Do;
    client := new Mqtt.MqttClient(broker, handle);
    client.Start();
    port := new SerialPort(env);
    ghost var rest := ListenLoop(port, client, opts, left);
  }
}
