/** When a receiver refuses an honest stream over a WebSocket: exactly when the largest message its sender can make is
    longer than the receiver's buffer. */
module CarrierLimits {
  import opened Bytes
  import opened Incremental
  import opened CarrierTunnel
  import opened EndToEnd
  import RC = RecordCodec
  import RT = RecordTheorems
  import SQ = SendQueue
  import WF = WsFrames
  import WS = WsSession

  /** How long a message can get with records of at most so many bytes: a message is made of queued records, so the
      limits of the queue hold for it as well as its own. */
  function LargestMessage(cfg: SQ.Config, longest: nat): int {
    Min(Min(cfg.batchBytes, cfg.queueBytes), Min(Max(1, SQ.MostRecords(cfg)), Max(1, cfg.queuePackets)) * longest)
  }

  /** A record as an encoder makes it, of at most so many bytes. */
  ghost predicate Bounded(g: RC.Config, longest: nat, r: RT.Sent) {
    SealedMade(g, r) && |r.bytes| <= longest
  }

  /** Every message made is within the limit. */
  predicate BodiesFit(t: Tunnel, largest: int) {
    forall j :: 0 <= j < |t.sender.batches| ==> |SQ.Data(t.sender.batches[j])| <= largest
  }

  // ---------------------------------------------------------------------- no message is longer

  lemma Product(a: int, b: int, c: nat)
    requires a <= b
    ensures a * c <= b * c
  {
  }

  lemma {:induction false} TotalBound(q: seq<SQ.Queued>, longest: nat)
    requires forall i :: 0 <= i < |q| ==> SQ.Size(q[i]) <= longest
    ensures SQ.Total(q) <= |q| * longest
    decreases |q|
  {
    if q != [] {
      TotalBound(q[1..], longest);
      assert |q| * longest == |q[1..]| * longest + longest;
    }
  }

  /** The first k records of a queue, and all of it. */
  lemma TotalPart(q: seq<SQ.Queued>, k: nat)
    requires k <= |q|
    ensures SQ.Total(q[..k]) <= SQ.Total(q)
  {
    assert q == q[..k] + q[k..];
    SQ.TotalAppend(q[..k], q[k..]);
  }

  lemma MessageBound(s: SQ.Sender, now: int, longest: nat, cfg: SQ.Config)
    requires SQ.SenderValid(s, cfg) && SQ.Configured(cfg)
    requires forall i :: 0 <= i < |s.queue| ==> SQ.Size(s.queue[i]) <= longest
    ensures |Message(s, SQ.BatchLimit(s.queue, cfg, now), cfg)| <= LargestMessage(cfg, longest)
  {
    var limit := SQ.BatchLimit(s.queue, cfg, now);
    var k := SQ.Gathered(s.queue, 0, 0, limit, cfg);
    var part := s.queue[..k];
    SQ.GatheredMeaning(s.queue, 0, 0, limit, cfg);
    SQ.LimitMeaning(s.queue, cfg, now);
    DataSize(part);
    TotalPart(s.queue, k);
    TotalBound(part, longest);
    Product(k, Min(Max(1, SQ.MostRecords(cfg)), Max(1, cfg.queuePackets)), longest);
  }

  lemma StepFits(client: bool, t: Tunnel, e: Event, longest: nat, cfg: SQ.Config)
    requires TunnelValid(client, t, cfg) && Allowed(t, e) && SQ.Configured(cfg)
    requires forall i :: 0 <= i < |t.sender.queue| ==> SQ.Size(t.sender.queue[i]) <= longest
    requires BodiesFit(t, LargestMessage(cfg, longest))
    ensures BodiesFit(Step(client, t, e, cfg), LargestMessage(cfg, longest))
  {
    hide WS.LinkValid, SQ.BatchLimit, LargestMessage, SQ.Data;
    match e
    case Queue(q) =>
      if q.Add? {
        SQ.OfferTouches(t.sender, q.x, cfg);
      } else {
        SQ.ExpireTouches(t.sender, q.now, cfg);
      }
    case Flush(now, _) => MessageBound(t.sender, now, longest, cfg);
    case Control(_) =>
    case Move(_) =>
  }

  lemma QueueBounded(g: RC.Config, longest: nat, s: SQ.Sender)
    requires SQ.Every(r => Bounded(g, longest, r), s.sent + s.queue)
    ensures forall i :: 0 <= i < |s.queue| ==> SQ.Size(s.queue[i]) <= longest
  {
    forall i | 0 <= i < |s.queue|
      ensures SQ.Size(s.queue[i]) <= longest
    {
      assert (s.sent + s.queue)[|s.sent| + i] == s.queue[i];
    }
  }

  lemma {:induction false} RunFits(client: bool, t: Tunnel, es: seq<Event>, g: RC.Config, longest: nat, cfg: SQ.Config)
    requires TunnelValid(client, t, cfg) && Runs(client, t, es, cfg) && SQ.Configured(cfg)
    requires SQ.Every(r => Bounded(g, longest, r), t.sender.sent + t.sender.queue)
    requires Makes(r => Bounded(g, longest, r), es) && BodiesFit(t, LargestMessage(cfg, longest))
    ensures BodiesFit(Run(client, t, es, cfg), LargestMessage(cfg, longest))
    decreases |es|
  {
    hide TunnelValid, BodiesFit, Bounded, LargestMessage, Step, Allowed;
    if es != [] {
      QueueBounded(g, longest, t.sender);
      StepKeeps(client, t, es[0], cfg);
      StepFits(client, t, es[0], longest, cfg);
      StepEvery(client, t, es[0], cfg, r => Bounded(g, longest, r));
      RunFits(client, Step(client, t, es[0], cfg), es[1..], g, longest, cfg);
    }
  }

  // ---------------------------------------------------------------------- no stream is refused

  /** What the receiver's decoder makes of these chunks. */
  ghost function Received(client: bool, g: RC.Config, chunks: seq<Bytes>): EndToEnd.Received {
    WF.FramesStable(WF.Role(!client, true));
    RC.SealedStable(g);
    var read := Feed(WF.Frames(WF.Role(!client, true)), WF.FRESH, [], chunks);
    RT.Session(RC.Sealed(g), g.max, RC.FRESH, [], WF.Messages(read.out))
  }

  lemma AllAccepted(reader: WF.Parser, decoder: Decoder, max: nat, t: Tunnel, largest: int, chunks: seq<Bytes>)
    requires Stable(reader) && Stable(decoder) && Arrived(reader, decoder, max, t, chunks)
    requires BodiesFit(t, largest) && largest <= max
    ensures var ms := WF.Messages(Feed(reader, WF.FRESH, [], chunks).out);
            RT.Session(decoder, max, RC.FRESH, [], ms).verdict.Accepted?
  {
    var ms := WF.Messages(Feed(reader, WF.FRESH, [], chunks).out);
    forall j | 0 <= j < |ms|
      ensures |ms[j]| <= max
    {
      assert ms[j] == Bodies(t.sender.batches)[j] == SQ.Data(t.sender.batches[j]);
    }
  }

  lemma BoundedSealed(g: RC.Config, longest: nat, q: seq<SQ.Queued>, es: seq<Event>)
    requires SQ.Every(r => Bounded(g, longest, r), q) && Makes(r => Bounded(g, longest, r), es)
    ensures SQ.Every(r => SealedMade(g, r), q) && Makes(r => SealedMade(g, r), es)
  {
  }

  /** While the largest message its sender can make fits the receiver's buffer, no honest stream is ever refused. */
  lemma CarrierAccepts(client: bool, t: Tunnel, es: seq<Event>, cfg: SQ.Config, g: RC.Config, longest: nat,
      chunks: seq<Bytes>)
    requires TunnelValid(client, t, cfg) && SQ.Every(r => Bounded(g, longest, r), t.sender.sent + t.sender.queue)
    requires BodiesFit(t, LargestMessage(cfg, longest)) && LargestMessage(cfg, longest) <= g.max
    requires SQ.Configured(cfg) && RC.Sound(g.crypto) && g.wire.PTT5?
    requires Runs(client, t, es, cfg) && Makes(r => Bounded(g, longest, r), es)
    requires Flatten(chunks) <= Run(client, t, es, cfg).link.wire
    ensures Received(client, g, chunks).verdict.Accepted?
  {
    hide TunnelValid, BodiesFit, LargestMessage, Arrived;
    BoundedSealed(g, longest, t.sender.sent + t.sender.queue, es);
    CarrierEndToEnd(client, t, es, cfg, g, chunks);
    RunFits(client, t, es, g, longest, cfg);
    AllAccepted(WF.Frames(WF.Role(!client, true)), RC.Sealed(g), g.max, Run(client, t, es, cfg),
      LargestMessage(cfg, longest), chunks);
  }

  // ---------------------------------------------------------------------- pieces of runs

  /** These events lead from one state to the other. */
  ghost predicate Leads(client: bool, t: Tunnel, es: seq<Event>, u: Tunnel, cfg: SQ.Config) {
    Runs(client, t, es, cfg) && Run(client, t, es, cfg) == u
  }

  lemma {:induction false} LeadsOn(client: bool, t: Tunnel, a: seq<Event>, u: Tunnel, b: seq<Event>, v: Tunnel,
      cfg: SQ.Config)
    requires Leads(client, t, a, u, cfg) && Leads(client, u, b, v, cfg)
    ensures Leads(client, t, a + b, v, cfg)
    decreases |a|
  {
    hide TunnelValid, Allowed, Step;
    if a == [] {
      assert a + b == b;
    } else {
      assert (a + b)[0] == a[0] && (a + b)[1..] == a[1..] + b;
      LeadsOn(client, Step(client, t, a[0], cfg), a[1..], u, b, v, cfg);
    }
  }

  lemma OneStep(client: bool, t: Tunnel, e: Event, cfg: SQ.Config)
    requires TunnelValid(client, t, cfg) && Allowed(t, e)
    ensures Leads(client, t, [e], Step(client, t, e, cfg), cfg)
  {
    hide TunnelValid, Allowed, Step;
    var next := Step(client, t, e, cfg);
    assert [e][1..] == [] && Runs(client, next, [], cfg);
    assert Run(client, next, [], cfg) == next;
  }

  lemma MakesMore(made: RT.Sent -> bool, a: seq<Event>, b: seq<Event>)
    requires Makes(made, a) && Makes(made, b)
    ensures Makes(made, a + b)
  {
  }

  // ---------------------------------------------------------------------- queueing records

  function Adds(qs: seq<SQ.Queued>): seq<Event> {
    seq(|qs|, i requires 0 <= i < |qs| => Queue(SQ.Add(qs[i])))
  }

  predicate Consecutive(qs: seq<SQ.Queued>, first: nat) {
    forall i :: 0 <= i < |qs| ==> SQ.Serial(qs[i]) == first + i && SQ.Size(qs[i]) > 0
  }

  /** There is room for these records behind those queued. */
  predicate RoomFor(s: SQ.Sender, qs: seq<SQ.Queued>, cfg: SQ.Config) {
    |s.queue| + |qs| <= cfg.queuePackets && SQ.Total(s.queue) + SQ.Total(qs) <= cfg.queueBytes
  }

  /** The same connection and messages, with these records queued. */
  predicate Loaded(t: Tunnel, u: Tunnel, qs: seq<SQ.Queued>) {
    && u.link == t.link && u.sender.batches == t.sender.batches
    && u.sender.queue == t.sender.queue + qs && u.sender.sequence == t.sender.sequence + |qs|
  }

  /** A record for which there is room is queued. */
  lemma AddOne(client: bool, t: Tunnel, x: SQ.Queued, cfg: SQ.Config)
    requires TunnelValid(client, t, cfg) && SQ.Serial(x) == t.sender.sequence && SQ.Size(x) > 0
    requires |t.sender.queue| < cfg.queuePackets && SQ.Total(t.sender.queue) + SQ.Size(x) <= cfg.queueBytes
    ensures Allowed(t, Queue(SQ.Add(x)))
    ensures var u := Step(client, t, Queue(SQ.Add(x)), cfg); TunnelValid(client, u, cfg) && Loaded(t, u, [x])
  {
    StepKeeps(client, t, Queue(SQ.Add(x)), cfg);
    assert !SQ.Full(t.sender, SQ.Size(x), cfg);
  }

  lemma OneLess(s: SQ.Sender, qs: seq<SQ.Queued>, s': SQ.Sender, cfg: SQ.Config)
    requires qs != [] && RoomFor(s, qs, cfg) && s'.queue == s.queue + [qs[0]]
    ensures |s.queue| < cfg.queuePackets && SQ.Total(s.queue) + SQ.Size(qs[0]) <= cfg.queueBytes
    ensures RoomFor(s', qs[1..], cfg)
  {
    SQ.TotalAppend(s.queue, [qs[0]]);
    assert [qs[0]][1..] == [] && SQ.Total([qs[0]]) == SQ.Size(qs[0]) + SQ.Total([]);
  }

  lemma {:induction false} AddAll(client: bool, t: Tunnel, qs: seq<SQ.Queued>, cfg: SQ.Config) returns (u: Tunnel)
    requires TunnelValid(client, t, cfg) && Consecutive(qs, t.sender.sequence) && RoomFor(t.sender, qs, cfg)
    ensures Leads(client, t, Adds(qs), u, cfg) && TunnelValid(client, u, cfg) && Loaded(t, u, qs)
    decreases |qs|
  {
    hide TunnelValid, Allowed, Step, RoomFor, Leads;
    if qs == [] {
      u := t;
      NoSteps(client, t, cfg);
      assert Adds(qs) == [] && t.sender.queue + qs == t.sender.queue;
    } else {
      var x := qs[0];
      OneLess(t.sender, qs, t.sender.(queue := t.sender.queue + [x]), cfg);
      AddOne(client, t, x, cfg);
      var next := Step(client, t, Queue(SQ.Add(x)), cfg);
      OneLess(t.sender, qs, next.sender, cfg);
      u := AddAll(client, next, qs[1..], cfg);
      OneStep(client, t, Queue(SQ.Add(x)), cfg);
      LeadsOn(client, t, [Queue(SQ.Add(x))], next, Adds(qs[1..]), u, cfg);
      assert Adds(qs) == [Queue(SQ.Add(x))] + Adds(qs[1..]);
      assert t.sender.queue + [x] + qs[1..] == t.sender.queue + qs;
    }
  }

  lemma NoSteps(client: bool, t: Tunnel, cfg: SQ.Config)
    ensures Leads(client, t, [], t, cfg)
  {
  }

  // ---------------------------------------------------------------------- sending them in one message

  /** The whole queue goes into one message if both its limits allow it. */
  lemma AllGathered(q: seq<SQ.Queued>, limit: int, cfg: SQ.Config)
    requires SQ.Total(q) <= cfg.batchBytes && |q| <= Max(1, limit)
    ensures SQ.Gathered(q, 0, 0, limit, cfg) == |q|
  {
    SQ.GatheredMeaning(q, 0, 0, limit, cfg);
    var k := SQ.Gathered(q, 0, 0, limit, cfg);
    if k < |q| {
      TotalPart(q, k + 1);
    }
  }

  /** How much a message adds to an empty transmit queue. */
  lemma QueuedSize(client: bool, t: Tunnel, send: WS.Send, cfg: SQ.Config)
    requires TunnelValid(client, t, cfg) && t.link.tx.frames == []
    requires send.opcode == WF.BINARY && |send.payload| <= cfg.batchBytes
    ensures WS.Sendable(send) && WS.LinkStep(client, t.link, WS.Submit(send)).tx.queued <= cfg.batchBytes + 14
  {
    MessageFits(client, t.link, send);
    FrameSize(WS.FrameOf(client, send));
    assert t.link.tx.queued == |WS.Pending(t.link.tx.frames)| == 0;
  }

  /** One message of all that was queued is on its way. */
  predicate Sending(t: Tunnel, u: Tunnel, cfg: SQ.Config) {
    && u.sender.batches == t.sender.batches + [t.sender.queue] && u.sender.queue == []
    && u.sender.sequence == t.sender.sequence && u.link.tx.queued <= cfg.batchBytes + 14
  }

  lemma FlushAll(client: bool, t: Tunnel, now: int, drawn: WF.Mask, cfg: SQ.Config)
    requires TunnelValid(client, t, cfg) && t.link.tx.frames == []
    requires 0 < SQ.Total(t.sender.queue) <= cfg.batchBytes
    requires |t.sender.queue| <= Max(1, SQ.BatchLimit(t.sender.queue, cfg, now))
    ensures Sending(t, Step(client, t, Flush(now, drawn), cfg), cfg)
  {
    hide TunnelValid, WF.Printed, SQ.BatchLimit, WS.LinkStep;
    var q, limit := t.sender.queue, SQ.BatchLimit(t.sender.queue, cfg, now);
    AllGathered(q, limit, cfg);
    DataSize(q);
    assert q[..|q|] == q && q[|q|..] == [];
    QueuedSize(client, t, WS.Send(WF.BINARY, Message(t.sender, limit, cfg), drawn), cfg);
  }

  lemma NothingPending(tx: WS.Tx)
    requires WS.TxValid(tx) && tx.queued == 0
    ensures tx.frames == []
  {
  }

  lemma AllMoves(client: bool, l: WS.Link, n: nat)
    requires WS.LinkValid(client, l) && n >= l.tx.queued
    ensures WS.LinkStep(client, l, WS.Move(n)).tx.frames == []
  {
    assert WS.TxValid(l.tx);
    hide WS.LinkValid, WS.TxValid, WS.Moved, WS.Pending;
    WS.MovedRest(l.tx, l.tx.queued);
    NothingPending(WS.Moved(l.tx, l.tx.queued));
  }

  /** All that waits in the transmit queue goes out. */
  lemma MovedOut(client: bool, t: Tunnel, n: nat, cfg: SQ.Config)
    requires TunnelValid(client, t, cfg) && n >= t.link.tx.queued
    ensures var u := Step(client, t, Move(n), cfg);
            TunnelValid(client, u, cfg) && u.link.tx.frames == [] && u.sender == t.sender
  {
    hide WS.LinkValid, WS.LinkStep;
    AllMoves(client, t.link, n);
    StepKeeps(client, t, Move(n), cfg);
  }

  /** A check for late records that finds none. */
  lemma NoneLate(client: bool, t: Tunnel, now: int, cfg: SQ.Config)
    requires TunnelValid(client, t, cfg) && t.sender.queue != [] && !SQ.IsLate(t.sender.queue[0], now, cfg)
    ensures Allowed(t, Queue(SQ.Late(now))) && Step(client, t, Queue(SQ.Late(now)), cfg) == t
  {
  }

  // ---------------------------------------------------------------------- a run that is refused

  /** One record is sent at once; the others are queued while the connection takes nothing, wait together until `now`,
      and go into one message. */
  function Overfull(q: SQ.Queued, qs: seq<SQ.Queued>, now: int, drawn: WF.Mask, cfg: SQ.Config): seq<Event> {
    var all := Move(cfg.batchBytes + 14);
    Adds([q]) + [Flush(0, drawn)] + Adds(qs) + [all] + [Queue(SQ.Late(now))] + [Flush(now, drawn)] + [all]
  }

  /** Records the sender can queue and put into one message that is longer than so many bytes, at a time when the first
      has waited for the target delay and is not late. */
  predicate Together(q: SQ.Queued, qs: seq<SQ.Queued>, now: int, cfg: SQ.Config, max: nat) {
    && SQ.Serial(q) == 1 && 0 < SQ.Size(q) <= Min(cfg.batchBytes, cfg.queueBytes)
    && Consecutive(qs, 2) && 0 < |qs| <= Min(Max(1, SQ.MostRecords(cfg)), cfg.queuePackets)
    && max < SQ.Total(qs) <= Min(cfg.batchBytes, cfg.queueBytes)
    && (cfg.adaptive ==> now - qs[0].enqueued >= cfg.targetDelay) && !SQ.IsLate(qs[0], now, cfg)
  }

  /** The first record is under way, the queue is empty again. */
  lemma FirstSent(client: bool, q: SQ.Queued, drawn: WF.Mask, cfg: SQ.Config) returns (t: Tunnel)
    requires SQ.Serial(q) == 1 && 0 < SQ.Size(q) <= Min(cfg.batchBytes, cfg.queueBytes)
    requires cfg.queuePackets > 0 && cfg.batchBytes <= WF.MAX_MESSAGE
    ensures Leads(client, FRESH, Adds([q]) + [Flush(0, drawn)], t, cfg) && TunnelValid(client, t, cfg)
    ensures t.sender.queue == [] && t.sender.batches == [[q]] && t.sender.sequence == 2
    ensures t.link.tx.queued <= cfg.batchBytes + 14
  {
    hide TunnelValid, Leads, Step;
    OneRecord(q);
    FreshValid(client, cfg);
    var u := AddAll(client, FRESH, [q], cfg);
    assert u.sender.queue == [q];
    FlushAll(client, u, 0, drawn, cfg);
    OneStep(client, u, Flush(0, drawn), cfg);
    StepKeeps(client, u, Flush(0, drawn), cfg);
    t := Step(client, u, Flush(0, drawn), cfg);
    LeadsOn(client, FRESH, Adds([q]), u, [Flush(0, drawn)], t, cfg);
  }

  lemma OneRecord(q: SQ.Queued)
    ensures SQ.Total([q]) == SQ.Size(q) && SQ.Total([]) == 0
  {
    assert [q][1..] == [];
  }

  /** What was queued behind a busy connection goes out as one message once it is free. */
  lemma RestSent(client: bool, t: Tunnel, now: int, drawn: WF.Mask, cfg: SQ.Config) returns (u: Tunnel)
    requires TunnelValid(client, t, cfg) && t.link.tx.queued <= cfg.batchBytes + 14
    requires t.sender.queue != [] && !SQ.IsLate(t.sender.queue[0], now, cfg)
    requires 0 < SQ.Total(t.sender.queue) <= cfg.batchBytes
    requires |t.sender.queue| <= Max(1, SQ.BatchLimit(t.sender.queue, cfg, now))
    ensures var all := Move(cfg.batchBytes + 14);
            Leads(client, t, [all] + [Queue(SQ.Late(now))] + [Flush(now, drawn)] + [all], u, cfg)
    ensures u.link.tx.frames == [] && u.sender.batches == t.sender.batches + [t.sender.queue]
  {
    hide TunnelValid, Leads, Step, SQ.Total, SQ.BatchLimit;
    var all, late, flush := Move(cfg.batchBytes + 14), Queue(SQ.Late(now)), Flush(now, drawn);
    MovedOut(client, t, cfg.batchBytes + 14, cfg);
    OneStep(client, t, all, cfg);
    var free := Step(client, t, all, cfg);
    NoneLate(client, free, now, cfg);
    OneStep(client, free, late, cfg);
    LeadsOn(client, t, [all], free, [late], free, cfg);
    FlushAll(client, free, now, drawn, cfg);
    OneStep(client, free, flush, cfg);
    StepKeeps(client, free, flush, cfg);
    var busy := Step(client, free, flush, cfg);
    LeadsOn(client, t, [all] + [late], free, [flush], busy, cfg);
    MovedOut(client, busy, cfg.batchBytes + 14, cfg);
    OneStep(client, busy, all, cfg);
    u := Step(client, busy, all, cfg);
    LeadsOn(client, t, [all] + [late] + [flush], busy, [all], u, cfg);
  }

  lemma OverfullRuns(client: bool, q: SQ.Queued, qs: seq<SQ.Queued>, now: int, drawn: WF.Mask, cfg: SQ.Config, max: nat)
    returns (u: Tunnel)
    requires Together(q, qs, now, cfg, max) && SQ.Configured(cfg) && cfg.batchBytes <= WF.MAX_MESSAGE
    ensures Leads(client, FRESH, Overfull(q, qs, now, drawn, cfg), u, cfg)
    ensures u.link.tx.frames == [] && u.sender.batches == [[q], qs]
  {
    hide TunnelValid, Leads, Step, Adds, SQ.BatchLimit;
    var all := Move(cfg.batchBytes + 14);
    var front := Adds([q]) + [Flush(0, drawn)];
    var back := [all] + [Queue(SQ.Late(now))] + [Flush(now, drawn)] + [all];
    var s := FirstSent(client, q, drawn, cfg);
    assert s.sender.queue + qs == qs;
    OneRecord(q);
    var t := AddAll(client, s, qs, cfg);
    LeadsOn(client, FRESH, front, s, Adds(qs), t, cfg);
    SQ.LimitMeaning(qs, cfg, now);
    LimitReached(qs, cfg, now);
    u := RestSent(client, t, now, drawn, cfg);
    LeadsOn(client, FRESH, front + Adds(qs), t, back, u, cfg);
    assert front + Adds(qs) + back == Overfull(q, qs, now, drawn, cfg);
    assert [[q]] + [qs] == [[q], qs];
  }

  lemma LimitReached(qs: seq<SQ.Queued>, cfg: SQ.Config, now: int)
    requires SQ.Configured(cfg) && qs != [] && (cfg.adaptive ==> now - qs[0].enqueued >= cfg.targetDelay)
    ensures SQ.BatchLimit(qs, cfg, now) == SQ.MostRecords(cfg)
  {
  }

  lemma OverfullMakes(made: RT.Sent -> bool, q: SQ.Queued, qs: seq<SQ.Queued>, now: int, drawn: WF.Mask, cfg: SQ.Config)
    requires made(q.record) && SQ.Every(made, qs)
    ensures Makes(made, Overfull(q, qs, now, drawn, cfg))
  {
    var all, late, flush := Move(cfg.batchBytes + 14), Queue(SQ.Late(now)), Flush(now, drawn);
    assert Makes(made, Adds([q])) && Makes(made, Adds(qs)) && Makes(made, [all]) && Makes(made, [late]);
    assert Makes(made, [Flush(0, drawn)]) && Makes(made, [flush]);
    hide Makes, Adds;
    var es := Adds([q]) + [Flush(0, drawn)];
    MakesMore(made, Adds([q]), [Flush(0, drawn)]);
    MakesMore(made, es, Adds(qs));
    MakesMore(made, es + Adds(qs), [all]);
    MakesMore(made, es + Adds(qs) + [all], [late]);
    MakesMore(made, es + Adds(qs) + [all] + [late], [flush]);
    MakesMore(made, es + Adds(qs) + [all] + [late] + [flush], [all]);
  }

  lemma OneChunk(b: Bytes)
    ensures Flatten([b]) == b
  {
    assert [b][1..] == [];
    assert b + [] == b;
  }

  /** A message too long for the receiver, once all is there, ends the stream. */
  lemma OverlongRefused(reader: WF.Parser, decoder: Decoder, max: nat, t: Tunnel, j: nat)
    requires Stable(reader) && Stable(decoder) && Arrived(reader, decoder, max, t, [t.link.wire])
             && t.link.tx.frames == []
    requires j < |t.sender.batches| && |SQ.Data(t.sender.batches[j])| > max
    ensures var ms := WF.Messages(Feed(reader, WF.FRESH, [], [t.link.wire]).out);
            RT.Session(decoder, max, RC.FRESH, [], ms).verdict == Refused(RC.BufferLimit)
  {
    OneChunk(t.link.wire);
    var ms := WF.Messages(Feed(reader, WF.FRESH, [], [t.link.wire]).out);
    assert ms == Bodies(t.sender.batches);
    assert |ms[j]| > max;
  }

  /** Records of which each fits the receiver's buffer, put into one message that does not, end an honest stream. */
  lemma CarrierCanRefuse(client: bool, q: SQ.Queued, qs: seq<SQ.Queued>, now: int, drawn: WF.Mask, cfg: SQ.Config,
      g: RC.Config)
    requires RC.Sound(g.crypto) && g.wire.PTT5? && SealedMade(g, q.record) && SQ.Every(r => SealedMade(g, r), qs)
    requires Together(q, qs, now, cfg, g.max) && SQ.Configured(cfg) && cfg.batchBytes <= WF.MAX_MESSAGE
    ensures var es := Overfull(q, qs, now, drawn, cfg);
            && Runs(client, FRESH, es, cfg) && Makes(r => SealedMade(g, r), es)
            && Received(client, g, [Run(client, FRESH, es, cfg).link.wire]).verdict == Refused(RC.BufferLimit)
  {
    var es := Overfull(q, qs, now, drawn, cfg);
    OverfullMakes(r => SealedMade(g, r), q, qs, now, drawn, cfg);
    FreshValid(client, cfg);
    var t := OverfullRuns(client, q, qs, now, drawn, cfg, g.max);
    hide TunnelValid, Runs, Run, Overfull, Makes, Arrived, SQ.Every, SQ.Data, SealedMade;
    OneChunk(t.link.wire);
    NothingQueued(g);
    CarrierEndToEnd(client, FRESH, es, cfg, g, [t.link.wire]);
    DataSize(qs);
    OverlongRefused(WF.Frames(WF.Role(!client, true)), RC.Sealed(g), g.max, t, 1);
  }

  lemma NothingQueued(g: RC.Config)
    ensures SQ.Every(r => SealedMade(g, r), FRESH.sender.sent + FRESH.sender.queue)
  {
  }

  // ---------------------------------------------------------------------- records for it

  /** A packet as a data record. */
  lemma RecordOf(g: RC.Config, number: nat, payload: Bytes) returns (q: SQ.Queued)
    requires RC.Sound(g.crypto) && g.wire.PTT5? && |g.key| == 32 && 0 < number < TWO_64
    requires 20 <= |payload| <= 65535 && |payload| + 32 <= g.max
    ensures q.record.out == RC.Delivered(0, number, payload) && SQ.Size(q) == |payload| + 32
    ensures SealedMade(g, q.record) && q.enqueued == 0 && q.payload
  {
    RT.EncoderShape(g.crypto, g.key, number, payload, RT.Plain(0));
    RT.EncodedLength(g.crypto, g.key, number, payload, RT.Plain(0));
    var bytes := RT.Encode(g.crypto, g.key, number, payload, RT.Plain(0)).value;
    var r := RT.Sent(bytes, RC.Delivered(0, number, payload));
    assert SealedAs(g, r, RT.Plain(0));
    q := SQ.Queued(r, 0, true);
  }

  /** A data record of just this size. */
  lemma RecordOfSize(g: RC.Config, number: nat, size: nat) returns (q: SQ.Queued)
    requires RC.Sound(g.crypto) && g.wire.PTT5? && |g.key| == 32 && 0 < number < TWO_64
    requires 52 <= size <= 65567 && size <= g.max
    ensures SQ.Serial(q) == number && SQ.Size(q) == size && SealedMade(g, q.record) && q.enqueued == 0
  {
    q := RecordOf(g, number, seq(size - 32, _ => 0));
  }

  /** The fewest records of at most `longest` bytes that have this size in all, numbered from here on. */
  lemma {:induction false} RecordsOfSize(g: RC.Config, number: nat, size: nat, longest: nat)
    returns (qs: seq<SQ.Queued>)
    requires RC.Sound(g.crypto) && g.wire.PTT5? && |g.key| == 32 && 0 < number && number + size <= TWO_64
    requires 104 <= longest <= g.max && longest <= 65567 && 52 <= size
    ensures Consecutive(qs, number) && SQ.Total(qs) == size && SQ.Every(r => Bounded(g, longest, r), qs)
    ensures qs != [] && qs[0].enqueued == 0 && (|qs| - 1) * longest < size
    decreases size
  {
    hide SealedMade, RC.Sound;
    if size <= longest {
      var q := RecordOfSize(g, number, size);
      qs := [q];
      OneRecord(q);
    } else {
      var first := if size <= 2 * longest then size / 2 else longest;
      var q := RecordOfSize(g, number, first);
      var rest := RecordsOfSize(g, number + 1, size - first, longest);
      qs := [q] + rest;
      assert qs[1..] == rest;
      OneMore(|rest|, longest, size, first);
    }
  }

  lemma OneMore(n: nat, longest: nat, size: nat, first: nat)
    requires first == (if size <= 2 * longest then size / 2 else longest) && longest < size && longest > 0
    requires n > 0 && (n - 1) * longest < size - first
    ensures n * longest < size
  {
    assert n * longest == (n - 1) * longest + longest;
    if size <= 2 * longest {
      assert (n - 1) * longest < longest;
      assert n == 1;
    }
  }

  // ---------------------------------------------------------------------- the exact condition

  lemma FewEnough(n: nat, most: nat, longest: nat, max: nat)
    requires (n - 1) * longest < max + 1 <= most * longest && longest > 0
    ensures n <= most
  {
    if n > most {
      Product(most, n - 1, longest);
    }
  }

  /** As soon as the largest message is longer than the receiver's buffer, some run of an honest sender is refused. */
  lemma LongerMessageRefused(client: bool, drawn: WF.Mask, cfg: SQ.Config, g: RC.Config, longest: nat)
    returns (es: seq<Event>)
    requires RC.Sound(g.crypto) && g.wire.PTT5? && |g.key| == 32
    requires SQ.Configured(cfg) && cfg.batchBytes <= WF.MAX_MESSAGE && 104 <= longest <= g.max && longest <= 65567
    requires LargestMessage(cfg, longest) > g.max
    ensures Runs(client, FRESH, es, cfg) && Makes(r => Bounded(g, longest, r), es)
    ensures Received(client, g, [Run(client, FRESH, es, cfg).link.wire]).verdict == Refused(RC.BufferLimit)
  {
    hide SealedMade, Runs, Run, Received, SQ.Total, Consecutive, SQ.Every, Makes, Overfull;
    var most := Min(Max(1, SQ.MostRecords(cfg)), Max(1, cfg.queuePackets));
    var q := RecordOfSize(g, 1, 52);
    var qs := RecordsOfSize(g, 2, g.max + 1, longest);
    FewEnough(|qs|, most, longest, g.max);
    if cfg.queuePackets == 0 {
      Product(most, 1, longest);
    }
    BoundedSealed(g, longest, qs, []);
    var now := if cfg.adaptive then cfg.targetDelay else 0;
    es := Overfull(q, qs, now, drawn, cfg);
    CarrierCanRefuse(client, q, qs, now, drawn, cfg, g);
    OverfullMakes(r => Bounded(g, longest, r), q, qs, now, drawn, cfg);
  }

  /** An honest run of which something arrives that the receiver refuses. */
  ghost predicate RefusedRun(client: bool, cfg: SQ.Config, g: RC.Config, longest: nat, es: seq<Event>,
      chunks: seq<Bytes>)
  {
    && Runs(client, FRESH, es, cfg) && Makes(r => Bounded(g, longest, r), es)
    && Flatten(chunks) <= Run(client, FRESH, es, cfg).link.wire
    && Received(client, g, chunks).verdict.Refused?
  }

  /** The exact condition, on what is configured: with records of at most `longest` bytes some honest run is refused if
      and only if the largest message is longer than the receiver's buffer. */
  lemma CarrierExact(client: bool, cfg: SQ.Config, g: RC.Config, longest: nat)
    requires RC.Sound(g.crypto) && g.wire.PTT5? && |g.key| == 32
    requires SQ.Configured(cfg) && cfg.batchBytes <= WF.MAX_MESSAGE && 104 <= longest <= g.max && longest <= 65567
    ensures LargestMessage(cfg, longest) > g.max <==>
              exists es: seq<Event>, chunks: seq<Bytes> :: RefusedRun(client, cfg, g, longest, es, chunks)
  {
    hide LargestMessage, Makes, Runs, Run, Received;
    if LargestMessage(cfg, longest) > g.max {
      var es := LongerMessageRefused(client, [0, 0, 0, 0], cfg, g, longest);
      OneChunk(Run(client, FRESH, es, cfg).link.wire);
      assert RefusedRun(client, cfg, g, longest, es, [Run(client, FRESH, es, cfg).link.wire]);
    } else {
      forall es: seq<Event>, chunks: seq<Bytes> | RefusedRun(client, cfg, g, longest, es, chunks)
        ensures false
      {
        FreshAccepted(client, es, cfg, g, longest, chunks);
      }
    }
  }

  lemma FreshAccepted(client: bool, es: seq<Event>, cfg: SQ.Config, g: RC.Config, longest: nat, chunks: seq<Bytes>)
    requires SQ.Configured(cfg) && cfg.batchBytes <= WF.MAX_MESSAGE && RC.Sound(g.crypto) && g.wire.PTT5?
    requires LargestMessage(cfg, longest) <= g.max
    requires Runs(client, FRESH, es, cfg) && Makes(r => Bounded(g, longest, r), es)
    requires Flatten(chunks) <= Run(client, FRESH, es, cfg).link.wire
    ensures Received(client, g, chunks).verdict.Accepted?
  {
    hide TunnelValid, LargestMessage, Makes, Runs, Run, Received;
    FreshValid(client, cfg);
    assert BodiesFit(FRESH, LargestMessage(cfg, longest));
    assert FRESH.sender.sent + FRESH.sender.queue == [];
    CarrierAccepts(client, FRESH, es, cfg, g, longest, chunks);
  }
}
