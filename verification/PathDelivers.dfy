/** Packets do get through: for any list of packets there is a run of the sending side after which the other end has
    delivered all of them, in their order and to the last byte. */
module PathDelivers {
  import opened Bytes
  import opened Incremental
  import CL = CarrierLimits
  import CT = CarrierTunnel
  import EE = EndToEnd
  import FQ = FlowQueue
  import PP = PacketPath
  import RC = RecordCodec
  import RT = RecordTheorems
  import SQ = SendQueue
  import WF = WsFrames
  import WS = WsSession
  import opened PacketFlow

  /** The events lead from one state of the path to the other. */
  ghost predicate Leads(client: bool, p: PP.Path, es: seq<PP.Event>, q: PP.Path, cfg: SQ.Config) {
    PP.Runs(client, p, es, cfg) && PP.Run(client, p, es, cfg) == q
  }

  lemma OneStep(client: bool, p: PP.Path, e: PP.Event, cfg: SQ.Config)
    requires CT.TunnelValid(client, p.tunnel, cfg) && PP.Allowed(p, e)
    ensures Leads(client, p, [e], PP.Step(client, p, e, cfg), cfg)
  {
    hide PP.Step, PP.Allowed, CT.TunnelValid;
    var next := PP.Step(client, p, e, cfg);
    assert [e][1..] == [] && PP.Runs(client, next, [], cfg);
    assert PP.Run(client, next, [], cfg) == next;
  }

  lemma {:induction false} LeadsOn(client: bool, p: PP.Path, a: seq<PP.Event>, q: PP.Path, b: seq<PP.Event>,
      r: PP.Path, cfg: SQ.Config)
    requires Leads(client, p, a, q, cfg) && Leads(client, q, b, r, cfg)
    ensures Leads(client, p, a + b, r, cfg)
    decreases |a|
  {
    hide PP.Step, PP.Allowed, CT.TunnelValid;
    if a == [] {
      assert a + b == b;
    } else {
      assert (a + b)[0] == a[0] && (a + b)[1..] == a[1..] + b;
      LeadsOn(client, PP.Step(client, p, a[0], cfg), a[1..], q, b, r, cfg);
    }
  }

  /** Nothing waits anywhere, and every message so far fits the receiver. */
  ghost predicate Idle(client: bool, p: PP.Path, cfg: SQ.Config, max: nat) {
    && CT.TunnelValid(client, p.tunnel, cfg) && p.waiting == FQ.EMPTY
    && p.tunnel.sender.queue == [] && p.tunnel.link.tx.frames == [] && CL.BodiesFit(p.tunnel, max)
  }

  /** What a packet must be to be carried at all: an inner packet, within the limits of the queues, of a message and of
      the receiver. */
  predicate Carried(packet: Bytes, cfg: SQ.Config, g: RC.Config) {
    && 20 <= |packet| <= 65535 && |packet| + 64 <= cfg.queueBytes && cfg.queuePackets > 0
    && |packet| + 32 <= cfg.batchBytes <= WF.MAX_MESSAGE && |packet| + 32 <= g.max
  }

  lemma EmptyIdle(client: bool, cfg: SQ.Config, max: nat)
    requires cfg.batchBytes <= WF.MAX_MESSAGE
    ensures Idle(client, PP.EMPTY, cfg, max)
  {
    CT.FreshValid(client, cfg);
  }

  /** The packet joins an empty flow queue, and is the next to leave it. */
  lemma ReadOne(client: bool, p: PP.Path, packet: Bytes, cfg: SQ.Config, g: RC.Config)
    requires Idle(client, p, cfg, g.max) && Carried(packet, cfg, g)
    ensures var q := PP.Step(client, p, PP.Read(packet, 0), cfg);
            && q.tunnel == p.tunnel && FQ.TakeNext(q.waiting).Popped?
            && FQ.TakeNext(q.waiting).packet.bytes == packet && FQ.TakeNext(q.waiting).rest == FQ.EMPTY
  {
    hide CT.TunnelValid, FQ.Valid, FQ.WithPacket, FQ.TakeNext, FQ.Contents, FlowKey, CL.BodiesFit;
    NoneQueued(client, p.tunnel, cfg);
    PP.EmptyQueue(FlowKey(packet));
    FQ.PushMeaning(FQ.EMPTY, packet, 0, cfg.queuePackets, cfg.queueBytes, FlowKey(packet));
    var w := FQ.WithPacket(FQ.EMPTY, packet, 0, cfg.queuePackets, cfg.queueBytes);
    FQ.PopMeaning(w, FlowKey(packet));
    var key := FlowKey(FQ.TakeNext(w).packet.bytes);
    PP.EmptyQueue(key);
    FQ.PushMeaning(FQ.EMPTY, packet, 0, cfg.queuePackets, cfg.queueBytes, key);
    Emptied(FQ.TakeNext(w).rest);
  }

  lemma NoneQueued(client: bool, t: CT.Tunnel, cfg: SQ.Config)
    requires CT.TunnelValid(client, t, cfg) && t.sender.queue == []
    ensures t.sender.queuedBytes == 0
  {
  }

  lemma Emptied(q: FQ.Q)
    requires FQ.Valid(q) && q.packets == 0
    ensures q == FQ.EMPTY
  {
  }

  /** Its record is all that waits to be sent. */
  lemma DrainOne(client: bool, p: PP.Path, x: SQ.Queued, packet: Bytes, cfg: SQ.Config)
    requires CT.TunnelValid(client, p.tunnel, cfg) && p.tunnel.sender.queue == []
    requires FQ.TakeNext(p.waiting).Popped? && FQ.TakeNext(p.waiting).packet.bytes == packet
    requires x.payload && x.enqueued == 0 && x.record.out == RC.Delivered(0, p.tunnel.sender.sequence, packet)
    requires 0 < SQ.Size(x) <= cfg.queueBytes && cfg.queuePackets > 0
    ensures PP.Allowed(p, PP.Drain(x.record, 0))
    ensures var q := PP.Step(client, p, PP.Drain(x.record, 0), cfg);
            && CT.TunnelValid(client, q.tunnel, cfg) && q.waiting == FQ.TakeNext(p.waiting).rest
            && CL.Loaded(p.tunnel, q.tunnel, [x]) && q.tunnel.sender.sent == p.tunnel.sender.sent
  {
    hide CT.TunnelValid, FQ.TakeNext;
    CL.OneRecord(x);
    CL.AddOne(client, p.tunnel, x, cfg);
    AddSent(client, p.tunnel, x, cfg);
    assert x == SQ.Queued(x.record, 0, true);
  }

  lemma AddSent(client: bool, t: CT.Tunnel, x: SQ.Queued, cfg: SQ.Config)
    requires CT.TunnelValid(client, t, cfg) && CT.Allowed(t, CT.Queue(SQ.Add(x)))
    ensures CT.Step(client, t, CT.Queue(SQ.Add(x)), cfg).sender.sent == t.sender.sent
  {
    SQ.OfferTouches(t.sender, x, cfg);
  }

  /** It goes into a message of its own, and all of that goes out. */
  lemma SendOne(client: bool, t: CT.Tunnel, x: SQ.Queued, drawn: WF.Mask, max: nat, cfg: SQ.Config)
    requires CT.TunnelValid(client, t, cfg) && t.sender.queue == [x] && t.link.tx.frames == []
    requires 0 < SQ.Size(x) <= Min(cfg.batchBytes, max) && CL.BodiesFit(t, max)
    ensures var u := CT.Step(client, t, CT.Flush(0, drawn), cfg);
            && CT.TunnelValid(client, u, cfg)
            && var v := CT.Step(client, u, CT.Move(cfg.batchBytes + 14), cfg);
            && CT.TunnelValid(client, v, cfg) && v.sender.queue == [] && v.link.tx.frames == [] && CL.BodiesFit(v, max)
            && v.sender.sent == t.sender.sent + [x] && v.sender.sequence == t.sender.sequence
  {
    hide CT.TunnelValid, CT.Step, SQ.BatchLimit;
    CL.OneRecord(x);
    CL.FlushAll(client, t, 0, drawn, cfg);
    CT.StepKeeps(client, t, CT.Flush(0, drawn), cfg);
    var u := CT.Step(client, t, CT.Flush(0, drawn), cfg);
    BatchSent(client, t, u, x, cfg);
    OneMoreFits(t, u, x, max);
    CL.MovedOut(client, u, cfg.batchBytes + 14, cfg);
  }

  /** What was sent are the records of the messages. */
  lemma BatchSent(client: bool, t: CT.Tunnel, u: CT.Tunnel, x: SQ.Queued, cfg: SQ.Config)
    requires CT.TunnelValid(client, t, cfg) && CT.TunnelValid(client, u, cfg)
    requires u.sender.batches == t.sender.batches + [[x]]
    ensures u.sender.sent == t.sender.sent + [x]
  {
    var n := |t.sender.batches|;
    assert u.sender.batches[..n] == t.sender.batches;
    assert SQ.Joined(u.sender.batches) == SQ.Joined(t.sender.batches) + [x];
  }

  lemma OneMoreFits(t: CT.Tunnel, u: CT.Tunnel, x: SQ.Queued, max: nat)
    requires CL.BodiesFit(t, max) && u.sender.batches == t.sender.batches + [[x]] && SQ.Size(x) <= max
    ensures CL.BodiesFit(u, max)
  {
    CL.OneRecord(x);
    CT.DataSize([x]);
  }

  /** The events that carry one packet across. */
  function Carry(record: RT.Sent, packet: Bytes, drawn: WF.Mask, cfg: SQ.Config): seq<PP.Event> {
    [PP.Read(packet, 0)] + [PP.Drain(record, 0)] + [PP.Other(CT.Flush(0, drawn))]
    + [PP.Other(CT.Move(cfg.batchBytes + 14))]
  }

  lemma {:induction false} CarryOne(client: bool, p: PP.Path, packet: Bytes, drawn: WF.Mask, cfg: SQ.Config,
      g: RC.Config)
    returns (x: SQ.Queued, q: PP.Path)
    requires Idle(client, p, cfg, g.max) && Carried(packet, cfg, g) && 0 < p.tunnel.sender.sequence < TWO_64
    requires RC.Sound(g.crypto) && g.wire.PTT5? && |g.key| == 32
    ensures Leads(client, p, Carry(x.record, packet, drawn, cfg), q, cfg) && Idle(client, q, cfg, g.max)
    ensures x.record.out == RC.Delivered(0, p.tunnel.sender.sequence, packet) && CT.SealedMade(g, x.record)
    ensures q.tunnel.sender.sent == p.tunnel.sender.sent + [x]
    ensures q.tunnel.sender.sequence == p.tunnel.sender.sequence + 1
  {
    hide CT.TunnelValid, FQ.TakeNext, FQ.WithPacket, CT.SealedMade, Leads, CL.BodiesFit, CT.Step;
    x := CL.RecordOf(g, p.tunnel.sender.sequence, packet);
    var read, drain := PP.Read(packet, 0), PP.Drain(x.record, 0);
    var flush, move := PP.Other(CT.Flush(0, drawn)), PP.Other(CT.Move(cfg.batchBytes + 14));
    ReadOne(client, p, packet, cfg, g);
    OneStep(client, p, read, cfg);
    var a := PP.Step(client, p, read, cfg);
    DrainOne(client, a, x, packet, cfg);
    OneStep(client, a, drain, cfg);
    var b := PP.Step(client, a, drain, cfg);
    assert b.tunnel.sender.queue == [x] && b.waiting == FQ.EMPTY;
    SameFits(a.tunnel, b.tunnel, g.max);
    SendOne(client, b.tunnel, x, drawn, g.max, cfg);
    OneStep(client, b, flush, cfg);
    var c := PP.Step(client, b, flush, cfg);
    OneStep(client, c, move, cfg);
    q := PP.Step(client, c, move, cfg);
    LeadsOn(client, p, [read], a, [drain], b, cfg);
    LeadsOn(client, p, [read] + [drain], b, [flush], c, cfg);
    LeadsOn(client, p, [read] + [drain] + [flush], c, [move], q, cfg);
  }

  lemma SameFits(t: CT.Tunnel, u: CT.Tunnel, max: nat)
    requires CL.BodiesFit(t, max) && u.sender.batches == t.sender.batches
    ensures CL.BodiesFit(u, max)
  {
  }

  /** The deliveries that stand for these packets, numbered from here on. */
  function Deliveries(packets: seq<Bytes>, number: nat): seq<RC.Delivered> {
    seq(|packets|, i requires 0 <= i < |packets| => RC.Delivered(0, number + i, packets[i]))
  }

  lemma {:induction false} CarryAll(client: bool, p: PP.Path, packets: seq<Bytes>, drawn: WF.Mask, cfg: SQ.Config,
      g: RC.Config)
    returns (es: seq<PP.Event>, q: PP.Path)
    requires Idle(client, p, cfg, g.max) && forall i :: 0 <= i < |packets| ==> Carried(packets[i], cfg, g)
    requires 0 < p.tunnel.sender.sequence && p.tunnel.sender.sequence + |packets| <= TWO_64
    requires RC.Sound(g.crypto) && g.wire.PTT5? && |g.key| == 32
    ensures Leads(client, p, es, q, cfg) && Idle(client, q, cfg, g.max)
    ensures forall k :: 0 <= k < |es| ==> PP.Makes(r => CT.SealedMade(g, r), es[k])
    ensures EE.Contents(q.tunnel.sender.sent)
            == EE.Contents(p.tunnel.sender.sent) + Deliveries(packets, p.tunnel.sender.sequence)
    decreases |packets|
  {
    hide Idle, Leads, Carried, CT.SealedMade, RC.Sound;
    if packets == [] {
      es, q := [], p;
      NoSteps(client, p, cfg);
      assert EE.Contents(p.tunnel.sender.sent) + [] == EE.Contents(p.tunnel.sender.sent);
    } else {
      var x, m := CarryOne(client, p, packets[0], drawn, cfg, g);
      var later;
      later, q := CarryAll(client, m, packets[1..], drawn, cfg, g);
      es := Carry(x.record, packets[0], drawn, cfg) + later;
      LeadsOn(client, p, Carry(x.record, packets[0], drawn, cfg), m, later, q, cfg);
      CT.ContentsAppend(p.tunnel.sender.sent, [x]);
      DeliveriesFirst(packets, p.tunnel.sender.sequence, EE.Contents(p.tunnel.sender.sent));
    }
  }

  lemma NoSteps(client: bool, p: PP.Path, cfg: SQ.Config)
    ensures Leads(client, p, [], p, cfg)
  {
  }

  lemma DeliveriesFirst(packets: seq<Bytes>, number: nat, before: seq<RC.Delivered>)
    requires packets != []
    ensures before + [RC.Delivered(0, number, packets[0])] + Deliveries(packets[1..], number + 1)
            == before + Deliveries(packets, number)
  {
  }

  /** Any list of packets can be carried across: there is a run from the start after which all of them, and nothing
      else, have been delivered in their order. */
  lemma PacketsDelivered(client: bool, packets: seq<Bytes>, cfg: SQ.Config, g: RC.Config)
    returns (es: seq<PP.Event>, end: PP.Path)
    requires cfg.batchBytes <= WF.MAX_MESSAGE && |packets| < TWO_64
    requires forall i :: 0 <= i < |packets| ==> Carried(packets[i], cfg, g)
    requires RC.Sound(g.crypto) && g.wire.PTT5? && |g.key| == 32
    ensures PP.Runs(client, PP.EMPTY, es, cfg) && PP.Run(client, PP.EMPTY, es, cfg) == end
    ensures var r := CL.Received(client, g, [end.tunnel.link.wire]);
            r.verdict.Accepted? && r.out == Deliveries(packets, 1)
  {
    hide Idle, Leads, Carried, CT.SealedMade, RC.Sound, CL.Received;
    EmptyIdle(client, cfg, g.max);
    StartsAtOne();
    es, end := CarryAll(client, PP.EMPTY, packets, [0, 0, 0, 0], cfg, g);
    assert [] + Deliveries(packets, 1) == Deliveries(packets, 1);
    IdleReceived(client, es, end, cfg, g);
    LeadsMeans(client, es, end, cfg);
  }

  lemma StartsAtOne()
    ensures PP.EMPTY.tunnel.sender.sequence == 1 && EE.Contents(PP.EMPTY.tunnel.sender.sent) == []
  {
  }

  lemma LeadsMeans(client: bool, es: seq<PP.Event>, end: PP.Path, cfg: SQ.Config)
    requires Leads(client, PP.EMPTY, es, end, cfg)
    ensures PP.Runs(client, PP.EMPTY, es, cfg) && PP.Run(client, PP.EMPTY, es, cfg) == end
  {
  }

  lemma IdleReceived(client: bool, es: seq<PP.Event>, end: PP.Path, cfg: SQ.Config, g: RC.Config)
    requires Leads(client, PP.EMPTY, es, end, cfg) && Idle(client, end, cfg, g.max)
    requires forall k :: 0 <= k < |es| ==> PP.Makes(r => CT.SealedMade(g, r), es[k])
    requires cfg.batchBytes <= WF.MAX_MESSAGE && RC.Sound(g.crypto) && g.wire.PTT5?
    ensures var r := CL.Received(client, g, [end.tunnel.link.wire]);
            r.verdict.Accepted? && r.out == EE.Contents(end.tunnel.sender.sent)
  {
    hide CT.TunnelValid, CT.SealedMade, CL.BodiesFit, PP.Valid, PP.FlowKept, PP.AllMade;
    var chunks := [end.tunnel.link.wire];
    CL.OneChunk(end.tunnel.link.wire);
    PP.EmptyValid(client, cfg, []);
    NoneMade(g);
    PP.FlowsInOrder(client, PP.EMPTY, es, cfg, g, chunks, []);
    CL.AllAccepted(WF.Frames(WF.Role(!client, true)), RC.Sealed(g), g.max, end.tunnel, g.max, chunks);
  }

  lemma NoneMade(g: RC.Config)
    ensures PP.AllMade(r => CT.SealedMade(g, r), PP.EMPTY.tunnel.sender)
  {
  }
}
