/** The way of a packet from the local interface to the far end: through the flow queue, sealed into a record, through
    the record queue, and over a WebSocket. Each flow keeps its order all the way. */
module PacketPath {
  import opened Bytes
  import opened Incremental
  import opened PacketFlow
  import CT = CarrierTunnel
  import EE = EndToEnd
  import FQ = FlowQueue
  import RC = RecordCodec
  import RT = RecordTheorems
  import SQ = SendQueue
  import WF = WsFrames

  // ---------------------------------------------------------------------- subsequences

  /** What is left of b when some elements are struck out. */
  predicate Sub<T(==)>(a: seq<T>, b: seq<T>)
    decreases |b|
  {
    if a == [] then true
    else if b == [] then false
    else (a[0] == b[0] && Sub(a[1..], b[1..])) || Sub(a, b[1..])
  }

  lemma {:induction false} SubSame<T>(a: seq<T>)
    ensures Sub(a, a)
    decreases |a|
  {
    if a != [] {
      SubSame(a[1..]);
    }
  }

  lemma {:induction false} SubConcat<T>(a: seq<T>, b: seq<T>, c: seq<T>, d: seq<T>)
    requires Sub(a, b) && Sub(c, d)
    ensures Sub(a + c, b + d)
    decreases |b|
  {
    if b == [] {
      assert a + c == c && b + d == d;
    } else {
      var right := b + d;
      assert right[0] == b[0] && right[1..] == b[1..] + d;
      if a != [] && a[0] == b[0] && Sub(a[1..], b[1..]) {
        SubConcat(a[1..], b[1..], c, d);
        assert (a + c)[0] == a[0] && (a + c)[1..] == a[1..] + c;
      } else {
        SubConcat(a, b[1..], c, d);
      }
    }
  }

  lemma {:induction false} SubThrough<T>(a: seq<T>, b: seq<T>, c: seq<T>)
    requires Sub(a, b) && Sub(b, c)
    ensures Sub(a, c)
    decreases |c|
  {
    if a != [] {
      if b[0] == c[0] && Sub(b[1..], c[1..]) {
        if a[0] == b[0] && Sub(a[1..], b[1..]) {
          SubThrough(a[1..], b[1..], c[1..]);
        } else {
          SubThrough(a, b[1..], c[1..]);
        }
      } else {
        SubThrough(a, b, c[1..]);
      }
    }
  }

  lemma SubOfPart<T>(a: seq<T>, k: nat)
    requires k <= |a|
    ensures Sub(a[k..], a) && Sub(a[..k], a)
  {
    assert Sub([], a[..k]) && Sub([], a[k..]);
    hide Sub;
    SubSame(a[k..]);
    SubConcat([], a[..k], a[k..], a[k..]);
    assert [] + a[k..] == a[k..] && a[..k] + a[k..] == a;
    SubSame(a[..k]);
    SubConcat(a[..k], a[..k], [], a[k..]);
    assert a[..k] + [] == a[..k];
  }

  // ---------------------------------------------------------------------- one flow's packets

  /** The packets of one flow among records. */
  function OfFlow(ds: seq<RC.Delivered>, key: Bytes): seq<Bytes> {
    if ds == [] then []
    else (if ds[0].flags == 0 && FlowKey(ds[0].payload) == key then [ds[0].payload] else []) + OfFlow(ds[1..], key)
  }

  lemma {:induction false} OfFlowAppend(a: seq<RC.Delivered>, b: seq<RC.Delivered>, key: Bytes)
    ensures OfFlow(a + b, key) == OfFlow(a, key) + OfFlow(b, key)
    decreases |a|
  {
    hide FlowKey;
    if a == [] {
      assert a + b == b;
    } else {
      assert (a + b)[0] == a[0] && (a + b)[1..] == a[1..] + b;
      OfFlowAppend(a[1..], b, key);
    }
  }

  function Filter(packets: seq<Bytes>, key: Bytes): seq<Bytes> {
    if packets == [] then []
    else
      var last := packets[|packets| - 1];
      Filter(packets[..|packets| - 1], key) + (if FlowKey(last) == key then [last] else [])
  }

  function Raw(items: seq<FQ.Packet>): seq<Bytes> {
    seq(|items|, i requires 0 <= i < |items| => items[i].bytes)
  }

  /** What the sender still holds or has sent. */
  function Records(s: SQ.Sender): seq<RC.Delivered> {
    EE.Contents(s.sent + s.queue)
  }

  // ---------------------------------------------------------------------- the path

  /** `arrived` records the packets the flow queue took. */
  datatype Path = Path(waiting: FQ.Q, tunnel: CT.Tunnel, arrived: seq<Bytes>)

  const EMPTY := Path(FQ.EMPTY, CT.FRESH, [])

  const OVERHEAD := 64

  datatype Event =
    | Read(packet: Bytes, at: nat)
    | Drain(record: RT.Sent, sealed: int)
    | Age(now: nat, ttl: nat)
    | Other(e: CT.Event)

  /** There is room for a packet in both queues together. */
  predicate Room(p: Path, packet: Bytes, cfg: SQ.Config) {
    var s := p.tunnel.sender;
    && |s.queue| + p.waiting.packets < cfg.queuePackets
    && |packet| + OVERHEAD <= cfg.queueBytes
    && s.queuedBytes + p.waiting.bytes <= cfg.queueBytes - |packet| - OVERHEAD
  }

  /** The record made of the packet whose turn it is; control records are made otherwise. */
  predicate Allowed(p: Path, e: Event) {
    match e
    case Read(_, _) => true
    case Drain(record, _) =>
      var r := FQ.TakeNext(p.waiting);
      r.Popped? ==> record.out == RC.Delivered(0, p.tunnel.sender.sequence, r.packet.bytes) && record.bytes != []
    case Age(_, _) => true
    case Other(o) => CT.Allowed(p.tunnel, o) && (o.Queue? && o.e.Add? ==> o.e.x.record.out.flags != 0)
  }

  ghost predicate Valid(client: bool, p: Path, cfg: SQ.Config) {
    FQ.Valid(p.waiting) && CT.TunnelValid(client, p.tunnel, cfg)
  }

  function Added(record: RT.Sent, sealed: int): CT.Event {
    CT.Queue(SQ.Add(SQ.Queued(record, sealed, true)))
  }

  function Step(client: bool, p: Path, e: Event, cfg: SQ.Config): Path
    requires CT.TunnelValid(client, p.tunnel, cfg) && Allowed(p, e)
  {
    match e
    case Read(packet, at) =>
      if Room(p, packet, cfg) && FQ.Admits(p.waiting, packet, cfg.queuePackets, cfg.queueBytes) then
        p.(waiting := FQ.WithPacket(p.waiting, packet, at, cfg.queuePackets, cfg.queueBytes),
          arrived := p.arrived + [packet])
      else p
    case Drain(record, sealed) =>
      var r := FQ.TakeNext(p.waiting);
      if r.Nothing? then p
      else p.(waiting := r.rest, tunnel := CT.Step(client, p.tunnel, Added(record, sealed), cfg))
    case Age(now, ttl) => p.(waiting := FQ.Expire(p.waiting, now, ttl))
    case Other(o) => p.(tunnel := CT.Step(client, p.tunnel, o, cfg))
  }

  /** A flow's packets, those in records before those that wait, are among those that arrived, in the same order. */
  ghost predicate FlowKept(p: Path, key: Bytes) {
    Sub(OfFlow(Records(p.tunnel.sender), key) + Raw(FQ.Contents(p.waiting, key)), Filter(p.arrived, key))
  }

  // ---------------------------------------------------------------------- what a step does to the records

  /** The records of t are those of s but for some dropped at the front of the queue, and then perhaps one more. */
  predicate Follows(s: SQ.Sender, t: SQ.Sender, k: nat, more: seq<SQ.Queued>) {
    k <= |s.queue| && t.sent + t.queue == s.sent + s.queue[k..] + more
  }

  lemma OfferFollows(s: SQ.Sender, x: SQ.Queued, cfg: SQ.Config) returns (k: nat, more: seq<SQ.Queued>)
    requires s.queuedBytes == SQ.Total(s.queue)
    ensures Follows(s, SQ.Offer(s, x, cfg), k, more) && (more == [] || more == [x])
  {
    k := SQ.EvictMeaning(s, SQ.Size(x), cfg);
    hide SQ.Evict, SQ.Full, SQ.Total, SQ.NoRoom;
    if SQ.Size(x) > cfg.queueBytes || (s.frontOffset > 0 && SQ.Full(s, SQ.Size(x), cfg)) {
      k, more := 0, [];
      assert s.queue[0..] == s.queue;
    } else {
      more := [x];
    }
  }

  lemma TunnelFollows(client: bool, t: CT.Tunnel, e: CT.Event, cfg: SQ.Config) returns (k: nat, more: seq<SQ.Queued>)
    requires CT.TunnelValid(client, t, cfg) && CT.Allowed(t, e)
    ensures Follows(t.sender, CT.Step(client, t, e, cfg).sender, k, more)
    ensures more == [] || (e.Queue? && e.e.Add? && more == [e.e.x])
  {
    hide SQ.SenderValid, SQ.Offer, SQ.Expire, SQ.TakeBatch, CT.Message, Follows;
    var s := t.sender;
    k, more := 0, [];
    FollowsSame(s);
    match e
    case Queue(q) =>
      if q.Add? {
        CountsBytes(client, t, cfg);
        k, more := OfferFollows(s, q.x, cfg);
      } else {
        k := ExpireFollows(s, q.now, cfg);
      }
    case Control(_) =>
    case Move(_) =>
    case Flush(now, _) => BatchFollows(s, SQ.BatchLimit(s.queue, cfg, now), cfg);
  }

  lemma CountsBytes(client: bool, t: CT.Tunnel, cfg: SQ.Config)
    requires CT.TunnelValid(client, t, cfg)
    ensures t.sender.queuedBytes == SQ.Total(t.sender.queue)
  {
  }

  lemma FollowsSame(s: SQ.Sender)
    ensures Follows(s, s, 0, [])
  {
  }

  lemma ExpireFollows(s: SQ.Sender, now: int, cfg: SQ.Config) returns (k: nat)
    ensures Follows(s, SQ.Expire(s, now, cfg), k, [])
  {
    k := SQ.ExpireMeaning(s, now, cfg);
    SQ.ExpireTouches(s, now, cfg);
  }

  lemma BatchFollows(s: SQ.Sender, limit: int, cfg: SQ.Config)
    ensures Follows(s, SQ.TakeBatch(s, limit, cfg), 0, [])
  {
    var n := SQ.Gathered(s.queue, 0, 0, limit, cfg);
    SQ.Reassociate(s.sent, s.queue[..n], s.queue[n..]);
    assert s.queue == s.queue[..n] + s.queue[n..];
  }

  /** Records dropped at the front of the queue leave a subsequence. */
  lemma FewerRecords(s: SQ.Sender, t: SQ.Sender, k: nat, more: seq<SQ.Queued>, key: Bytes)
    requires Follows(s, t, k, more)
    ensures Sub(OfFlow(Records(t), key), OfFlow(Records(s), key) + OfFlow(EE.Contents(more), key))
  {
    var sent, gone, left := EE.Contents(s.sent), EE.Contents(s.queue[..k]), EE.Contents(s.queue[k..]);
    assert s.queue == s.queue[..k] + s.queue[k..];
    CT.ContentsAppend(s.queue[..k], s.queue[k..]);
    CT.ContentsAppend(s.sent, s.queue);
    CT.ContentsAppend(s.sent, s.queue[k..]);
    CT.ContentsAppend(s.sent + s.queue[k..], more);
    OfFlowAppend(sent, gone + left, key);
    OfFlowAppend(gone, left, key);
    OfFlowAppend(sent, left, key);
    OfFlowAppend(sent + left, EE.Contents(more), key);
    Skipped(OfFlow(sent, key), OfFlow(gone, key), OfFlow(left, key), OfFlow(EE.Contents(more), key));
  }

  lemma Skipped(a: seq<Bytes>, gone: seq<Bytes>, b: seq<Bytes>, c: seq<Bytes>)
    ensures Sub(a + b + c, a + (gone + b) + c)
  {
    SubOfPart(gone + b, |gone|);
    assert (gone + b)[|gone|..] == b;
    SubSame(a);
    SubConcat(a, a, b, gone + b);
    SubSame(c);
    SubConcat(a + b, a + (gone + b), c, c);
  }

  // ---------------------------------------------------------------------- every step keeps every flow in order

  lemma ReadKeeps(client: bool, p: Path, packet: Bytes, at: nat, cfg: SQ.Config, key: Bytes)
    requires Valid(client, p, cfg) && FlowKept(p, key)
    ensures FQ.Valid(Step(client, p, Read(packet, at), cfg).waiting)
            && FlowKept(Step(client, p, Read(packet, at), cfg), key)
  {
    hide FlowKey, CT.TunnelValid, FQ.Valid, FQ.WithPacket, FQ.Contents, OfFlow, Records, Raw, Filter, Sub;
    if Room(p, packet, cfg) && FQ.Admits(p.waiting, packet, cfg.queuePackets, cfg.queueBytes) {
      FQ.PushMeaning(p.waiting, packet, at, cfg.queuePackets, cfg.queueBytes, key);
      var one := if key == FlowKey(packet) then [packet] else [];
      var waiting := FQ.Contents(p.waiting, key);
      RawSnoc(waiting, packet, at, key == FlowKey(packet));
      FilterSnoc(p.arrived, packet, key);
      SubMore(OfFlow(Records(p.tunnel.sender), key), Raw(waiting), one, Filter(p.arrived, key));
    }
  }

  lemma RawSnoc(items: seq<FQ.Packet>, packet: Bytes, at: nat, here: bool)
    ensures Raw(items + (if here then [FQ.Packet(packet, at)] else [])) == Raw(items) + (if here then [packet] else [])
  {
  }

  lemma FilterSnoc(packets: seq<Bytes>, packet: Bytes, key: Bytes)
    ensures Filter(packets + [packet], key) == Filter(packets, key) + (if key == FlowKey(packet) then [packet] else [])
  {
    hide FlowKey;
    assert (packets + [packet])[..|packets|] == packets;
  }

  lemma SubMore(records: seq<Bytes>, raw: seq<Bytes>, one: seq<Bytes>, arrived: seq<Bytes>)
    requires Sub(records + raw, arrived)
    ensures Sub(records + (raw + one), arrived + one)
  {
    hide Sub;
    SubSame(one);
    SubConcat(records + raw, arrived, one, one);
    assert records + raw + one == records + (raw + one);
  }

  lemma AgeKeeps(p: Path, now: nat, ttl: nat, key: Bytes)
    requires FQ.Valid(p.waiting) && FlowKept(p, key)
    ensures var r := p.(waiting := FQ.Expire(p.waiting, now, ttl)); FQ.Valid(r.waiting) && FlowKept(r, key)
  {
    hide FlowKey, FQ.Valid, FQ.Expire, FQ.Contents, OfFlow, Sub, Filter;
    FQ.ExpireMeaning(p.waiting, now, ttl, key);
    var items := FQ.Contents(p.waiting, key);
    FQ.DropIsSuffix(items, now, ttl);
    var left := FQ.DropWhile(items, now, ttl);
    var k := |items| - |left|;
    assert Raw(left) == Raw(items)[k..];
    SubOfPart(Raw(items), k);
    var records := OfFlow(Records(p.tunnel.sender), key);
    SubSame(records);
    SubConcat(records, records, Raw(left), Raw(items));
    SubThrough(records + Raw(left), records + Raw(items), Filter(p.arrived, key));
  }

  lemma OtherKeeps(client: bool, p: Path, o: CT.Event, cfg: SQ.Config, key: Bytes)
    requires Valid(client, p, cfg) && FlowKept(p, key) && Allowed(p, Other(o))
    ensures Valid(client, Step(client, p, Other(o), cfg), cfg) && FlowKept(Step(client, p, Other(o), cfg), key)
  {
    hide FlowKey, CT.Step, CT.TunnelValid, CT.Allowed, FQ.Valid, FQ.Contents, OfFlow, Sub;
    CT.StepKeeps(client, p.tunnel, o, cfg);
    var k, more := TunnelFollows(client, p.tunnel, o, cfg);
    var t := CT.Step(client, p.tunnel, o, cfg);
    FewerRecords(p.tunnel.sender, t.sender, k, more, key);
    NoPackets(more, key);
    var records, later, raw := OfFlow(Records(p.tunnel.sender), key), OfFlow(Records(t.sender), key),
        Raw(FQ.Contents(p.waiting, key));
    assert records + [] == records;
    SubSame(raw);
    SubConcat(later, records, raw, raw);
    SubThrough(later + raw, records + raw, Filter(p.arrived, key));
  }

  lemma NoPackets(more: seq<SQ.Queued>, key: Bytes)
    requires more == [] || (|more| == 1 && more[0].record.out.flags != 0)
    ensures OfFlow(EE.Contents(more), key) == []
  {
    if more != [] {
      assert EE.Contents(more)[1..] == [];
    }
  }

  lemma OnePacket(x: SQ.Queued, packet: Bytes, key: Bytes)
    requires x.record.out.flags == 0 && x.record.out.payload == packet
    ensures OfFlow(EE.Contents([x]), key) == if FlowKey(packet) == key then [packet] else []
  {
    hide FlowKey;
    assert EE.Contents([x]) == [x.record.out];
    assert EE.Contents([x])[1..] == [];
  }

  /** What a pop does to one flow's waiting packets. */
  lemma PopsOne(q: FQ.Q, key: Bytes)
    requires FQ.Valid(q) && FQ.TakeNext(q).Popped?
    ensures var r := FQ.TakeNext(q);
            var one := if FlowKey(r.packet.bytes) == key then [r.packet.bytes] else [];
            FQ.Valid(r.rest) && Raw(FQ.Contents(q, key)) == one + Raw(FQ.Contents(r.rest, key))
  {
    hide FlowKey, FQ.TakeNext, FQ.Contents, FQ.Valid;
    FQ.PopMeaning(q, key);
  }

  /** A data record added to the sender's. */
  lemma RecordAdded(client: bool, t: CT.Tunnel, x: SQ.Queued, cfg: SQ.Config, key: Bytes)
    requires CT.TunnelValid(client, t, cfg) && CT.Allowed(t, CT.Queue(SQ.Add(x))) && x.record.out.flags == 0
    ensures var one := if FlowKey(x.record.out.payload) == key then [x.record.out.payload] else [];
            Sub(OfFlow(Records(CT.Step(client, t, CT.Queue(SQ.Add(x)), cfg).sender), key),
              OfFlow(Records(t.sender), key) + one)
  {
    hide FlowKey, CT.Step, CT.TunnelValid;
    var e := CT.Queue(SQ.Add(x));
    var k, more := TunnelFollows(client, t, e, cfg);
    FewerRecords(t.sender, CT.Step(client, t, e, cfg).sender, k, more, key);
    OnePacket(x, x.record.out.payload, key);
    var records, one := OfFlow(Records(t.sender), key), OfFlow(EE.Contents([x]), key);
    NoneOrOne(more, x, one, key);
    SubSame(records);
    SubConcat(records, records, OfFlow(EE.Contents(more), key), one);
    SubThrough(OfFlow(Records(CT.Step(client, t, e, cfg).sender), key), records + OfFlow(EE.Contents(more), key),
      records + one);
  }

  /** The packet whose turn it is moves from the flow queue to the records, or is lost. */
  lemma DrainKeeps(client: bool, p: Path, record: RT.Sent, sealed: int, cfg: SQ.Config, key: Bytes)
    requires Valid(client, p, cfg) && FlowKept(p, key) && Allowed(p, Drain(record, sealed))
             && FQ.TakeNext(p.waiting).Popped?
    ensures Valid(client, Step(client, p, Drain(record, sealed), cfg), cfg)
            && FlowKept(Step(client, p, Drain(record, sealed), cfg), key)
  {
    hide FlowKey, CT.Step, CT.TunnelValid, FQ.Valid, FQ.TakeNext, FQ.Contents, OfFlow, Sub;
    PopsOne(p.waiting, key);
    var r := FQ.TakeNext(p.waiting);
    var e := Added(record, sealed);
    RecordAdded(client, p.tunnel, e.e.x, cfg, key);
    CT.StepKeeps(client, p.tunnel, e, cfg);
    var t := CT.Step(client, p.tunnel, e, cfg);
    var one := if FlowKey(r.packet.bytes) == key then [r.packet.bytes] else [];
    MovesOver(OfFlow(Records(t.sender), key), OfFlow(Records(p.tunnel.sender), key), one,
      Raw(FQ.Contents(r.rest, key)), Filter(p.arrived, key));
  }

  lemma NoneOrOne(more: seq<SQ.Queued>, x: SQ.Queued, one: seq<Bytes>, key: Bytes)
    requires more == [] || more == [x]
    requires OfFlow(EE.Contents([x]), key) == one
    ensures Sub(OfFlow(EE.Contents(more), key), one)
  {
    SubSame(one);
  }

  lemma MovesOver(later: seq<Bytes>, records: seq<Bytes>, one: seq<Bytes>, rest: seq<Bytes>, arrived: seq<Bytes>)
    requires Sub(later, records + one) && Sub(records + (one + rest), arrived)
    ensures Sub(later + rest, arrived)
  {
    SubSame(rest);
    SubConcat(later, records + one, rest, rest);
    assert records + one + rest == records + (one + rest);
    SubThrough(later + rest, records + one + rest, arrived);
  }

  lemma StepKeeps(client: bool, p: Path, e: Event, cfg: SQ.Config, key: Bytes)
    requires Valid(client, p, cfg) && FlowKept(p, key) && Allowed(p, e)
    ensures Valid(client, Step(client, p, e, cfg), cfg) && FlowKept(Step(client, p, e, cfg), key)
  {
    hide FQ.Valid, FQ.TakeNext, FlowKept;
    match e
    case Read(packet, at) => ReadKeeps(client, p, packet, at, cfg, key);
    case Age(now, ttl) => AgeKeeps(p, now, ttl, key);
    case Other(o) => OtherKeeps(client, p, o, cfg, key);
    case Drain(record, sealed) =>
      if FQ.TakeNext(p.waiting).Popped? {
        DrainKeeps(client, p, record, sealed, cfg, key);
      }
  }

  ghost predicate Runs(client: bool, p: Path, es: seq<Event>, cfg: SQ.Config)
    decreases |es|
  {
    es == [] || (CT.TunnelValid(client, p.tunnel, cfg) && Allowed(p, es[0])
      && Runs(client, Step(client, p, es[0], cfg), es[1..], cfg))
  }

  ghost function Run(client: bool, p: Path, es: seq<Event>, cfg: SQ.Config): Path
    requires Runs(client, p, es, cfg)
    decreases |es|
  {
    if es == [] then p else Run(client, Step(client, p, es[0], cfg), es[1..], cfg)
  }

  lemma {:induction false} RunKeeps(client: bool, p: Path, es: seq<Event>, cfg: SQ.Config, key: Bytes)
    requires Valid(client, p, cfg) && FlowKept(p, key) && Runs(client, p, es, cfg)
    ensures Valid(client, Run(client, p, es, cfg), cfg) && FlowKept(Run(client, p, es, cfg), key)
    decreases |es|
  {
    if es != [] {
      StepKeeps(client, p, es[0], cfg, key);
      RunKeeps(client, Step(client, p, es[0], cfg), es[1..], cfg, key);
    }
  }

  // ---------------------------------------------------------------------- from interface to interface

  ghost predicate Makes(made: RT.Sent -> bool, e: Event) {
    && (e.Drain? ==> made(e.record))
    && (e.Other? && e.e.Queue? && e.e.e.Add? ==> made(e.e.e.x.record))
  }

  ghost predicate AllMade(made: RT.Sent -> bool, s: SQ.Sender) {
    SQ.Every(made, s.sent + s.queue)
  }

  lemma StepMade(client: bool, p: Path, e: Event, cfg: SQ.Config, made: RT.Sent -> bool)
    requires CT.TunnelValid(client, p.tunnel, cfg) && Allowed(p, e) && AllMade(made, p.tunnel.sender) && Makes(made, e)
    ensures AllMade(made, Step(client, p, e, cfg).tunnel.sender)
  {
    hide CT.Step, CT.TunnelValid, FQ.Valid, FQ.TakeNext;
    match e
    case Read(_, _) =>
    case Age(_, _) =>
    case Other(o) => CT.StepEvery(client, p.tunnel, o, cfg, made);
    case Drain(record, sealed) =>
      if FQ.TakeNext(p.waiting).Popped? {
        CT.StepEvery(client, p.tunnel, Added(record, sealed), cfg, made);
      }
  }

  lemma {:induction false} RunMade(client: bool, p: Path, es: seq<Event>, cfg: SQ.Config, made: RT.Sent -> bool)
    requires Runs(client, p, es, cfg) && AllMade(made, p.tunnel.sender)
    requires forall k :: 0 <= k < |es| ==> Makes(made, es[k])
    ensures AllMade(made, Run(client, p, es, cfg).tunnel.sender)
    decreases |es|
  {
    hide AllMade, CT.TunnelValid, FQ.Valid;
    if es != [] {
      StepMade(client, p, es[0], cfg, made);
      RunMade(client, Step(client, p, es[0], cfg), es[1..], cfg, made);
    }
  }

  /** An empty path is such a state. */
  lemma EmptyValid(client: bool, cfg: SQ.Config, key: Bytes)
    requires cfg.batchBytes <= WF.MAX_MESSAGE
    ensures Valid(client, EMPTY, cfg) && FlowKept(EMPTY, key) && AllMade(r => false, EMPTY.tunnel.sender)
  {
    CT.FreshValid(client, cfg);
    hide CT.TunnelValid;
    EmptyQueue(key);
    NothingKept(key);
  }

  lemma EmptyQueue(key: Bytes)
    ensures FQ.Valid(FQ.EMPTY) && FQ.Contents(FQ.EMPTY, key) == []
  {
  }

  lemma NothingKept(key: Bytes)
    ensures FlowKept(EMPTY, key) && AllMade(r => false, EMPTY.tunnel.sender)
  {
    hide FQ.Contents;
    EmptyQueue(key);
    assert EMPTY.tunnel.sender.sent + EMPTY.tunnel.sender.queue == [] && EE.Contents([]) == [];
    assert OfFlow([], key) + Raw([]) == [];
  }

  lemma {:induction false} OfFlowPrefix(a: seq<RC.Delivered>, b: seq<RC.Delivered>, key: Bytes)
    requires a <= b
    ensures Sub(OfFlow(a, key), OfFlow(b, key))
  {
    assert b == a + b[|a|..];
    OfFlowAppend(a, b[|a|..], key);
    SubOfPart(OfFlow(b, key), |OfFlow(a, key)|);
  }

  /** What was delivered of a flow is a subsequence of what arrived of it. */
  lemma DeliveredKept(p: Path, out: seq<RC.Delivered>, key: Bytes)
    requires FlowKept(p, key) && out <= EE.Contents(p.tunnel.sender.sent)
    ensures Sub(OfFlow(out, key), Filter(p.arrived, key))
  {
    hide FlowKey, Sub, OfFlow, Filter, FQ.Contents;
    var s := p.tunnel.sender;
    CT.ContentsAppend(s.sent, s.queue);
    assert out <= Records(s);
    OfFlowPrefix(out, Records(s), key);
    var records, raw := OfFlow(Records(s), key), Raw(FQ.Contents(p.waiting, key));
    SubOfPart(records + raw, |records|);
    assert (records + raw)[..|records|] == records;
    SubThrough(OfFlow(out, key), records, records + raw);
    SubThrough(OfFlow(out, key), records + raw, Filter(p.arrived, key));
  }

  /** End to end, from interface to interface, from any such state on: in every run of the sending side and for every
      way the bytes arrive, the packets of each flow come out in the order in which they went in, none twice and none
      made up. */
  lemma FlowsInOrder(client: bool, start: Path, es: seq<Event>, cfg: SQ.Config, g: RC.Config, chunks: seq<Bytes>,
      key: Bytes)
    requires Valid(client, start, cfg) && FlowKept(start, key) && AllMade(r => CT.SealedMade(g, r), start.tunnel.sender)
    requires Runs(client, start, es, cfg) && forall k :: 0 <= k < |es| ==> Makes(r => CT.SealedMade(g, r), es[k])
    requires RC.Sound(g.crypto) && g.wire.PTT5? && Flatten(chunks) <= Run(client, start, es, cfg).tunnel.link.wire
    ensures Stable(WF.Frames(WF.Role(!client, true))) && Stable(RC.Sealed(g))
    ensures var p := Run(client, start, es, cfg);
            var read := Feed(WF.Frames(WF.Role(!client, true)), WF.FRESH, [], chunks);
            var r := RT.Session(RC.Sealed(g), g.max, RC.FRESH, [], WF.Messages(read.out));
            && CT.Arrived(WF.Frames(WF.Role(!client, true)), RC.Sealed(g), g.max, p.tunnel, chunks)
            && Sub(OfFlow(r.out, key), Filter(p.arrived, key))
  {
    hide CT.TunnelValid, FQ.Valid, FlowKept;
    var p := Run(client, start, es, cfg);
    RunKeeps(client, start, es, cfg, key);
    RunMade(client, start, es, cfg, r => CT.SealedMade(g, r));
    CT.AllSealed(g, p.tunnel.sender.sent + p.tunnel.sender.queue);
    RC.SealedStable(g);
    RT.DecodersSequenced(g, RC.MacConfig(g.crypto, g.key, g.max));
    CT.TunnelArrives(client, p.tunnel, cfg, RC.Sealed(g), g.max, chunks);
    ArrivedOut(WF.Frames(WF.Role(!client, true)), RC.Sealed(g), g.max, p, chunks, key);
  }

  /** The same from the start on, with nothing to ask of the state. */
  lemma FlowsFromStart(client: bool, es: seq<Event>, cfg: SQ.Config, g: RC.Config, chunks: seq<Bytes>, key: Bytes)
    requires cfg.batchBytes <= WF.MAX_MESSAGE && RC.Sound(g.crypto) && g.wire.PTT5?
    requires Runs(client, EMPTY, es, cfg) && forall k :: 0 <= k < |es| ==> Makes(r => CT.SealedMade(g, r), es[k])
    requires Flatten(chunks) <= Run(client, EMPTY, es, cfg).tunnel.link.wire
    ensures Stable(WF.Frames(WF.Role(!client, true))) && Stable(RC.Sealed(g))
    ensures var p := Run(client, EMPTY, es, cfg);
            var read := Feed(WF.Frames(WF.Role(!client, true)), WF.FRESH, [], chunks);
            var r := RT.Session(RC.Sealed(g), g.max, RC.FRESH, [], WF.Messages(read.out));
            Sub(OfFlow(r.out, key), Filter(p.arrived, key))
  {
    hide Valid, FlowKept, Runs, Run, Makes, CT.Arrived, Sub, OfFlow, Filter;
    EmptyValid(client, cfg, key);
    assert EMPTY.tunnel.sender.sent + EMPTY.tunnel.sender.queue == [];
    FlowsInOrder(client, EMPTY, es, cfg, g, chunks, key);
  }

  lemma ArrivedOut(reader: WF.Parser, decoder: EE.Decoder, max: nat, p: Path, chunks: seq<Bytes>, key: Bytes)
    requires Stable(reader) && Stable(decoder) && CT.Arrived(reader, decoder, max, p.tunnel, chunks) && FlowKept(p, key)
    ensures var ms := WF.Messages(Feed(reader, WF.FRESH, [], chunks).out);
            Sub(OfFlow(RT.Session(decoder, max, RC.FRESH, [], ms).out, key), Filter(p.arrived, key))
  {
    var ms := WF.Messages(Feed(reader, WF.FRESH, [], chunks).out);
    DeliveredKept(p, RT.Session(decoder, max, RC.FRESH, [], ms).out, key);
  }
}
