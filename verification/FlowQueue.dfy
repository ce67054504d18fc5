/** The plaintext packet queue of a lane: one FIFO per flow, served turn by turn, with pruning of idle
    flows and expiry of packets that waited too long. */
module FlowQueue {
  import opened Bytes
  import opened PacketFlow
  import opened RoundRobin

  const SLACK := 32

  datatype Packet = Packet(bytes: Bytes, enqueued: nat)

  /** The queue's fields as a value. */
  datatype Q = Q(flows: seq<Flow<Packet>>, packets: nat, bytes: nat, turn: Turn)

  const EMPTY := Q([], 0, 0, START)

  function Size(items: seq<Packet>): nat {
    if items == [] then 0 else |items[0].bytes| + Size(items[1..])
  }

  function TotalSize(flows: seq<Flow<Packet>>): nat {
    if flows == [] then 0 else Size(flows[0].items) + TotalSize(flows[1..])
  }

  function Busy(flows: seq<Flow<Packet>>): (r: seq<Flow<Packet>>)
    ensures |r| <= |flows|
  {
    if flows == [] then []
    else (if flows[0].items == [] then [] else [flows[0]]) + Busy(flows[1..])
  }

  // ---------------------------------------------------------------------- the operations as functions

  predicate Crowded(flows: seq<Flow<Packet>>, packets: nat) {
    |flows| > packets + SLACK
  }

  function Prune(q: Q): Q {
    if Crowded(q.flows, q.packets) then q.(flows := Busy(q.flows), turn := START) else q
  }

  predicate Admits(q: Q, p: Bytes, maxPackets: nat, maxBytes: nat) {
    p != [] && q.packets < maxPackets && |p| <= maxBytes && q.bytes <= maxBytes - |p|
  }

  function WithPacket(q: Q, p: Bytes, at: nat, maxPackets: nat, maxBytes: nat): Q {
    if !Admits(q, p, maxPackets, maxBytes) then q
    else
      var r := Prune(q);
      Q(Insert(r.flows, FlowKey(p), Packet(p, at), |p| <= INTERACTIVE_BYTES), r.packets + 1, r.bytes + |p|, r.turn)
  }

  predicate Expired(p: Packet, now: nat, ttl: nat) {
    now >= p.enqueued && now - p.enqueued > ttl
  }

  function DropWhile(items: seq<Packet>, now: nat, ttl: nat): (r: seq<Packet>)
    ensures |r| <= |items|
  {
    if items != [] && Expired(items[0], now, ttl) then DropWhile(items[1..], now, ttl) else items
  }

  function DropFlows(flows: seq<Flow<Packet>>, now: nat, ttl: nat): seq<Flow<Packet>> {
    seq(|flows|, i requires 0 <= i < |flows| => flows[i].(items := DropWhile(flows[i].items, now, ttl)))
  }

  /** The end of every removal: forget everything if nothing is left, else prune. */
  function Settle(q: Q): Q {
    if q.packets == 0 then EMPTY else Prune(q)
  }

  function Expire(q: Q, now: nat, ttl: nat): Q {
    var flows := DropFlows(q.flows, now, ttl);
    Settle(Q(flows, Total(flows), TotalSize(flows), q.turn))
  }

  datatype Popped = Nothing | Popped(packet: Packet, flow: Flow<Packet>, served: Q, rest: Q)

  function TakeNext(q: Q): Popped {
    var c := Select(q.flows, q.turn);
    if q.packets == 0 || c.index == |q.flows| || q.flows[c.index].items == [] then Nothing
    else
      var flow := q.flows[c.index];
      var p := flow.items[0];
      var served := Q(q.flows[c.index := flow.(items := flow.items[1..])], q.packets - 1,
                      if q.bytes >= |p.bytes| then q.bytes - |p.bytes| else 0, c.turn);
      Popped(p, flow, served, Settle(served))
  }

  // ---------------------------------------------------------------------- what always holds

  ghost predicate Belongs(flow: Flow<Packet>) {
    forall k :: 0 <= k < |flow.items| ==> flow.items[k].bytes != [] && FlowKey(flow.items[k].bytes) == flow.key
  }

  /** All but the bound on idle flows. */
  ghost predicate Sound(q: Q) {
    && q.packets == Total(q.flows)
    && q.bytes == TotalSize(q.flows)
    && DistinctKeys(q.flows)
    && TurnOk(q.flows, q.turn)
    && forall i :: 0 <= i < |q.flows| ==> Belongs(q.flows[i])
  }

  /** The counters are the true totals, a key has one flow, a flow only packets of its key, and there
      are at most 32 more flows than packets. */
  ghost predicate Valid(q: Q) {
    Sound(q) && !Crowded(q.flows, q.packets) && (q.packets == 0 ==> q == EMPTY)
  }

  /** What waits under a key, oldest first: the queue seen from outside. */
  function Contents(q: Q, key: Bytes): seq<Packet> {
    var f := Find(q.flows, key);
    if f == |q.flows| then [] else q.flows[f].items
  }

  lemma {:induction false} TotalSizeUpdate(flows: seq<Flow<Packet>>, i: nat, flow: Flow<Packet>)
    requires i < |flows|
    ensures TotalSize(flows[i := flow]) == TotalSize(flows) - Size(flows[i].items) + Size(flow.items)
    decreases |flows|
  {
    if i == 0 {
      assert flows[i := flow][1..] == flows[1..];
    } else {
      assert flows[i := flow][1..] == flows[1..][i - 1 := flow];
      TotalSizeUpdate(flows[1..], i - 1, flow);
    }
  }

  lemma {:induction false} TotalSizeAppend(flows: seq<Flow<Packet>>, flow: Flow<Packet>)
    ensures TotalSize(flows + [flow]) == TotalSize(flows) + Size(flow.items)
    decreases |flows|
  {
    if flows == [] {
      assert flows + [flow] == [flow];
      assert TotalSize([flow][1..]) == 0;
    } else {
      assert (flows + [flow])[1..] == flows[1..] + [flow];
      TotalSizeAppend(flows[1..], flow);
    }
  }

  lemma {:induction false} SizeAppend(items: seq<Packet>, p: Packet)
    ensures Size(items + [p]) == Size(items) + |p.bytes|
    decreases |items|
  {
    if items == [] {
      assert items + [p] == [p];
      assert Size([p][1..]) == 0;
    } else {
      assert (items + [p])[1..] == items[1..] + [p];
      SizeAppend(items[1..], p);
    }
  }

  // ---------------------------------------------------------------------- pruning and settling

  lemma {:induction false} BusyTotals(flows: seq<Flow<Packet>>)
    ensures Total(Busy(flows)) == Total(flows) && TotalSize(Busy(flows)) == TotalSize(flows)
    ensures |Busy(flows)| <= Total(flows)
    decreases |flows|
  {
    if flows != [] {
      BusyTotals(flows[1..]);
      BusyCons(flows);
    }
  }

  lemma BusyCons(flows: seq<Flow<Packet>>)
    requires flows != []
    ensures flows[0].items == [] ==> Busy(flows) == Busy(flows[1..])
    ensures flows[0].items != [] ==>
              Busy(flows) != [] && Busy(flows)[0] == flows[0] && Busy(flows)[1..] == Busy(flows[1..])
  {
  }

  lemma {:induction false} BusyMember(flows: seq<Flow<Packet>>, i: nat)
    requires i < |Busy(flows)|
    ensures Busy(flows)[i] in flows
    decreases |flows|
  {
    if flows[0].items == [] {
      BusyMember(flows[1..], i);
    } else if i > 0 {
      BusyMember(flows[1..], i - 1);
    }
  }

  lemma {:induction false} BusyKeys(flows: seq<Flow<Packet>>)
    requires DistinctKeys(flows)
    ensures DistinctKeys(Busy(flows))
    decreases |flows|
  {
    if flows != [] {
      assert DistinctKeys(flows[1..]);
      BusyKeys(flows[1..]);
      forall j | 0 <= j < |Busy(flows[1..])|
        ensures Busy(flows[1..])[j].key != flows[0].key
      {
        BusyMember(flows[1..], j);
      }
    }
  }

  lemma DistinctRest(flows: seq<Flow<Packet>>)
    requires flows != [] && DistinctKeys(flows)
    ensures DistinctKeys(flows[1..])
  {
    assert forall i :: 0 <= i < |flows[1..]| ==> flows[1..][i] == flows[i + 1];
  }

  lemma FindCons(flows: seq<Flow<Packet>>, key: Bytes)
    requires flows != [] && flows[0].key != key
    ensures Find(flows, key) == Find(flows[1..], key) + 1
  {
  }

  lemma NoOther(flows: seq<Flow<Packet>>, key: Bytes)
    requires flows != [] && flows[0].key == key && DistinctKeys(flows)
    ensures Find(flows, key) == 0 && Find(flows[1..], key) == |flows[1..]|
  {
  }

  /** The busy flow with this key is the flow with this key, unless that has nothing waiting. */
  ghost predicate SameFound(flows: seq<Flow<Packet>>, busy: seq<Flow<Packet>>, key: Bytes) {
    var f, g := Find(flows, key), Find(busy, key);
    && (g < |busy| ==> f < |flows| && busy[g] == flows[f])
    && (g == |busy| && f < |flows| ==> flows[f].items == [])
  }

  lemma OneMore(flows: seq<Flow<Packet>>, busy: seq<Flow<Packet>>, key: Bytes)
    requires flows != [] && DistinctKeys(flows) && SameFound(flows[1..], busy, key)
    ensures flows[0].items == [] ==> SameFound(flows, busy, key)
    ensures SameFound(flows, [flows[0]] + busy, key)
  {
    hide DistinctKeys;
    if flows[0].key == key {
      NoOther(flows, key);
    } else {
      FindCons(flows, key);
      assert ([flows[0]] + busy)[1..] == busy;
      FindCons([flows[0]] + busy, key);
    }
  }

  lemma {:induction false} BusyContents(flows: seq<Flow<Packet>>, key: Bytes)
    requires DistinctKeys(flows)
    ensures SameFound(flows, Busy(flows), key)
    decreases |flows|
  {
    if flows == [] {
      assert Busy(flows) == flows;
    } else {
      hide SameFound, Find, DistinctKeys, Busy;
      DistinctRest(flows);
      BusyContents(flows[1..], key);
      OneMore(flows, Busy(flows[1..]), key);
      BusyCons(flows);
      assert flows[0].items != [] ==> Busy(flows) == [flows[0]] + Busy(flows[1..]);
    }
  }

  lemma SettleKeeps(q: Q, key: Bytes)
    requires Sound(q)
    ensures Valid(Settle(q)) && Contents(Settle(q), key) == Contents(q, key)
    ensures Settle(q).packets == q.packets && Settle(q).bytes == q.bytes
  {
    if q.packets == 0 {
      EmptySettles(q, key);
    } else {
      PruneKeeps(q, key);
    }
  }

  lemma EmptySettles(q: Q, key: Bytes)
    requires Sound(q) && q.packets == 0
    ensures Valid(EMPTY) && Contents(EMPTY, key) == Contents(q, key) == [] && q.bytes == 0
  {
    TotalZero(q.flows);
    var f := Find(q.flows, key);
    if f < |q.flows| {
      assert !Ready(q.flows, f, true) && !Ready(q.flows, f, false);
    }
    NothingSized(q.flows);
  }

  lemma BusyBelong(flows: seq<Flow<Packet>>)
    requires forall i :: 0 <= i < |flows| ==> Belongs(flows[i])
    ensures forall i :: 0 <= i < |Busy(flows)| ==> Belongs(Busy(flows)[i])
  {
    forall i | 0 <= i < |Busy(flows)|
      ensures Belongs(Busy(flows)[i])
    {
      BusyMember(flows, i);
    }
  }

  lemma PruneKeeps(q: Q, key: Bytes)
    requires Sound(q) && q.packets > 0
    ensures Valid(Prune(q)) && Contents(Prune(q), key) == Contents(q, key)
    ensures Prune(q).packets == q.packets && Prune(q).bytes == q.bytes
  {
    hide Busy, Total, TotalSize, DistinctKeys, SameFound, Contents;
    BusyTotals(q.flows);
    BusyKeys(q.flows);
    BusyContents(q.flows, key);
    BusyBelong(q.flows);
    SameContents(q, Prune(q), key);
  }

  lemma SameContents(q: Q, r: Q, key: Bytes)
    requires SameFound(q.flows, r.flows, key) || r.flows == q.flows
    ensures Contents(r, key) == Contents(q, key)
  {
  }

  lemma {:induction false} NothingSized(flows: seq<Flow<Packet>>)
    requires Total(flows) == 0
    ensures TotalSize(flows) == 0
    decreases |flows|
  {
    if flows != [] {
      NothingSized(flows[1..]);
    }
  }

  // ---------------------------------------------------------------------- the queue is a map of FIFOs

  lemma InsertSizes(flows: seq<Flow<Packet>>, key: Bytes, p: Packet, small: bool)
    ensures TotalSize(Insert(flows, key, p, small)) == TotalSize(flows) + |p.bytes|
  {
    var i := Find(flows, key);
    if i == |flows| {
      TotalSizeAppend(flows, Flow(key, [p], small));
      SizeAppend([], p);
      assert [] + [p] == [p];
    } else {
      SizeAppend(flows[i].items, p);
      TotalSizeUpdate(flows, i, flows[i].(items := flows[i].items + [p]));
    }
  }

  lemma InsertBelongs(flows: seq<Flow<Packet>>, p: Packet, small: bool)
    requires p.bytes != [] && forall i :: 0 <= i < |flows| ==> Belongs(flows[i])
    ensures var later := Insert(flows, FlowKey(p.bytes), p, small);
            |later| <= |flows| + 1 && forall j :: 0 <= j < |later| ==> Belongs(later[j])
  {
    hide FlowKey;
    var later := Insert(flows, FlowKey(p.bytes), p, small);
    forall j | 0 <= j < |later|
      ensures Belongs(later[j])
    {
      if j < |flows| {
        assert Belongs(flows[j]);
      }
    }
  }

  lemma InsertKeeps(flows: seq<Flow<Packet>>, p: Packet, small: bool)
    requires DistinctKeys(flows) && p.bytes != [] && forall i :: 0 <= i < |flows| ==> Belongs(flows[i])
    ensures var later := Insert(flows, FlowKey(p.bytes), p, small);
            && Total(later) == Total(flows) + 1 && TotalSize(later) == TotalSize(flows) + |p.bytes|
            && DistinctKeys(later) && |later| <= |flows| + 1
            && forall j :: 0 <= j < |later| ==> Belongs(later[j])
  {
    hide Insert, Total, TotalSize, DistinctKeys, Belongs, FlowKey;
    var key := FlowKey(p.bytes);
    InsertTotal(flows, key, p, small);
    InsertSizes(flows, key, p, small);
    InsertDistinct(flows, key, p, small);
    InsertBelongs(flows, p, small);
  }

  /** A push is admitted exactly if there is room; it appends to its own flow and nothing else changes. */
  lemma PushMeaning(q: Q, p: Bytes, at: nat, maxPackets: nat, maxBytes: nat, key: Bytes)
    requires Valid(q)
    ensures var r := WithPacket(q, p, at, maxPackets, maxBytes);
            && Valid(r)
            && (!Admits(q, p, maxPackets, maxBytes) ==> r == q)
            && (Admits(q, p, maxPackets, maxBytes) ==>
                  && r.packets == q.packets + 1 <= maxPackets && r.bytes == q.bytes + |p| <= maxBytes
                  && Contents(r, key) == Contents(q, key) + (if key == FlowKey(p) then [Packet(p, at)] else [])
                  && r.turn == q.turn)
  {
    hide Insert, FlowKey, Valid, Contents;
    if Admits(q, p, maxPackets, maxBytes) {
      NotPruned(q);
      PushSound(q, Packet(p, at), |p| <= INTERACTIVE_BYTES);
      PushContents(q, Packet(p, at), |p| <= INTERACTIVE_BYTES, key);
    }
  }

  lemma NotPruned(q: Q)
    requires Valid(q)
    ensures Prune(q) == q
  {
  }

  /** The queue with one packet more. */
  function Grown(q: Q, p: Packet, small: bool): Q {
    Q(Insert(q.flows, FlowKey(p.bytes), p, small), q.packets + 1, q.bytes + |p.bytes|, q.turn)
  }

  lemma PushSound(q: Q, p: Packet, small: bool)
    requires Valid(q) && p.bytes != []
    ensures Valid(Grown(q, p, small))
  {
    assert q.flows == [] ==> Total(q.flows) == 0;
    hide FlowKey, Insert, Total, TotalSize, DistinctKeys, Belongs, TurnOk;
    InsertKeeps(q.flows, p, small);
    TurnGrows(q.flows, q.turn, FlowKey(p.bytes), p, small);
  }

  lemma PushContents(q: Q, p: Packet, small: bool, key: Bytes)
    ensures Contents(Grown(q, p, small), key) == Contents(q, key) + (if key == FlowKey(p.bytes) then [p] else [])
  {
    hide FlowKey, Insert;
    FindInsert(q.flows, FlowKey(p.bytes), p, small, key);
    hide Find;
    assert [] + [p] == [p];
  }

  lemma TurnGrows<T>(flows: seq<Flow<T>>, t: Turn, key: Bytes, item: T, small: bool)
    requires TurnOk(flows, t) && (flows == [] ==> t == START)
    ensures TurnOk(Insert(flows, key, item, small), t)
  {
  }

  /** What a successful pop does. */
  ghost predicate TakesOldest(q: Q, r: Popped) {
    && r.Popped?
    && Valid(r.rest) && Sound(r.served)
    && r.rest.packets == q.packets - 1 && r.rest.bytes == q.bytes - |r.packet.bytes|
    && var key := FlowKey(r.packet.bytes);
    && r.flow.key == key && Contents(q, key) != [] && r.packet == Contents(q, key)[0]
  }

  /** Whose turn it is has something waiting, and the bookkeeping survives its being served. */
  lemma ServedSound(q: Q)
    requires Valid(q) && q.packets > 0
    ensures var r := TakeNext(q);
            && r.Popped? && Sound(r.served) && Belongs(r.flow) && r.flow.items != [] && r.packet == r.flow.items[0]
            && var i := Select(q.flows, q.turn).index;
            && i < |q.flows| && q.flows[i] == r.flow
               && r.served.flows == q.flows[i := r.flow.(items := r.flow.items[1..])]
            && r.served.packets == q.packets - 1 && |r.packet.bytes| <= q.bytes
               && r.served.bytes == q.bytes - |r.packet.bytes|
  {
    hide FlowKey, Next;
    TotalZero(q.flows);
    SelectServes(q.flows, q.turn);
    var c := Select(q.flows, q.turn);
    var flow := q.flows[c.index];
    var later := flow.(items := flow.items[1..]);
    assert Belongs(flow);
    hide Total, TotalSize, DistinctKeys, TurnOk, Belongs;
    TotalUpdate(q.flows, c.index, later);
    TotalSizeUpdate(q.flows, c.index, later);
    SizeBound(q.flows, c.index);
    SameFlows(q.flows, c.index, later, c.turn);
    FewerBelong(q.flows, c.index);
  }

  lemma SameFlows(flows: seq<Flow<Packet>>, i: nat, flow: Flow<Packet>, t: Turn)
    requires i < |flows| && DistinctKeys(flows) && flow.key == flows[i].key && TurnOk(flows, t)
    ensures DistinctKeys(flows[i := flow]) && TurnOk(flows[i := flow], t)
  {
  }

  lemma FewerBelong(flows: seq<Flow<Packet>>, i: nat)
    requires i < |flows| && flows[i].items != [] && forall j :: 0 <= j < |flows| ==> Belongs(flows[j])
    ensures var left := flows[i := flows[i].(items := flows[i].items[1..])];
            forall j :: 0 <= j < |left| ==> Belongs(left[j])
  {
    assert Belongs(flows[i]);
  }

  /** A queue that is not empty always yields a packet, the oldest of its flow; all else stays. */
  lemma PopMeaning(q: Q, key: Bytes)
    requires Valid(q)
    ensures q.packets == 0 <==> TakeNext(q) == Nothing
    ensures q.packets > 0 ==>
              && TakesOldest(q, TakeNext(q))
              && Contents(TakeNext(q).rest, key) ==
                 if key == FlowKey(TakeNext(q).packet.bytes) then Contents(q, key)[1..] else Contents(q, key)
  {
    hide FlowKey, Select, Total, TotalSize;
    if q.packets > 0 {
      ServedSound(q);
      var r, i := TakeNext(q), Select(q.flows, q.turn).index;
      SettleKeeps(r.served, key);
      assert Find(q.flows, r.flow.key) == i;
      FindSame(q.flows, r.served.flows, key);
    }
  }

  lemma SizeBound(flows: seq<Flow<Packet>>, i: nat)
    requires i < |flows|
    ensures Size(flows[i].items) <= TotalSize(flows)
  {
    TotalSizeUpdate(flows, i, flows[i].(items := []));
  }

  lemma FindSame<T>(a: seq<Flow<T>>, b: seq<Flow<T>>, key: Bytes)
    requires |a| == |b| && forall i :: 0 <= i < |a| ==> a[i].key == b[i].key
    ensures Find(a, key) == Find(b, key)
  {
    var f, g := Find(a, key), Find(b, key);
  }

  /** Expiry takes from each flow the run of expired packets at its head. */
  lemma ExpireMeaning(q: Q, now: nat, ttl: nat, key: Bytes)
    requires Valid(q)
    ensures Valid(Expire(q, now, ttl))
    ensures Contents(Expire(q, now, ttl), key) == DropWhile(Contents(q, key), now, ttl)
  {
    var flows := DropFlows(q.flows, now, ttl);
    var r := Q(flows, Total(flows), TotalSize(flows), q.turn);
    forall i | 0 <= i < |flows|
      ensures Belongs(flows[i])
    {
      assert Belongs(q.flows[i]);
      DropIsSuffix(q.flows[i].items, now, ttl);
    }
    SettleKeeps(r, key);
    FindSame(q.flows, flows, key);
  }

  lemma {:induction false} DropIsSuffix(items: seq<Packet>, now: nat, ttl: nat)
    ensures DropWhile(items, now, ttl) == items[|items| - |DropWhile(items, now, ttl)|..]
    decreases |items|
  {
    if items != [] && Expired(items[0], now, ttl) {
      DropIsSuffix(items[1..], now, ttl);
    }
  }

  // ---------------------------------------------------------------------- time order

  /** In no flow does a packet carry an earlier time than one before it. */
  predicate InTimeOrder(items: seq<Packet>) {
    forall i, j :: 0 <= i < j < |items| ==> items[i].enqueued <= items[j].enqueued
  }

  function Survivors(items: seq<Packet>, now: nat, ttl: nat): seq<Packet> {
    if items == [] then []
    else (if items[0].enqueued + ttl < now then [] else [items[0]]) + Survivors(items[1..], now, ttl)
  }

  /** With times in order, dropping from the head removes exactly the over-age packets. */
  lemma {:induction false} DropIsExact(items: seq<Packet>, now: nat, ttl: nat)
    requires InTimeOrder(items)
    ensures DropWhile(items, now, ttl) == Survivors(items, now, ttl)
    decreases |items|
  {
    if items != [] {
      assert InTimeOrder(items[1..]);
      DropIsExact(items[1..], now, ttl);
      if !Expired(items[0], now, ttl) && |items| > 1 {
        assert !Expired(items[1], now, ttl);
        assert DropWhile(items[1..], now, ttl) == items[1..];
      }
    }
  }

  /** Everything queued was queued by `time`, each flow in order. */
  predicate TimedBy(q: Q, time: nat) {
    forall i :: 0 <= i < |q.flows| ==> FlowTimed(q.flows[i].items, time)
  }

  // ---------------------------------------------------------------------- runs

  datatype Event =
    | Arrival(bytes: Bytes, at: nat, maxPackets: nat, maxBytes: nat)
    | Departure
    | Ageing(now: nat, ttl: nat)

  function Step(q: Q, e: Event): Q {
    match e
    case Arrival(p, at, maxPackets, maxBytes) => WithPacket(q, p, at, maxPackets, maxBytes)
    case Departure => if TakeNext(q).Popped? then TakeNext(q).rest else q
    case Ageing(now, ttl) => Expire(q, now, ttl)
  }

  function Run(q: Q, es: seq<Event>): Q
    decreases |es|
  {
    if es == [] then q else Run(Step(q, es[0]), es[1..])
  }

  lemma StepValid(q: Q, e: Event)
    requires Valid(q)
    ensures Valid(Step(q, e))
  {
    match e
    case Arrival(p, at, maxPackets, maxBytes) => PushMeaning(q, p, at, maxPackets, maxBytes, []);
    case Departure => PopMeaning(q, []);
    case Ageing(now, ttl) => ExpireMeaning(q, now, ttl, []);
  }

  /** Whatever is done to a queue, it stays valid. */
  lemma {:induction false} RunValid(q: Q, es: seq<Event>)
    requires Valid(q)
    ensures Valid(Run(q, es))
    decreases |es|
  {
    if es != [] {
      StepValid(q, es[0]);
      RunValid(Step(q, es[0]), es[1..]);
    }
  }

  /** Times of pushes do not go back. */
  predicate Clocked(time: nat, es: seq<Event>)
    decreases |es|
  {
    if es == [] then true
    else match es[0]
      case Arrival(_, at, _, _) => time <= at && Clocked(at, es[1..])
      case _ => Clocked(time, es[1..])
  }

  predicate FlowTimed(items: seq<Packet>, time: nat) {
    InTimeOrder(items) && forall k :: 0 <= k < |items| ==> items[k].enqueued <= time
  }

  lemma StepTimed(q: Q, e: Event, time: nat)
    requires Valid(q) && TimedBy(q, time) && (e.Arrival? ==> time <= e.at)
    ensures TimedBy(Step(q, e), if e.Arrival? then e.at else time)
  {
    match e
    case Arrival(p, at, maxPackets, maxBytes) => PushTimed(q, e, time);
    case Departure => PopTimed(q, time);
    case Ageing(now, ttl) => AgeingTimed(q, now, ttl, time);
  }

  lemma PushTimed(q: Q, e: Event, time: nat)
    requires Valid(q) && TimedBy(q, time) && e.Arrival? && time <= e.at
    ensures TimedBy(Step(q, e), e.at)
  {
    var r := Step(q, e);
    forall i | 0 <= i < |r.flows|
      ensures FlowTimed(r.flows[i].items, e.at)
    {
      if i < |q.flows| {
        assert FlowTimed(q.flows[i].items, time);
        assert r.flows[i].items == q.flows[i].items || r.flows[i].items == q.flows[i].items + [Packet(e.bytes, e.at)];
      } else {
        assert r.flows[i].items == [Packet(e.bytes, e.at)];
      }
    }
  }

  lemma PopTimed(q: Q, time: nat)
    requires Valid(q) && TimedBy(q, time)
    ensures TimedBy(Step(q, Departure), time)
  {
    hide FlowKey, Select, Sound;
    if q.packets > 0 {
      ServedSound(q);
      var served := TakeNext(q).served;
      forall i | 0 <= i < |served.flows|
        ensures FlowTimed(served.flows[i].items, time)
      {
        assert FlowTimed(q.flows[i].items, time);
      }
      SettleTimed(served, time);
    }
  }

  lemma AgeingTimed(q: Q, now: nat, ttl: nat, time: nat)
    requires TimedBy(q, time)
    ensures TimedBy(Expire(q, now, ttl), time)
  {
    var flows := DropFlows(q.flows, now, ttl);
    forall i | 0 <= i < |flows|
      ensures FlowTimed(flows[i].items, time)
    {
      assert FlowTimed(q.flows[i].items, time);
      DropIsSuffix(q.flows[i].items, now, ttl);
    }
    SettleTimed(Q(flows, Total(flows), TotalSize(flows), q.turn), time);
  }

  lemma SettleTimed(q: Q, time: nat)
    requires TimedBy(q, time)
    ensures TimedBy(Settle(q), time)
  {
    forall i | 0 <= i < |Settle(q).flows|
      ensures FlowTimed(Settle(q).flows[i].items, time)
    {
      if q.packets > 0 && Crowded(q.flows, q.packets) {
        BusyMember(q.flows, i);
        var j :| 0 <= j < |q.flows| && q.flows[j] == Settle(q).flows[i];
        assert FlowTimed(q.flows[j].items, time);
      }
    }
  }

  /** In every run whose push times do not go back, expiry removes exactly the over-age packets. */
  lemma {:induction false} ExpiryExact(q: Q, es: seq<Event>, time: nat, now: nat, ttl: nat, key: Bytes)
    requires Valid(q) && TimedBy(q, time) && Clocked(time, es)
    ensures var end := Run(q, es);
            Contents(Expire(end, now, ttl), key) == Survivors(Contents(end, key), now, ttl)
    decreases |es|
  {
    if es == [] {
      ExpireMeaning(q, now, ttl, key);
      DropIsExact(Contents(q, key), now, ttl);
    } else {
      StepValid(q, es[0]);
      StepTimed(q, es[0], time);
      ExpiryExact(Step(q, es[0]), es[1..], if es[0].Arrival? then es[0].at else time, now, ttl, key);
    }
  }

  // ---------------------------------------------------------------------- starvation

  /** The step compacts the table: it prunes it, or empties it. */
  predicate Compacts(q: Q, e: Event) {
    match e
    case Arrival(p, _, maxPackets, maxBytes) => Admits(q, p, maxPackets, maxBytes) && Crowded(q.flows, q.packets)
    case Departure => TakeNext(q).Popped? && (TakeNext(q).served.packets == 0
      || Crowded(TakeNext(q).served.flows, TakeNext(q).served.packets))
    case Ageing(now, ttl) =>
      var flows := DropFlows(q.flows, now, ttl);
      Total(flows) == 0 || Crowded(flows, Total(flows))
  }

  function Compactions(q: Q, es: seq<Event>): nat
    decreases |es|
  {
    if es == [] then 0
    else (if Compacts(q, es[0]) then 1 else 0) + Compactions(Step(q, es[0]), es[1..])
  }

  function Departures(es: seq<Event>): nat {
    if es == [] then 0 else (if es[0].Departure? then 1 else 0) + Departures(es[1..])
  }

  /** At every departure bulk traffic waits, and every time an interactive flow is served. */
  predicate Starving(q: Q, es: seq<Event>)
    decreases |es|
  {
    if es == [] then true
    else
      && (es[0].Departure? ==> Waiting(q.flows, false) && TakeNext(q).Popped? && TakeNext(q).flow.interactive)
      && Starving(Step(q, es[0]), es[1..])
  }

  /** While bulk waits, an interactive turn is one of at most two, and does not empty the queue. */
  lemma InteractiveTurn(q: Q)
    requires Valid(q) && Waiting(q.flows, false) && TakeNext(q).Popped? && TakeNext(q).flow.interactive
    ensures q.turn.interactiveTurns < 2
    ensures TakeNext(q).served.turn.interactiveTurns == q.turn.interactiveTurns + 1
    ensures TakeNext(q).served.packets > 0 && |TakeNext(q).served.flows| == |q.flows|
  {
    SelectServes(q.flows, q.turn);
    PopMeaning(q, []);
    var c := Select(q.flows, q.turn);
    var i :| 0 <= i < |q.flows| && Ready(q.flows, i, false);
    assert Ready(TakeNext(q).served.flows, i, false);
    TotalZero(TakeNext(q).served.flows);
  }

  /** Starvation is bounded by the compactions: at most two departures for each, and two more. */
  lemma {:induction false} StarvationPerCompaction(q: Q, es: seq<Event>)
    requires Valid(q) && Starving(q, es)
    ensures Departures(es) <= 2 - q.turn.interactiveTurns + 2 * Compactions(q, es)
    decreases |es|
  {
    if es != [] {
      StepValid(q, es[0]);
      StarvationPerCompaction(Step(q, es[0]), es[1..]);
      if es[0].Departure? {
        InteractiveTurn(q);
      }
    }
  }

  /** How many departures bulk can still be made to wait for, given the turns taken and how far the flow
      table is from being pruned. */
  function Patience(q: Q): int {
    var turns := 2 - q.turn.interactiveTurns;
    turns + (if |q.flows| - q.packets + turns > SLACK then 2 else 0)
  }

  /** With pushes and pops only, bulk waits for at most four departures: any five include a bulk one. */
  lemma {:induction false} StarvationBound(q: Q, es: seq<Event>)
    requires Valid(q) && Starving(q, es) && forall e <- es :: !e.Ageing?
    ensures Departures(es) <= Patience(q) <= 4
    decreases |es|
  {
    if es != [] {
      hide Valid, Patience, Waiting;
      var e := es[0];
      assert e in es;
      StepValid(q, e);
      StarvationBound(Step(q, e), es[1..]);
      if e.Departure? {
        PatienceTaken(q);
      } else {
        PatienceKept(q, e);
      }
    }
  }

  /** An interactive departure while bulk waits takes from the patience left. */
  lemma PatienceTaken(q: Q)
    requires Valid(q) && Waiting(q.flows, false) && TakeNext(q).Popped? && TakeNext(q).flow.interactive
    ensures Patience(Step(q, Departure)) + 1 <= Patience(q) <= 4
  {
    InteractiveTurn(q);
    PopMeaning(q, []);
    BusyTotals(TakeNext(q).served.flows);
    hide FlowKey, Select, Total, TotalSize, DistinctKeys, Belongs, Busy, Contents, Waiting;
  }

  /** An arrival adds nothing to it. */
  lemma PatienceKept(q: Q, e: Event)
    requires Valid(q) && e.Arrival?
    ensures Patience(Step(q, e)) <= Patience(q) <= 4
  {
    PushMeaning(q, e.bytes, e.at, e.maxPackets, e.maxBytes, []);
  }

  // ---------------------------------------------------------------------- classes and sizes

  /** The class of the flow under a key: interactive or not, none if it is not in the table. */
  function ClassOf(q: Q, key: Bytes): Option<bool> {
    var f := Find(q.flows, key);
    if f == |q.flows| then None else Some(q.flows[f].interactive)
  }

  lemma ClassSettles(q: Q, key: Bytes)
    requires Sound(q)
    ensures ClassOf(Settle(q), key).Some? ==> ClassOf(Settle(q), key) == ClassOf(q, key)
  {
    hide Belongs, Total, TotalSize;
    BusyContents(q.flows, key);
  }

  lemma PushClass(q: Q, p: Packet, small: bool, key: Bytes)
    ensures ClassOf(Grown(q, p, small), key) ==
            if key != FlowKey(p.bytes) || ClassOf(q, key).Some? then ClassOf(q, key) else Some(small)
  {
    hide FlowKey, Insert;
    FindInsert(q.flows, FlowKey(p.bytes), p, small, key);
    hide Find;
  }

  lemma PopClass(q: Q, key: Bytes)
    requires Valid(q) && q.packets > 0
    ensures var r := TakeNext(q);
            && r.Popped? && ClassOf(q, FlowKey(r.packet.bytes)) == Some(r.flow.interactive)
            && (ClassOf(r.rest, key).Some? ==> ClassOf(r.rest, key) == ClassOf(q, key))
  {
    hide FlowKey, Select, Total, TotalSize, Belongs;
    ServedSound(q);
    PopMeaning(q, key);
    var r, i := TakeNext(q), Select(q.flows, q.turn).index;
    OneFlow(q.flows, i, r.flow.key);
    ClassSettles(r.served, key);
    FindSame(q.flows, r.served.flows, key);
  }

  lemma ExpireClass(q: Q, now: nat, ttl: nat, key: Bytes)
    requires Valid(q)
    ensures ClassOf(Expire(q, now, ttl), key).Some? ==> ClassOf(Expire(q, now, ttl), key) == ClassOf(q, key)
  {
    var flows := DropFlows(q.flows, now, ttl);
    forall i | 0 <= i < |flows|
      ensures Belongs(flows[i])
    {
      assert Belongs(q.flows[i]);
      DropIsSuffix(q.flows[i].items, now, ttl);
    }
    ClassSettles(Q(flows, Total(flows), TotalSize(flows), q.turn), key);
    FindSame(q.flows, flows, key);
  }

  /** A flow is interactive exactly if the packet that opens it has at most 256 bytes, and keeps its class for as long
      as it is in the table. */
  lemma ClassKept(q: Q, e: Event, key: Bytes)
    requires Valid(q)
    ensures var before, after := ClassOf(q, key), ClassOf(Step(q, e), key);
            && (before.Some? && after.Some? ==> after == before)
            && (before.None? && after.Some? ==>
                  e.Arrival? && FlowKey(e.bytes) == key && after == Some(|e.bytes| <= 256))
  {
    hide Insert, FlowKey, Valid, ClassOf, TakeNext, Expire;
    match e
    case Arrival(p, at, maxPackets, maxBytes) =>
      if Admits(q, p, maxPackets, maxBytes) {
        NotPruned(q);
        PushClass(q, Packet(p, at), |p| <= INTERACTIVE_BYTES, key);
      }
    case Departure =>
      PopMeaning(q, key);
      if q.packets > 0 {
        PopClass(q, key);
      }
    case Ageing(now, ttl) => ExpireClass(q, now, ttl, key);
  }

  /** Under this key come short packets only, of at most 256 bytes, or long ones only, and the flow's class says so. */
  ghost predicate SizedAt(q: Q, short: Bytes -> bool, key: Bytes) {
    && (ClassOf(q, key).Some? ==> ClassOf(q, key) == Some(short(key)))
    && forall k :: 0 <= k < |Contents(q, key)| ==> (|Contents(q, key)[k].bytes| <= 256 <==> short(key))
  }

  ghost predicate Sized(q: Q, short: Bytes -> bool) {
    forall key :: SizedAt(q, short, key)
  }

  predicate FitsSizes(e: Event, short: Bytes -> bool) {
    e.Arrival? ==> (|e.bytes| <= 256 <==> short(FlowKey(e.bytes)))
  }

  lemma StepSizedAt(q: Q, e: Event, short: Bytes -> bool, key: Bytes)
    requires Valid(q) && SizedAt(q, short, key) && FitsSizes(e, short)
    ensures SizedAt(Step(q, e), short, key)
  {
    hide Insert, FlowKey, Valid, ClassOf, TakeNext, Expire, WithPacket, Contents;
    ClassKept(q, e, key);
    match e
    case Arrival(p, at, maxPackets, maxBytes) => PushMeaning(q, p, at, maxPackets, maxBytes, key);
    case Departure => PopMeaning(q, key);
    case Ageing(now, ttl) =>
      ExpireMeaning(q, now, ttl, key);
      DropIsSuffix(Contents(q, key), now, ttl);
  }

  lemma {:induction false} RunSized(q: Q, es: seq<Event>, short: Bytes -> bool)
    requires Valid(q) && Sized(q, short) && forall i :: 0 <= i < |es| ==> FitsSizes(es[i], short)
    ensures Valid(Run(q, es)) && Sized(Run(q, es), short)
    decreases |es|
  {
    hide Valid, SizedAt, FitsSizes, Step;
    if es != [] {
      StepValid(q, es[0]);
      forall key
        ensures SizedAt(Step(q, es[0]), short, key)
      {
        StepSizedAt(q, es[0], short, key);
      }
      RunSized(Step(q, es[0]), es[1..], short);
    }
  }

  predicate LongAt(q: Q, key: Bytes, k: nat) {
    k < |Contents(q, key)| && |Contents(q, key)[k].bytes| > 256
  }

  /** At every departure a packet of more than 256 bytes waits, and every time a shorter one leaves. */
  ghost predicate LongStarve(q: Q, es: seq<Event>)
    decreases |es|
  {
    if es == [] then true
    else
      && (es[0].Departure? ==>
            && (exists key, k: nat :: LongAt(q, key, k))
            && TakeNext(q).Popped? && |TakeNext(q).packet.bytes| <= 256)
      && LongStarve(Step(q, es[0]), es[1..])
  }

  lemma LongWaits(q: Q, short: Bytes -> bool, key: Bytes, k: nat)
    requires Valid(q) && Sized(q, short) && LongAt(q, key, k)
    ensures Waiting(q.flows, false)
  {
    hide Valid;
    assert SizedAt(q, short, key);
    var f := Find(q.flows, key);
    assert Ready(q.flows, f, false);
  }

  lemma ShortServed(q: Q, short: Bytes -> bool)
    requires Valid(q) && Sized(q, short) && TakeNext(q).Popped? && |TakeNext(q).packet.bytes| <= 256
    ensures TakeNext(q).flow.interactive
  {
    hide FlowKey, Valid, TakeNext, ClassOf, Contents;
    PopMeaning(q, []);
    PopClass(q, []);
    var key := FlowKey(TakeNext(q).packet.bytes);
    assert SizedAt(q, short, key);
  }

  lemma {:induction false} LongStarves(q: Q, es: seq<Event>, short: Bytes -> bool)
    requires Valid(q) && Sized(q, short) && LongStarve(q, es)
    requires forall i :: 0 <= i < |es| ==> FitsSizes(es[i], short)
    ensures Starving(q, es)
    decreases |es|
  {
    hide Valid, Sized, LongAt, FitsSizes, TakeNext, Waiting, Step;
    if es != [] {
      if es[0].Departure? {
        var key, k: nat :| LongAt(q, key, k);
        LongWaits(q, short, key, k);
        ShortServed(q, short);
      }
      RunSized(q, [es[0]], short);
      OneStep(q, es[0]);
      LongStarves(Step(q, es[0]), es[1..], short);
    }
  }

  lemma OneStep(q: Q, e: Event)
    ensures Run(q, [e]) == Step(q, e)
  {
    assert [e][1..] == [];
  }

  lemma NothingSizedAt(short: Bytes -> bool)
    ensures Valid(EMPTY) && Sized(EMPTY, short)
  {
  }

  /** The bound in bytes: in every run of flows of which each sends short packets only or long ones only, no more than
      four short packets leave in a row while packets of more than 256 bytes wait, as long as nothing expires. */
  lemma StarvationBySize(before: seq<Event>, es: seq<Event>, short: Bytes -> bool)
    requires forall i :: 0 <= i < |before| ==> FitsSizes(before[i], short)
    requires forall i :: 0 <= i < |es| ==> FitsSizes(es[i], short)
    requires LongStarve(Run(EMPTY, before), es) && forall e <- es :: !e.Ageing?
    ensures Departures(es) <= 4
  {
    hide Valid, Sized, FitsSizes, LongStarve, Starving;
    NothingSizedAt(short);
    RunSized(EMPTY, before, short);
    var q := Run(EMPTY, before);
    LongStarves(q, es, short);
    StarvationBound(q, es);
  }

  /** Until the next departure, no interactive turns are counted. */
  lemma {:induction false} TurnsStayZero(q: Q, es: seq<Event>)
    requires Valid(q) && Departures(es) == 0 && q.turn.interactiveTurns == 0
    ensures Valid(Run(q, es)) && Run(q, es).turn.interactiveTurns == 0
    decreases |es|
  {
    if es != [] {
      StepValid(q, es[0]);
      if es[0].Arrival? {
        PushMeaning(q, es[0].bytes, es[0].at, es[0].maxPackets, es[0].maxBytes, []);
      }
      TurnsStayZero(Step(q, es[0]), es[1..]);
    }
  }

  /** If two successive departures are bulk, whatever happened in between, nothing interactive waited at the
      second. */
  lemma TwoBulkTurns(q: Q, es: seq<Event>)
    requires Valid(q) && TakeNext(q).Popped? && !TakeNext(q).flow.interactive && Departures(es) == 0
    ensures var r := Run(TakeNext(q).rest, es);
            TakeNext(r).Popped? && !TakeNext(r).flow.interactive ==> !Waiting(r.flows, true)
  {
    PopMeaning(q, []);
    SelectServes(q.flows, q.turn);
    TurnsStayZero(TakeNext(q).rest, es);
    var r := Run(TakeNext(q).rest, es);
    SelectServes(r.flows, r.turn);
  }

  // ---------------------------------------------------------------------- each flow in its turn

  /** The keys of the flows of one class served, in order. */
  function Served(q: Q, es: seq<Event>, kind: bool): seq<Bytes>
    decreases |es|
  {
    if es == [] then []
    else
      (if es[0].Departure? && TakeNext(q).Popped? && TakeNext(q).flow.interactive == kind then [TakeNext(q).flow.key]
        else [])
      + Served(Step(q, es[0]), es[1..], kind)
  }

  /** The flow waits at every departure and is never the one served; the table is not compacted. */
  predicate KeptWaiting(q: Q, es: seq<Event>, key: Bytes)
    decreases |es|
  {
    if es == [] then true
    else
      && !Compacts(q, es[0])
      && (es[0].Departure? ==> Contents(q, key) != [] && TakeNext(q).Popped? && TakeNext(q).flow.key != key)
      && KeptWaiting(Step(q, es[0]), es[1..], key)
  }

  /** Each key of the list, if it has a flow, has one the cursor has not passed; and no key twice. */
  ghost predicate InTurn(q: Q, served: seq<Bytes>, f: nat, kind: bool) {
    && (forall i :: 0 <= i < |served| && Find(q.flows, served[i]) < |q.flows| ==>
          !Passed(f, Cursor(q.turn, kind), Find(q.flows, served[i])))
    && (forall i, j :: 0 <= i < j < |served| ==> served[i] != served[j])
  }

  lemma InTurnBefore(q: Q, next: Q, served: seq<Bytes>, f: nat, kind: bool)
    requires InTurn(next, served, f, kind)
    requires forall x :: 0 <= x < |q.flows| && Passed(f, Cursor(q.turn, kind), x) ==>
               Passed(f, Cursor(next.turn, kind), x)
    requires |q.flows| <= |next.flows| && forall i :: 0 <= i < |q.flows| ==> next.flows[i].key == q.flows[i].key
    ensures InTurn(q, served, f, kind)
  {
    forall i | 0 <= i < |served| && Find(q.flows, served[i]) < |q.flows|
      ensures !Passed(f, Cursor(q.turn, kind), Find(q.flows, served[i]))
    {
      FindPrefix(q.flows, next.flows, served[i]);
    }
  }

  lemma FindPrefix<T>(a: seq<Flow<T>>, b: seq<Flow<T>>, key: Bytes)
    requires |a| <= |b| && forall i :: 0 <= i < |a| ==> a[i].key == b[i].key
    requires Find(a, key) < |a|
    ensures Find(b, key) == Find(a, key)
  {
    var f, g := Find(a, key), Find(b, key);
  }

  /** One more key in front of the list. */
  lemma InTurnPrepend(q: Q, next: Q, later: seq<Bytes>, f: nat, kind: bool, i: nat)
    requires InTurn(q, later, f, kind) && InTurn(next, later, f, kind) && DistinctKeys(q.flows)
             && i < |q.flows| == |next.flows|
    requires next.flows[i].key == q.flows[i].key
    requires forall x :: 0 <= x < |q.flows| ==> next.flows[x].key == q.flows[x].key
    requires !Passed(f, Cursor(q.turn, kind), i) && Passed(f, Cursor(next.turn, kind), i)
    ensures InTurn(q, [q.flows[i].key] + later, f, kind)
  {
    hide Find, Passed;
    var k := q.flows[i].key;
    assert Find(q.flows, k) == i;
    FindSame(q.flows, next.flows, k);
    forall j | 0 <= j < |later|
      ensures later[j] != k
    {
      var at := Find(next.flows, later[j]);
      assert at < |next.flows| ==> !Passed(f, Cursor(next.turn, kind), at);
    }
  }

  /** A departure while f waits: if f's class is served, the flow served was not passed and now is. */
  lemma ServedInTurn(q: Q, later: seq<Bytes>, f: nat, kind: bool)
    requires Valid(q) && TakeNext(q).Popped? && f < |q.flows| && q.flows[f].items != []
             && q.flows[f].interactive == kind
    requires TakeNext(q).flow.key != q.flows[f].key
    requires InTurn(TakeNext(q).served, later, f, kind)
    ensures InTurn(q, (if TakeNext(q).flow.interactive == kind then [TakeNext(q).flow.key] else []) + later, f, kind)
  {
    hide FlowKey, Next, Total, TotalSize, InTurn;
    TurnsPass(q.flows, q.turn, f);
    var c, next := Select(q.flows, q.turn), TakeNext(q).served;
    InTurnBefore(q, next, later, f, kind);
    if TakeNext(q).flow.interactive == kind {
      InTurnPrepend(q, next, later, f, kind, c.index);
    } else {
      assert [] + later == later;
    }
  }

  /** A push, or an expiry that does not compact, leaves every flow in its place and the turn alone. */
  lemma PlacesKept(q: Q, e: Event)
    requires Valid(q) && !Compacts(q, e) && !e.Departure?
    ensures Step(q, e).turn == q.turn && |q.flows| <= |Step(q, e).flows|
    ensures forall i :: 0 <= i < |q.flows| ==>
              Step(q, e).flows[i].key == q.flows[i].key && Step(q, e).flows[i].interactive == q.flows[i].interactive
  {
  }

  /** While a flow is kept waiting without the table being compacted, every other flow of its class is
      served at most once, whatever is pushed or expires meanwhile. */
  lemma {:induction false} EachOnceMeanwhile(q: Q, es: seq<Event>, key: Bytes, f: nat, kind: bool)
    requires Valid(q) && KeptWaiting(q, es, key)
    requires f < |q.flows| && q.flows[f].key == key && q.flows[f].interactive == kind
    ensures InTurn(q, Served(q, es, kind), f, kind)
    decreases |es|
  {
    if es != [] {
      hide Valid, Find, InTurn, Passed, Contents, Compacts;
      var next := Step(q, es[0]);
      var later := Served(next, es[1..], kind);
      StepValid(q, es[0]);
      if es[0].Departure? {
        PopMeaning(q, []);
        KeyPlace(q, key, f);
        ServedPlace(q, f);
        EachOnceMeanwhile(next, es[1..], key, f, kind);
        ServedInTurn(q, later, f, kind);
      } else {
        PlacesKept(q, es[0]);
        EachOnceMeanwhile(next, es[1..], key, f, kind);
        InTurnBefore(q, next, later, f, kind);
        assert [] + later == later;
      }
    } else {
      assert InTurn(q, [], f, kind);
    }
  }

  lemma KeyPlace(q: Q, key: Bytes, f: nat)
    requires Valid(q) && f < |q.flows| && q.flows[f].key == key
    ensures Contents(q, key) == q.flows[f].items
  {
    assert DistinctKeys(q.flows);
    OneFlow(q.flows, f, key);
    hide Valid, DistinctKeys, Find;
  }

  lemma ServedPlace(q: Q, f: nat)
    requires Valid(q) && TakeNext(q).Popped? && !Compacts(q, Departure) && f < |q.flows|
    ensures TakeNext(q).rest == TakeNext(q).served
    ensures f < |TakeNext(q).rest.flows| && TakeNext(q).rest.flows[f].key == q.flows[f].key
    ensures TakeNext(q).rest.flows[f].interactive == q.flows[f].interactive
  {
  }

  // ---------------------------------------------------------------------- the class

  class FlowQueue {
    var flows: seq<Flow<Packet>>
    var packets: nat
    var bytes: nat
    var interactiveCursor: nat
    var bulkCursor: nat
    var interactiveTurns: nat

    constructor ()
      ensures Model() == EMPTY
    {
      flows, packets, bytes := [], 0, 0;
      interactiveCursor, bulkCursor, interactiveTurns := 0, 0, 0;
    }

    function Model(): Q
      reads this
    {
      Q(flows, packets, bytes, Turn(interactiveCursor, bulkCursor, interactiveTurns))
    }

    /** The longest any packet has waited. */
    method OldestAge(now: nat) returns (age: nat)
      ensures forall i :: 0 <= i < |flows| && flows[i].items != [] && now >= flows[i].items[0].enqueued ==>
                now - flows[i].items[0].enqueued <= age
      ensures age > 0 ==>
                exists i :: 0 <= i < |flows| && flows[i].items != [] && flows[i].items[0].enqueued + age == now
      ensures TimedBy(Model(), now) ==>
                forall i, k :: 0 <= i < |flows| && 0 <= k < |flows[i].items| ==> now - flows[i].items[k].enqueued <= age
    {
      age := 0;
      var i := 0;
      while i < |flows|
        invariant i <= |flows|
        invariant forall j :: 0 <= j < i && flows[j].items != [] && now >= flows[j].items[0].enqueued ==>
                    now - flows[j].items[0].enqueued <= age
        invariant age > 0 ==> exists j :: 0 <= j < i && flows[j].items != [] && flows[j].items[0].enqueued + age == now
      {
        if flows[i].items != [] && now >= flows[i].items[0].enqueued {
          age := Max(age, now - flows[i].items[0].enqueued);
        }
        i := i + 1;
      }
      if TimedBy(Model(), now) {
        forall i, k | 0 <= i < |flows| && 0 <= k < |flows[i].items|
          ensures now - flows[i].items[k].enqueued <= age
        {
          assert InTimeOrder(flows[i].items);
          assert flows[i].items[0].enqueued <= flows[i].items[k].enqueued;
        }
      }
    }

    method Clear()
      modifies this
      ensures Model() == EMPTY
    {
      flows, packets, bytes := [], 0, 0;
      interactiveCursor, bulkCursor, interactiveTurns := 0, 0, 0;
    }

    method PruneIfNeeded()
      modifies this
      ensures Model() == Prune(old(Model()))
    {
      if |flows| <= packets + SLACK {
        return;
      }
      var kept: seq<Flow<Packet>> := [];
      var i := |flows|;
      while i > 0
        invariant 0 <= i <= |flows| && kept == Busy(flows[i..]) && Model() == old(Model())
      {
        i := i - 1;
        assert flows[i..][1..] == flows[i + 1..];
        if flows[i].items != [] {
          kept := [flows[i]] + kept;
        }
      }
      assert flows[0..] == flows;
      flows := kept;
      interactiveCursor, bulkCursor, interactiveTurns := 0, 0, 0;
    }

    method Push(packet: Bytes, at: nat, maxPackets: nat, maxBytes: nat) returns (ok: bool)
      requires Valid(Model())
      modifies this
      ensures Valid(Model()) && ok == Admits(old(Model()), packet, maxPackets, maxBytes)
      ensures Model() == WithPacket(old(Model()), packet, at, maxPackets, maxBytes)
    {
      hide FlowKey, Sound, Size, Total, TotalSize, Contents, Find;
      PushMeaning(Model(), packet, at, maxPackets, maxBytes, []);
      if packet == [] || packets >= maxPackets || |packet| > maxBytes || bytes > maxBytes - |packet| {
        return false;
      }
      PruneIfNeeded();
      var key := FlowKey(packet);
      var i := Lookup(flows, key);
      if i == |flows| {
        flows := flows + [Flow(key, [], |packet| <= INTERACTIVE_BYTES)];
      }
      bytes, packets := bytes + |packet|, packets + 1;
      flows := flows[i := flows[i].(items := flows[i].items + [Packet(packet, at)])];
      assert [] + [Packet(packet, at)] == [Packet(packet, at)];
      assert flows == Insert(Prune(old(Model())).flows, key, Packet(packet, at), |packet| <= INTERACTIVE_BYTES);
      ok := true;
    }

    /** Takes the expired run at the head of flow i. */
    method DropHead(i: nat, now: nat, ttl: nat) returns (dropped: nat)
      requires i < |flows| && packets == Total(flows) && bytes == TotalSize(flows)
      modifies this
      ensures packets == Total(flows) && bytes == TotalSize(flows) && packets + dropped == old(packets)
      ensures flows == old(flows)[i := old(flows)[i].(items := DropWhile(old(flows)[i].items, now, ttl))]
      ensures Model().turn == old(Model()).turn
    {
      hide Total, TotalSize;
      dropped := 0;
      while flows[i].items != [] && Expired(flows[i].items[0], now, ttl)
        invariant |flows| == |old(flows)| && packets == Total(flows) && bytes == TotalSize(flows)
        invariant packets + dropped == old(packets)
        invariant flows == old(flows)[i := old(flows)[i].(items := flows[i].items)]
        invariant DropWhile(flows[i].items, now, ttl) == DropWhile(old(flows)[i].items, now, ttl)
        invariant Model().turn == old(Model()).turn
        decreases |flows[i].items|
      {
        var front := flows[i].items[0];
        var rest := flows[i].(items := flows[i].items[1..]);
        TotalUpdate(flows, i, rest);
        TotalSizeUpdate(flows, i, rest);
        SizeBound(flows, i);
        flows := flows[i := rest];
        bytes, packets, dropped := bytes - |front.bytes|, packets - 1, dropped + 1;
      }
    }

    /** The same for every flow. */
    method DropHeads(now: nat, ttl: nat) returns (dropped: nat)
      requires packets == Total(flows) && bytes == TotalSize(flows)
      modifies this
      ensures packets == Total(flows) && bytes == TotalSize(flows) && packets + dropped == old(packets)
      ensures flows == DropFlows(old(flows), now, ttl)
      ensures Model().turn == old(Model()).turn
    {
      ghost var target := DropFlows(flows, now, ttl);
      dropped := 0;
      var i := 0;
      while i < |flows|
        invariant i <= |flows| == |target| == |old(flows)|
        invariant forall j :: 0 <= j < |flows| ==> flows[j] == if j < i then target[j] else old(flows)[j]
        invariant packets == Total(flows) && bytes == TotalSize(flows) && dropped + packets == old(packets)
        invariant Model().turn == old(Model()).turn
      {
        var n := DropHead(i, now, ttl);
        dropped := dropped + n;
        i := i + 1;
      }
    }

    method DropExpired(now: nat, ttl: nat) returns (dropped: nat)
      requires Valid(Model())
      modifies this
      ensures Valid(Model())
      ensures Model() == Expire(old(Model()), now, ttl)
      ensures dropped + packets == old(packets)
    {
      ExpireMeaning(Model(), now, ttl, []);
      dropped := DropHeads(now, ttl);
      BusyTotals(flows);
      if packets == 0 {
        Clear();
      } else {
        PruneIfNeeded();
      }
    }

    /** The next packet in turn; the source's fallback for a queue that is not empty and yet yields
        nothing is never taken. */
    method Pop() returns (packet: Option<Packet>)
      requires Valid(Model())
      modifies this
      ensures Valid(Model())
      ensures old(packets) == 0 ==> packet == None && Model() == old(Model())
      ensures old(packets) > 0 ==>
                TakeNext(old(Model())).Popped? && packet == Some(TakeNext(old(Model())).packet)
                && Model() == TakeNext(old(Model())).rest
    {
      hide FlowKey, Next, Find, Sound, Contents, Total, TotalSize, Busy;
      PopMeaning(Model(), []);
      if packets == 0 {
        return None;
      }
      var index, turn := Choose(flows, Turn(interactiveCursor, bulkCursor, interactiveTurns));
      assert index < |flows|;
      interactiveCursor, bulkCursor, interactiveTurns := turn.interactiveCursor, turn.bulkCursor, turn.interactiveTurns;
      var front := flows[index].items[0];
      SizeBound(flows, index);
      flows := flows[index := flows[index].(items := flows[index].items[1..])];
      packets, bytes := packets - 1, bytes - |front.bytes|;
      assert Model() == TakeNext(old(Model())).served;
      if packets == 0 {
        Clear();
      } else {
        PruneIfNeeded();
      }
      packet := Some(front);
    }
  }
}
