/** The bounded queue of sealed records in front of a connection: what it drops when it is full or late, how it is
    written to a TLS stream piece by piece, and how it is gathered into messages for a WebSocket carrier. */
module SendQueue {
  import opened Bytes
  import opened RecordTheorems

  /** The limits; times are in milliseconds. With `adaptive` the number of records in a message follows the queue. */
  datatype Config = Config(
    queuePackets: nat, queueBytes: nat, queueDelay: int, batchPackets: int, batchBytes: nat,
    adaptive: bool, adaptiveMin: int, adaptiveMax: int, targetDelay: int)

  /** What the configuration check makes sure of. */
  predicate Configured(cfg: Config) {
    && 0 <= cfg.queueDelay
    && (cfg.adaptive ==> cfg.adaptiveMin <= cfg.adaptiveMax && 0 <= cfg.targetDelay <= cfg.queueDelay)
  }

  /** A sealed record in the queue; the record says which sequence number it was sealed with. */
  datatype Queued = Queued(record: Sent, enqueued: int, payload: bool)

  /** The sending end. `sent`, `wire` and `batches` record what has left: whole records, bytes, and the records of each
      message handed to a carrier. */
  datatype Sender = Sender(
    queue: seq<Queued>, queuedBytes: nat, frontOffset: nat, sequence: nat, dropQueue: nat, dropDelay: nat,
    sent: seq<Queued>, wire: Bytes, batches: seq<seq<Queued>>)

  const NEW := Sender([], 0, 0, 1, 0, 0, [], [], [])

  function Size(x: Queued): nat {
    |x.record.bytes|
  }

  function Serial(x: Queued): nat {
    x.record.out.number
  }

  function Total(q: seq<Queued>): nat {
    if q == [] then 0 else Size(q[0]) + Total(q[1..])
  }

  function Data(q: seq<Queued>): Bytes {
    if q == [] then [] else q[0].record.bytes + Data(q[1..])
  }

  // ---------------------------------------------------------------------- steps

  function Less(x: nat, y: nat): nat {
    if x >= y then x - y else 0
  }

  predicate Full(s: Sender, size: nat, cfg: Config) {
    s.queue != [] && (|s.queue| >= cfg.queuePackets || s.queuedBytes + size > cfg.queueBytes)
  }

  function WithoutFront(s: Sender): Sender
    requires s.queue != []
  {
    s.(queue := s.queue[1..], queuedBytes := Less(s.queuedBytes, Size(s.queue[0])))
  }

  /** Drops the oldest records until one of this size fits. */
  function Evict(s: Sender, size: nat, cfg: Config): Sender
    decreases |s.queue|
  {
    if Full(s, size, cfg) then Evict(WithoutFront(s).(dropQueue := s.dropQueue + 1), size, cfg) else s
  }

  /** A new record: refused if it can never fit, or if making room would drop a front record that must stay. */
  function Enqueued(s: Sender, x: Queued, protectFront: bool, cfg: Config): Sender {
    if Size(x) > cfg.queueBytes || (protectFront && Full(s, Size(x), cfg)) then s.(dropQueue := s.dropQueue + 1)
    else
      var t := Evict(s, Size(x), cfg);
      t.(queue := t.queue + [x], queuedBytes := t.queuedBytes + Size(x))
  }

  function Offer(s: Sender, x: Queued, cfg: Config): Sender {
    Enqueued(s, x, s.frontOffset > 0, cfg).(sequence := s.sequence + 1)
  }

  predicate IsLate(x: Queued, now: int, cfg: Config) {
    now - x.enqueued > cfg.queueDelay
  }

  /** Drops what has waited too long, but never a record that is partly written. */
  function Expire(s: Sender, now: int, cfg: Config): Sender
    decreases |s.queue|
  {
    if s.queue != [] && s.frontOffset == 0 && IsLate(s.queue[0], now, cfg) then
      Expire(WithoutFront(s).(dropDelay := s.dropDelay + 1), now, cfg)
    else s
  }

  /** One write took n bytes of the front record. */
  function Written(s: Sender, n: nat): Sender
    requires s.queue != [] && 0 < n <= Size(s.queue[0]) - s.frontOffset
  {
    var front := s.queue[0];
    var t := s.(wire := s.wire + front.record.bytes[s.frontOffset..s.frontOffset + n]);
    if s.frontOffset + n == Size(front) then WithoutFront(t).(frontOffset := 0, sent := s.sent + [front])
    else t.(frontOffset := s.frontOffset + n)
  }

  predicate Flushing(s: Sender, takes: seq<nat>, records: nat, bytes: nat, cfg: Config) {
    s.queue != [] && records < Max(1, cfg.batchPackets) && bytes < Max(1, cfg.batchBytes) && takes != [] && takes[0] > 0
  }

  /** There is something left of the front record. */
  predicate Writable(s: Sender) {
    (forall k :: 0 <= k < |s.queue| ==> Size(s.queue[k]) > 0) && (s.queue != [] ==> s.frontOffset < Size(s.queue[0]))
  }

  function WriteSize(s: Sender, takes: seq<nat>): (n: nat)
    requires Writable(s) && s.queue != [] && takes != []
    ensures n <= Size(s.queue[0]) - s.frontOffset && (takes[0] > 0 ==> n > 0)
  {
    Min(takes[0], Size(s.queue[0]) - s.frontOffset)
  }

  /** Writes as long as the socket takes bytes: `takes` is how many each write takes, zero when it would block. */
  function FlushTls(s: Sender, takes: seq<nat>, records: nat, bytes: nat, cfg: Config): Sender
    requires Writable(s)
    decreases |takes|
  {
    if !Flushing(s, takes, records, bytes, cfg) then s
    else
      var n := WriteSize(s, takes);
      var t := Written(s, n);
      FlushTls(t, takes[1..], records + (if t.frontOffset == 0 then 1 else 0), bytes + n, cfg)
  }

  /** One write of the loop. */
  lemma OneWrite(s: Sender, takes: seq<nat>, i: nat, records: nat, bytes: nat, cfg: Config)
    requires Writable(s) && i < |takes| && Flushing(s, takes[i..], records, bytes, cfg)
    ensures s.queue != [] && 0 < Min(takes[i], Size(s.queue[0]) - s.frontOffset) <= Size(s.queue[0]) - s.frontOffset
    ensures var n := Min(takes[i], Size(s.queue[0]) - s.frontOffset);
            var t := Written(s, n);
            Writable(t) ==>
              FlushTls(s, takes[i..], records, bytes, cfg)
                == FlushTls(t, takes[i + 1..], records + (if t.frontOffset == 0 then 1 else 0), bytes + n, cfg)
  {
    assert takes[i..][0] == takes[i] && takes[i..][1..] == takes[i + 1..];
    hide Written;
  }

  lemma FlushEnd(s: Sender, takes: seq<nat>, records: nat, bytes: nat, cfg: Config)
    requires Writable(s) && !Flushing(s, takes, records, bytes, cfg)
    ensures FlushTls(s, takes, records, bytes, cfg) == s
  {
  }

  /** How many records go into the next message, once `count` records of `size` bytes are in it. */
  function Gathered(q: seq<Queued>, count: nat, size: nat, limit: int, cfg: Config): (k: nat)
    ensures k <= |q|
    decreases |q|
  {
    if q == [] || count >= Max(1, limit) || size + Size(q[0]) > cfg.batchBytes then 0
    else 1 + Gathered(q[1..], count + 1, size + Size(q[0]), limit, cfg)
  }

  function Clamp(v: int, low: int, high: int): int {
    if v < low then low else if high < v then high else v
  }

  /** The adaptive choice: more records the longer the queue, all that are allowed once the front one has waited for the
      target delay, the fewest while the queue is short and young. */
  function Adapted(q: seq<Queued>, cfg: Config, now: int): int
    requires q != []
  {
    var age, span := now - q[0].enqueued, cfg.adaptiveMax - cfg.adaptiveMin;
    if age >= cfg.targetDelay then cfg.adaptiveMax
    else if age < cfg.targetDelay / 4 && |q| <= 4 then cfg.adaptiveMin
    else cfg.adaptiveMin + span * Min(|q|, 64) / 64
  }

  /** How many records the next message may have. */
  function BatchLimit(q: seq<Queued>, cfg: Config, now: int): int {
    if !cfg.adaptive then cfg.batchPackets
    else Clamp(if q == [] then cfg.adaptiveMin else Adapted(q, cfg, now), cfg.adaptiveMin, cfg.adaptiveMax)
  }

  /** The most records a message can ever have. */
  function MostRecords(cfg: Config): int {
    if cfg.adaptive then cfg.adaptiveMax else cfg.batchPackets
  }

  /** The limit never exceeds its larger setting, nor falls below the smaller one. It is at its largest once the front
      record has waited for the target delay or 64 records wait, at its smallest while few and young ones do, and in
      between a 64th of the span for each record. */
  lemma LimitMeaning(q: seq<Queued>, cfg: Config, now: int)
    requires Configured(cfg)
    ensures BatchLimit(q, cfg, now) <= MostRecords(cfg)
    ensures cfg.adaptive ==> cfg.adaptiveMin <= BatchLimit(q, cfg, now)
    ensures q != [] && (now - q[0].enqueued >= cfg.targetDelay || |q| >= 64) ==>
              BatchLimit(q, cfg, now) == MostRecords(cfg)
    ensures cfg.adaptive && 0 < |q| <= 4 && now - q[0].enqueued < cfg.targetDelay / 4 ==>
              BatchLimit(q, cfg, now) == cfg.adaptiveMin
    ensures cfg.adaptive && 4 < |q| < 64 && now - q[0].enqueued < cfg.targetDelay ==>
              var share, more := (cfg.adaptiveMax - cfg.adaptiveMin) * |q|, BatchLimit(q, cfg, now) - cfg.adaptiveMin;
              64 * more <= share < 64 * (more + 1)
  {
    if cfg.adaptive && q != [] {
      ShareOfSpan(cfg.adaptiveMax - cfg.adaptiveMin, Min(|q|, 64));
    }
  }

  lemma ShareOfSpan(span: nat, depth: nat)
    requires depth <= 64
    ensures 0 <= span * depth / 64 <= span && (depth == 64 ==> span * depth / 64 == span)
    ensures 64 * (span * depth / 64) <= span * depth < 64 * (span * depth / 64 + 1)
  {
    assert span * depth <= span * 64;
  }

  /** Takes the records of the next message off the queue; there may be none. */
  function TakeBatch(s: Sender, limit: int, cfg: Config): Sender {
    var k := Gathered(s.queue, 0, 0, limit, cfg);
    var batch := s.queue[..k];
    s.(queue := s.queue[k..], queuedBytes := Less(s.queuedBytes, Total(batch)), sent := s.sent + batch,
       wire := s.wire + Data(batch), batches := s.batches + (if k > 0 then [batch] else []))
  }

  // ---------------------------------------------------------------------- what holds of every sender

  /** Sequence numbers go up, from 1 on, and stay below the next one. */
  predicate Numbered(q: seq<Queued>, next: nat) {
    && (forall i :: 0 <= i < |q| ==> 1 <= Serial(q[i]) < next)
    && (forall i, j :: 0 <= i < j < |q| ==> Serial(q[i]) < Serial(q[j]))
  }

  predicate NonEmpty(q: seq<Queued>) {
    forall i :: 0 <= i < |q| ==> Size(q[i]) > 0
  }

  /** The bytes of the front record that are out. */
  function Begun(s: Sender): Bytes
    requires s.queue != [] ==> s.frontOffset <= Size(s.queue[0])
  {
    if s.queue == [] then [] else s.queue[0].record.bytes[..s.frontOffset]
  }

  predicate SenderValid(s: Sender, cfg: Config) {
    && NonEmpty(s.queue)
    && (if s.queue == [] then s.frontOffset == 0 else s.frontOffset < Size(s.queue[0]))
    && s.queuedBytes == Total(s.queue) <= cfg.queueBytes
    && |s.queue| <= Max(1, cfg.queuePackets)
    && s.wire == Data(s.sent) + Begun(s)
    && Numbered(s.sent + s.queue, s.sequence)
    && s.sequence == 1 + |s.sent| + |s.queue| + s.dropQueue + s.dropDelay
  }

  lemma NewValid(cfg: Config)
    ensures SenderValid(NEW, cfg)
  {
    assert Data([]) == [] && NEW.sent + NEW.queue == [];
  }

  lemma {:induction false} TotalAppend(a: seq<Queued>, b: seq<Queued>)
    ensures Total(a + b) == Total(a) + Total(b)
    decreases |a|
  {
    if a == [] {
      assert a + b == b;
    } else {
      assert (a + b)[1..] == a[1..] + b;
      TotalAppend(a[1..], b);
    }
  }

  lemma {:induction false} DataAppend(a: seq<Queued>, b: seq<Queued>)
    ensures Data(a + b) == Data(a) + Data(b)
    decreases |a|
  {
    if a == [] {
      assert a + b == b;
    } else {
      assert (a + b)[1..] == a[1..] + b;
      DataAppend(a[1..], b);
    }
  }

  /** Leaving records out keeps the numbers in order. */
  lemma NumberedWithout(a: seq<Queued>, x: Queued, b: seq<Queued>, next: nat)
    requires Numbered(a + [x] + b, next)
    ensures Numbered(a + b, next)
  {
    var whole := a + [x] + b;
    forall i, j | 0 <= i < j < |a + b|
      ensures Serial((a + b)[i]) < Serial((a + b)[j])
    {
      var i', j' := if i < |a| then i else i + 1, if j < |a| then j else j + 1;
      assert (a + b)[i] == whole[i'] && (a + b)[j] == whole[j'];
    }
    forall i | 0 <= i < |a + b|
      ensures 1 <= Serial((a + b)[i]) < next
    {
      assert (a + b)[i] == whole[if i < |a| then i else i + 1];
    }
  }

  lemma WithoutFirst(q: seq<Queued>)
    requires q != [] && NonEmpty(q)
    ensures NonEmpty(q[1..]) && Total(q) == Size(q[0]) + Total(q[1..]) && (q[1..] != [] ==> Size(q[1]) > 0)
  {
    assert forall i :: 0 <= i < |q[1..]| ==> q[1..][i] == q[i + 1];
  }

  /** A front record none of which is out can be dropped. */
  lemma DropKeeps(s: Sender, cfg: Config)
    requires SenderValid(s, cfg) && s.queue != [] && s.frontOffset == 0
    ensures SenderValid(WithoutFront(s).(dropQueue := s.dropQueue + 1), cfg)
    ensures SenderValid(WithoutFront(s).(dropDelay := s.dropDelay + 1), cfg)
  {
    hide Numbered, Data, Total, NonEmpty;
    assert s.sent + s.queue == s.sent + [s.queue[0]] + s.queue[1..];
    NumberedWithout(s.sent, s.queue[0], s.queue[1..], s.sequence);
    WithoutFirst(s.queue);
    assert Begun(s) == [] == Begun(WithoutFront(s));
  }

  lemma {:induction false} EvictKeeps(s: Sender, size: nat, cfg: Config)
    requires SenderValid(s, cfg) && (s.frontOffset == 0 || !Full(s, size, cfg))
    ensures SenderValid(Evict(s, size, cfg), cfg)
    decreases |s.queue|
  {
    if Full(s, size, cfg) {
      DropKeeps(s, cfg);
      EvictKeeps(WithoutFront(s).(dropQueue := s.dropQueue + 1), size, cfg);
    }
  }

  /** There is no room behind the first i records. */
  predicate NoRoom(s: Sender, i: nat, size: nat, cfg: Config)
    requires i <= |s.queue|
  {
    |s.queue| - i >= cfg.queuePackets || Total(s.queue[i..]) + size > cfg.queueBytes
  }

  /** What evicting does: it leaves a suffix of the queue, the longest that leaves room, and counts the others. */
  lemma {:induction false} EvictMeaning(s: Sender, size: nat, cfg: Config) returns (k: nat)
    requires s.queuedBytes == Total(s.queue)
    ensures k <= |s.queue| && Evict(s, size, cfg) == s.(queue := s.queue[k..], queuedBytes := Total(s.queue[k..]),
            dropQueue := s.dropQueue + k)
    ensures k < |s.queue| ==> !NoRoom(s, k, size, cfg)
    ensures forall i: nat :: i < k ==> NoRoom(s, i, size, cfg)
    decreases |s.queue|
  {
    assert s.queue[0..] == s.queue;
    k := 0;
    if Full(s, size, cfg) {
      var t := WithoutFront(s).(dropQueue := s.dropQueue + 1);
      var j := EvictMeaning(t, size, cfg);
      k := j + 1;
      assert t.queue[j..] == s.queue[k..];
      forall i: nat | i < k
        ensures NoRoom(s, i, size, cfg)
      {
        if i > 0 {
          assert NoRoom(t, i - 1, size, cfg) && t.queue[i - 1..] == s.queue[i..];
        }
      }
    }
  }

  /** The new record fits behind what is left of the queue without its first i records. */
  predicate RoomBehind(s: Sender, i: nat, x: Queued, cfg: Config)
    requires i <= |s.queue|
  {
    |s.queue[i..]| < cfg.queuePackets && Total(s.queue[i..] + [x]) <= cfg.queueBytes
  }

  lemma RoomBehindMeaning(s: Sender, i: nat, x: Queued, cfg: Config)
    requires i <= |s.queue|
    ensures Total(s.queue[i..] + [x]) == Total(s.queue[i..]) + Size(x)
    ensures RoomBehind(s, i, x, cfg) == !NoRoom(s, i, Size(x), cfg)
  {
    OneTotal(x);
    TotalAppend(s.queue[i..], [x]);
  }

  /** What offering a record does. One that can never fit, or would displace a front record that has begun to leave, is
      dropped and nothing else changes. Any other is queued behind the longest end of the queue that leaves room for
      it; the records before that are dropped and counted, none if there is room already. */
  lemma OfferMeaning(s: Sender, x: Queued, cfg: Config) returns (k: nat)
    requires s.queuedBytes == Total(s.queue)
    ensures k <= |s.queue|
    ensures if Size(x) > cfg.queueBytes || (s.frontOffset > 0 && s.queue != [] && !RoomBehind(s, 0, x, cfg)) then
              Offer(s, x, cfg) == s.(dropQueue := s.dropQueue + 1, sequence := s.sequence + 1)
            else
              && Offer(s, x, cfg) == s.(queue := s.queue[k..] + [x], queuedBytes := Total(s.queue[k..] + [x]),
                                        dropQueue := s.dropQueue + k, sequence := s.sequence + 1)
              && (k < |s.queue| ==> RoomBehind(s, k, x, cfg))
              && (forall i: nat :: i < k ==> !RoomBehind(s, i, x, cfg))
  {
    k := EvictMeaning(s, Size(x), cfg);
    hide Total, Evict, RoomBehind, NoRoom;
    RoomBehindMeaning(s, k, x, cfg);
    FullMeaning(s, x, cfg);
    forall i: nat | i < k
      ensures !RoomBehind(s, i, x, cfg)
    {
      RoomBehindMeaning(s, i, x, cfg);
      assert NoRoom(s, i, Size(x), cfg);
    }
  }

  lemma FullMeaning(s: Sender, x: Queued, cfg: Config)
    requires s.queuedBytes == Total(s.queue)
    ensures Full(s, Size(x), cfg) == (s.queue != [] && !RoomBehind(s, 0, x, cfg))
  {
    RoomBehindMeaning(s, 0, x, cfg);
    assert s.queue[0..] == s.queue;
  }

  lemma OneTotal(x: Queued)
    ensures Total([x]) == Size(x)
  {
    assert [x][1..] == [];
  }

  lemma NumberedWith(q: seq<Queued>, x: Queued, next: nat)
    requires Numbered(q, next) && Serial(x) == next && next >= 1
    ensures Numbered(q + [x], next + 1)
  {
  }

  lemma AppendKeeps(s: Sender, x: Queued, cfg: Config)
    requires SenderValid(s, cfg) && !Full(s, Size(x), cfg) && 0 < Size(x) <= cfg.queueBytes && Serial(x) == s.sequence
    ensures SenderValid(s.(sequence := s.sequence + 1, queue := s.queue + [x],
            queuedBytes := s.queuedBytes + Size(x)), cfg)
  {
    TotalAppend(s.queue, [x]);
    assert [x][1..] == [];
    assert s.sent + (s.queue + [x]) == s.sent + s.queue + [x];
    NumberedWith(s.sent + s.queue, x, s.sequence);
    hide Numbered, Data, Total;
    var t := s.(queue := s.queue + [x]);
    assert Begun(t) == Begun(s);
  }

  lemma EvictedEnough(s: Sender, size: nat, cfg: Config)
    ensures Evict(s, size, cfg).sequence == s.sequence && !Full(Evict(s, size, cfg), size, cfg)
    decreases |s.queue|
  {
    if Full(s, size, cfg) {
      EvictedEnough(WithoutFront(s).(dropQueue := s.dropQueue + 1), size, cfg);
    }
  }

  /** A record that is refused only leaves a gap in the numbering. */
  lemma RefusedKeeps(s: Sender, cfg: Config)
    requires SenderValid(s, cfg)
    ensures SenderValid(s.(sequence := s.sequence + 1, dropQueue := s.dropQueue + 1), cfg)
  {
  }

  lemma OfferKeeps(s: Sender, x: Queued, cfg: Config)
    requires SenderValid(s, cfg) && Size(x) > 0 && Serial(x) == s.sequence
    ensures SenderValid(Offer(s, x, cfg), cfg)
  {
    if Size(x) > cfg.queueBytes || (s.frontOffset > 0 && Full(s, Size(x), cfg)) {
      RefusedKeeps(s, cfg);
    } else {
      RoomMade(s, x, cfg);
    }
  }

  lemma RoomMade(s: Sender, x: Queued, cfg: Config)
    requires SenderValid(s, cfg) && 0 < Size(x) <= cfg.queueBytes && (s.frontOffset == 0 || !Full(s, Size(x), cfg))
             && Serial(x) == s.sequence
    ensures SenderValid(Offer(s, x, cfg), cfg)
  {
    hide SenderValid;
    EvictedEnough(s, Size(x), cfg);
    EvictKeeps(s, Size(x), cfg);
    var t := Evict(s, Size(x), cfg);
    AppendKeeps(t, x, cfg);
  }

  lemma {:induction false} ExpireKeeps(s: Sender, now: int, cfg: Config)
    requires SenderValid(s, cfg)
    ensures SenderValid(Expire(s, now, cfg), cfg)
    decreases |s.queue|
  {
    if s.queue != [] && s.frontOffset == 0 && IsLate(s.queue[0], now, cfg) {
      DropKeeps(s, cfg);
      ExpireKeeps(WithoutFront(s).(dropDelay := s.dropDelay + 1), now, cfg);
    }
  }

  lemma DataOne(sent: seq<Queued>, x: Queued)
    ensures Data(sent + [x]) == Data(sent) + x.record.bytes
  {
    DataAppend(sent, [x]);
    assert [x][1..] == [];
  }

  lemma WrittenKeeps(s: Sender, n: nat, cfg: Config)
    requires SenderValid(s, cfg) && s.queue != [] && 0 < n <= Size(s.queue[0]) - s.frontOffset
    ensures SenderValid(Written(s, n), cfg) && s.wire <= Written(s, n).wire
  {
    hide Numbered, Data, Total, NonEmpty;
    var front := s.queue[0];
    FurtherOut(Data(s.sent), front.record.bytes, s.frontOffset, n);
    if s.frontOffset + n == Size(front) {
      DataOne(s.sent, front);
      WithoutFirst(s.queue);
      assert s.sent + [front] + s.queue[1..] == s.sent + s.queue;
      assert Begun(Written(s, n)) == [];
    }
  }

  lemma FurtherOut(sent: Bytes, b: Bytes, i: nat, n: nat)
    requires i + n <= |b|
    ensures sent + b[..i] + b[i..i + n] == sent + b[..i + n]
    ensures i + n == |b| ==> sent + b[..i + n] == sent + b
    ensures sent + b[..i] <= sent + b[..i + n]
  {
    assert b[..i] + b[i..i + n] == b[..i + n];
    assert i + n == |b| ==> b[..i + n] == b;
  }

  lemma ValidWritable(s: Sender, cfg: Config)
    requires SenderValid(s, cfg)
    ensures Writable(s)
  {
  }

  lemma {:induction false} FlushKeeps(s: Sender, takes: seq<nat>, records: nat, bytes: nat, cfg: Config)
    requires SenderValid(s, cfg)
    ensures SenderValid(FlushTls(s, takes, records, bytes, cfg), cfg)
            && s.wire <= FlushTls(s, takes, records, bytes, cfg).wire
    decreases |takes|
  {
    hide SenderValid, Writable, Written;
    ValidWritable(s, cfg);
    if Flushing(s, takes, records, bytes, cfg) {
      var n := WriteSize(s, takes);
      WrittenKeeps(s, n, cfg);
      var t := Written(s, n);
      ValidWritable(t, cfg);
      FlushKeeps(t, takes[1..], records + (if t.frontOffset == 0 then 1 else 0), bytes + n, cfg);
    }
  }

  lemma Reassociate(a: seq<Queued>, b: seq<Queued>, c: seq<Queued>)
    ensures a + b + c == a + (b + c)
  {
  }

  lemma BatchKeeps(s: Sender, limit: int, cfg: Config)
    requires SenderValid(s, cfg) && s.frontOffset == 0
    ensures SenderValid(TakeBatch(s, limit, cfg), cfg)
  {
    var k := Gathered(s.queue, 0, 0, limit, cfg);
    BatchOfKeeps(s, s.queue[..k], s.queue[k..], cfg);
  }

  lemma BatchTaken(s: Sender, limit: int, batch: seq<Queued>, rest: seq<Queued>, cfg: Config)
    requires s.queue == batch + rest && |batch| == Gathered(s.queue, 0, 0, limit, cfg)
             && s.queuedBytes == Total(s.queue)
    ensures TakeBatch(s, limit, cfg) ==
            s.(queue := rest, queuedBytes := Total(rest), sent := s.sent + batch, wire := s.wire + Data(batch),
               batches := s.batches + (if batch != [] then [batch] else []))
  {
    TotalAppend(batch, rest);
    assert s.queue[..|batch|] == batch && s.queue[|batch|..] == rest;
  }

  lemma BatchOfKeeps(s: Sender, batch: seq<Queued>, rest: seq<Queued>, cfg: Config)
    requires SenderValid(s, cfg) && s.queue == batch + rest && s.frontOffset == 0
    ensures var batches := s.batches + (if batch != [] then [batch] else []);
            SenderValid(s.(queue := rest, queuedBytes := Less(s.queuedBytes, Total(batch)), sent := s.sent + batch,
              wire := s.wire + Data(batch), batches := batches), cfg)
  {
    hide Numbered, Data, Total;
    TotalAppend(batch, rest);
    DataAppend(s.sent, batch);
    Reassociate(s.sent, batch, rest);
    forall i | 0 <= i < |rest|
      ensures Size(rest[i]) > 0
    {
      assert rest[i] == s.queue[|batch| + i];
    }
    assert s.wire + Data(batch) == Data(s.sent + batch) + [];
  }

  // ---------------------------------------------------------------------- what one step means

  /** Expiry drops a front part of the queue, all of it late, up to the first record that is not. A partly written front
      record stops it. */
  lemma {:induction false} ExpireMeaning(s: Sender, now: int, cfg: Config) returns (k: nat)
    ensures k <= |s.queue| && Expire(s, now, cfg).queue == s.queue[k..]
            && Expire(s, now, cfg).dropDelay == s.dropDelay + k
    ensures forall i :: 0 <= i < k ==> now - s.queue[i].enqueued > cfg.queueDelay
    ensures if s.frontOffset > 0 then k == 0
            else k < |s.queue| ==> now - s.queue[k].enqueued <= cfg.queueDelay
    decreases |s.queue|
  {
    k := 0;
    assert s.queue[0..] == s.queue;
    if s.queue != [] && s.frontOffset == 0 && IsLate(s.queue[0], now, cfg) {
      var t := WithoutFront(s).(dropDelay := s.dropDelay + 1);
      var j := ExpireMeaning(t, now, cfg);
      k := j + 1;
      assert t.queue[j..] == s.queue[k..];
      assert forall i :: 0 < i < k ==> s.queue[i] == t.queue[i - 1];
    }
  }

  /** With records queued in the order of their times, exactly the late ones go. */
  lemma ExpireExact(s: Sender, now: int, cfg: Config) returns (k: nat)
    requires s.frontOffset == 0 && forall i, j :: 0 <= i < j < |s.queue| ==> s.queue[i].enqueued <= s.queue[j].enqueued
    ensures k <= |s.queue| && Expire(s, now, cfg).queue == s.queue[k..]
    ensures forall i :: 0 <= i < |s.queue| ==> (now - s.queue[i].enqueued > cfg.queueDelay <==> i < k)
  {
    k := ExpireMeaning(s, now, cfg);
  }

  /** A message holds as many records from the front of the queue as the two limits allow, no fewer; it is empty only
      if the queue is, or if its front record is longer than any message may be. */
  lemma {:induction false} GatheredMeaning(q: seq<Queued>, count: nat, size: nat, limit: int, cfg: Config)
    requires size <= cfg.batchBytes
    ensures var k := Gathered(q, count, size, limit, cfg);
            && size + Total(q[..k]) <= cfg.batchBytes && (k > 0 ==> count + k <= Max(1, limit))
            && (k == |q| || count + k >= Max(1, limit) || size + Total(q[..k + 1]) > cfg.batchBytes)
    ensures count == 0 ==>
              (Gathered(q, count, size, limit, cfg) == 0 <==> q == [] || size + Size(q[0]) > cfg.batchBytes)
    decreases |q|
  {
    if !(q == [] || count >= Max(1, limit) || size + Size(q[0]) > cfg.batchBytes) {
      GatheredMeaning(q[1..], count + 1, size + Size(q[0]), limit, cfg);
      var j := Gathered(q[1..], count + 1, size + Size(q[0]), limit, cfg);
      assert q[..j + 1][1..] == q[1..][..j];
      if j + 1 < |q| {
        assert q[..j + 2][1..] == q[1..][..j + 1];
      }
    } else if q != [] {
      assert q[..1][1..] == [];
      assert q[..0] == [];
    }
  }

  // ---------------------------------------------------------------------- whole runs

  datatype Event = Add(x: Queued) | Late(now: int) | Flush(takes: seq<nat>) | Batch(limit: int)

  /** Records are sealed with the next sequence number; a TLS connection flushes, a carrier takes messages. */
  predicate Allowed(tls: bool, s: Sender, e: Event) {
    match e
    case Add(x) => Size(x) > 0 && Serial(x) == s.sequence
    case Late(_) => true
    case Flush(_) => tls
    case Batch(_) => !tls
  }

  function Step(s: Sender, e: Event, cfg: Config): Sender
    requires SenderValid(s, cfg)
  {
    match e
    case Add(x) => Offer(s, x, cfg)
    case Late(now) => Expire(s, now, cfg)
    case Flush(takes) => FlushTls(s, takes, 0, 0, cfg)
    case Batch(limit) => TakeBatch(s, limit, cfg)
  }

  function Joined(batches: seq<seq<Queued>>): seq<Queued> {
    if batches == [] then [] else Joined(batches[..|batches| - 1]) + batches[|batches| - 1]
  }

  /** Behind a carrier nothing is ever partly written, and what was sent went in messages of one or more records. */
  predicate Kept(tls: bool, s: Sender, cfg: Config) {
    SenderValid(s, cfg) && (!tls ==> s.frontOffset == 0 && Joined(s.batches) == s.sent)
  }

  lemma StepKeeps(tls: bool, s: Sender, e: Event, cfg: Config)
    requires Kept(tls, s, cfg) && Allowed(tls, s, e)
    ensures Kept(tls, Step(s, e, cfg), cfg) && s.wire <= Step(s, e, cfg).wire
  {
    match e
    case Add(x) =>
      OfferKeeps(s, x, cfg);
      OfferTouches(s, x, cfg);
    case Late(now) =>
      ExpireKeeps(s, now, cfg);
      ExpireTouches(s, now, cfg);
    case Flush(takes) => FlushKeeps(s, takes, 0, 0, cfg);
    case Batch(limit) =>
      BatchKeeps(s, limit, cfg);
      BatchJoins(s, limit, cfg);
  }

  lemma EvictTouches(s: Sender, size: nat, cfg: Config)
    ensures var t := Evict(s, size, cfg);
            t.frontOffset == s.frontOffset && t.sent == s.sent && t.wire == s.wire && t.batches == s.batches
    decreases |s.queue|
  {
    if Full(s, size, cfg) {
      EvictTouches(WithoutFront(s).(dropQueue := s.dropQueue + 1), size, cfg);
    }
  }

  lemma OfferTouches(s: Sender, x: Queued, cfg: Config)
    ensures var t := Offer(s, x, cfg);
            t.frontOffset == s.frontOffset && t.sent == s.sent && t.wire == s.wire && t.batches == s.batches
  {
    EvictTouches(s, Size(x), cfg);
  }

  lemma {:induction false} ExpireTouches(s: Sender, now: int, cfg: Config)
    ensures var t := Expire(s, now, cfg);
            t.frontOffset == s.frontOffset && t.sent == s.sent && t.wire == s.wire && t.batches == s.batches
    decreases |s.queue|
  {
    if s.queue != [] && s.frontOffset == 0 && IsLate(s.queue[0], now, cfg) {
      ExpireTouches(WithoutFront(s).(dropDelay := s.dropDelay + 1), now, cfg);
    }
  }

  lemma BatchJoins(s: Sender, limit: int, cfg: Config)
    requires Joined(s.batches) == s.sent
    ensures Joined(TakeBatch(s, limit, cfg).batches) == TakeBatch(s, limit, cfg).sent
  {
    var k := Gathered(s.queue, 0, 0, limit, cfg);
    if k > 0 {
      assert (s.batches + [s.queue[..k]])[..|s.batches|] == s.batches;
    } else {
      assert s.batches + [] == s.batches && s.sent + s.queue[..0] == s.sent;
    }
  }

  ghost predicate Runs(tls: bool, s: Sender, es: seq<Event>, cfg: Config)
    decreases |es|
  {
    es == [] || (Kept(tls, s, cfg) && Allowed(tls, s, es[0]) && Runs(tls, Step(s, es[0], cfg), es[1..], cfg))
  }

  ghost function Run(tls: bool, s: Sender, es: seq<Event>, cfg: Config): Sender
    requires Kept(tls, s, cfg) && Runs(tls, s, es, cfg)
    decreases |es|
  {
    if es == [] then s
    else
      StepKeeps(tls, s, es[0], cfg);
      Run(tls, Step(s, es[0], cfg), es[1..], cfg)
  }

  /** Whatever is offered, however writes are cut and whenever records expire: the queue stays within its bounds, its
      byte count is true, the numbers of all records sent and queued go up, every record is sent, queued or counted as
      dropped, and the bytes out are those of the records sent and the begun part of the front one. */
  lemma {:induction false} RunKeeps(tls: bool, s: Sender, es: seq<Event>, cfg: Config)
    requires Kept(tls, s, cfg) && Runs(tls, s, es, cfg)
    ensures Kept(tls, Run(tls, s, es, cfg), cfg) && s.wire <= Run(tls, s, es, cfg).wire
    decreases |es|
  {
    if es != [] {
      StepKeeps(tls, s, es[0], cfg);
      RunKeeps(tls, Step(s, es[0], cfg), es[1..], cfg);
    }
  }

  predicate Every(good: Sent -> bool, q: seq<Queued>) {
    forall i :: 0 <= i < |q| ==> good(q[i].record)
  }

  lemma EveryPart(good: Sent -> bool, a: seq<Queued>, b: seq<Queued>)
    ensures Every(good, a + b) <==> Every(good, a) && Every(good, b)
  {
    assert forall i :: 0 <= i < |a| ==> (a + b)[i] == a[i];
    assert forall i :: 0 <= i < |b| ==> (a + b)[|a| + i] == b[i];
  }

  lemma EveryRest(good: Sent -> bool, q: seq<Queued>, k: nat)
    requires Every(good, q) && k <= |q|
    ensures Every(good, q[k..])
  {
    EveryPart(good, q[..k], q[k..]);
    assert q == q[..k] + q[k..];
  }

  /** Writing moves records from the queue to those sent, in order. */
  lemma WrittenMoves(s: Sender, n: nat)
    requires s.queue != [] && 0 < n <= Size(s.queue[0]) - s.frontOffset
    ensures Written(s, n).sent + Written(s, n).queue == s.sent + s.queue
  {
  }

  lemma {:induction false} FlushMoves(s: Sender, takes: seq<nat>, records: nat, bytes: nat, cfg: Config)
    requires SenderValid(s, cfg)
    ensures var t := FlushTls(s, takes, records, bytes, cfg); t.sent + t.queue == s.sent + s.queue
    decreases |takes|
  {
    hide SenderValid, Writable, Written;
    ValidWritable(s, cfg);
    if Flushing(s, takes, records, bytes, cfg) {
      var n := WriteSize(s, takes);
      WrittenKeeps(s, n, cfg);
      WrittenMoves(s, n);
      var t := Written(s, n);
      ValidWritable(t, cfg);
      FlushMoves(t, takes[1..], records + (if t.frontOffset == 0 then 1 else 0), bytes + n, cfg);
    }
  }

  lemma OfferEvery(s: Sender, x: Queued, cfg: Config, good: Sent -> bool)
    requires s.queuedBytes == Total(s.queue) && Every(good, s.sent + s.queue) && good(x.record)
    ensures Every(good, Offer(s, x, cfg).sent + Offer(s, x, cfg).queue)
  {
    var k := EvictMeaning(s, Size(x), cfg);
    EveryPart(good, s.sent, s.queue);
    EveryRest(good, s.queue, k);
    EveryPart(good, s.queue[k..], [x]);
    EveryPart(good, s.sent, s.queue[k..] + [x]);
  }

  /** Records come from nowhere but the events that add them. */
  lemma StepEvery(tls: bool, s: Sender, e: Event, cfg: Config, good: Sent -> bool)
    requires Kept(tls, s, cfg) && Every(good, s.sent + s.queue) && (e.Add? ==> good(e.x.record))
    ensures Every(good, Step(s, e, cfg).sent + Step(s, e, cfg).queue)
  {
    EveryPart(good, s.sent, s.queue);
    match e
    case Add(x) => OfferEvery(s, x, cfg, good);
    case Late(now) =>
      var k := ExpireMeaning(s, now, cfg);
      ExpireTouches(s, now, cfg);
      EveryRest(good, s.queue, k);
      EveryPart(good, s.sent, s.queue[k..]);
    case Flush(takes) => FlushMoves(s, takes, 0, 0, cfg);
    case Batch(limit) =>
      var k := Gathered(s.queue, 0, 0, limit, cfg);
      Reassociate(s.sent, s.queue[..k], s.queue[k..]);
      assert s.queue == s.queue[..k] + s.queue[k..];
  }

  lemma {:induction false} RunEvery(tls: bool, s: Sender, es: seq<Event>, cfg: Config, good: Sent -> bool)
    requires Kept(tls, s, cfg) && Runs(tls, s, es, cfg) && Every(good, s.sent + s.queue)
    requires forall k :: 0 <= k < |es| && es[k].Add? ==> good(es[k].x.record)
    ensures var t := Run(tls, s, es, cfg); Every(good, t.sent + t.queue)
    decreases |es|
  {
    if es != [] {
      StepKeeps(tls, s, es[0], cfg);
      StepEvery(tls, s, es[0], cfg, good);
      RunEvery(tls, Step(s, es[0], cfg), es[1..], cfg, good);
    }
  }

  /** The records that have left or begun to leave. */
  function Committed(s: Sender): seq<Queued> {
    s.sent + (if s.queue != [] && s.frontOffset > 0 then [s.queue[0]] else [])
  }

  lemma WrittenCommits(s: Sender, n: nat)
    requires s.queue != [] && 0 < n <= Size(s.queue[0]) - s.frontOffset
    ensures Committed(s) <= Committed(Written(s, n))
  {
  }

  lemma {:induction false} FlushCommits(s: Sender, takes: seq<nat>, records: nat, bytes: nat, cfg: Config)
    requires SenderValid(s, cfg)
    ensures Committed(s) <= Committed(FlushTls(s, takes, records, bytes, cfg))
    decreases |takes|
  {
    hide SenderValid, Writable, Written, Committed;
    ValidWritable(s, cfg);
    if Flushing(s, takes, records, bytes, cfg) {
      var n := WriteSize(s, takes);
      WrittenKeeps(s, n, cfg);
      WrittenCommits(s, n);
      var t := Written(s, n);
      ValidWritable(t, cfg);
      FlushCommits(t, takes[1..], records + (if t.frontOffset == 0 then 1 else 0), bytes + n, cfg);
    }
  }

  lemma StepCommits(tls: bool, s: Sender, e: Event, cfg: Config)
    requires Kept(tls, s, cfg) && Allowed(tls, s, e)
    ensures Committed(s) <= Committed(Step(s, e, cfg))
  {
    match e
    case Add(x) =>
      OfferTouches(s, x, cfg);
    case Late(now) =>
      ExpireTouches(s, now, cfg);
    case Flush(takes) => FlushCommits(s, takes, 0, 0, cfg);
    case Batch(limit) =>
  }

  /** A record that has begun to leave is never dropped: it stays in front until it is out. */
  lemma {:induction false} BegunRecordsStay(tls: bool, s: Sender, es: seq<Event>, cfg: Config)
    requires Kept(tls, s, cfg) && Runs(tls, s, es, cfg)
    ensures Committed(s) <= Committed(Run(tls, s, es, cfg))
    decreases |es|
  {
    if es != [] {
      StepKeeps(tls, s, es[0], cfg);
      StepCommits(tls, s, es[0], cfg);
      BegunRecordsStay(tls, Step(s, es[0], cfg), es[1..], cfg);
    }
  }

  // ---------------------------------------------------------------------- what a flush writes

  function Sum(takes: seq<nat>): nat {
    if takes == [] then 0 else takes[0] + Sum(takes[1..])
  }

  /** The first k writes were used, each for at least a byte, and n bytes went out; more would have gone out but for an
      empty queue, one of the two limits, or a write that takes nothing. */
  predicate WroteAll(s: Sender, t: Sender, takes: seq<nat>, k: nat, records: nat, bytes: nat, cfg: Config) {
    var n := |t.wire| - |s.wire|;
    && k <= |takes| && k <= n <= Sum(takes[..k]) && (forall i :: 0 <= i < k ==> takes[i] > 0)
    && |t.sent| >= |s.sent|
    && (t.queue == [] || k == |takes| || takes[k] == 0
        || records + (|t.sent| - |s.sent|) >= Max(1, cfg.batchPackets) || bytes + n >= Max(1, cfg.batchBytes))
  }

  lemma OneWritten(s: Sender, n: nat)
    requires Writable(s) && s.queue != [] && 0 < n <= Size(s.queue[0]) - s.frontOffset
    ensures var t := Written(s, n);
            && |t.wire| == |s.wire| + n
            && |t.sent| == |s.sent| + (if t.frontOffset == 0 then 1 else 0)
  {
  }

  lemma WroteMore(s: Sender, t: Sender, u: Sender, takes: seq<nat>, k: nat, records: nat, bytes: nat, cfg: Config)
    requires takes != [] && |s.wire| < |t.wire| <= |s.wire| + takes[0] && |t.sent| >= |s.sent|
    requires WroteAll(t, u, takes[1..], k, records + (|t.sent| - |s.sent|), bytes + (|t.wire| - |s.wire|), cfg)
    ensures WroteAll(s, u, takes, k + 1, records, bytes, cfg)
  {
    assert takes[..k + 1][1..] == takes[1..][..k];
    assert forall i :: 0 < i < |takes| ==> takes[i] == takes[1..][i - 1];
  }

  /** A flush writes as long as there is something to write, the limits allow it and the connection takes something. */
  lemma {:induction false} FlushWrites(s: Sender, takes: seq<nat>, records: nat, bytes: nat, cfg: Config)
    returns (k: nat)
    requires SenderValid(s, cfg)
    ensures Writable(s) && WroteAll(s, FlushTls(s, takes, records, bytes, cfg), takes, k, records, bytes, cfg)
    decreases |takes|
  {
    hide SenderValid, Writable, Written, WroteAll;
    ValidWritable(s, cfg);
    if Flushing(s, takes, records, bytes, cfg) {
      var n := WriteSize(s, takes);
      WrittenKeeps(s, n, cfg);
      OneWritten(s, n);
      var t := Written(s, n);
      ValidWritable(t, cfg);
      var j := FlushWrites(t, takes[1..], records + (if t.frontOffset == 0 then 1 else 0), bytes + n, cfg);
      k := j + 1;
      WroteMore(s, t, FlushTls(s, takes, records, bytes, cfg), takes, j, records, bytes, cfg);
    } else {
      k := 0;
      WroteNone(s, takes, records, bytes, cfg);
    }
  }

  lemma WroteNone(s: Sender, takes: seq<nat>, records: nat, bytes: nat, cfg: Config)
    requires !Flushing(s, takes, records, bytes, cfg)
    ensures WroteAll(s, s, takes, 0, records, bytes, cfg)
  {
  }

  // ---------------------------------------------------------------------- a record too long for any message

  function Other(number: nat): Sent -> bool {
    (r: Sent) => r.out.number != number
  }

  /** The record of this number was dropped: it is neither sent nor queued, nor will it be made again. */
  predicate Lost(s: Sender, number: nat) {
    number < s.sequence && Every(Other(number), s.sent + s.queue)
  }

  /** Nothing has left since, and the same record is in front. */
  predicate StillBlocked(s: Sender, t: Sender) {
    && s.queue != [] && t.queue != [] && t.queue[0] == s.queue[0]
    && t.sent == s.sent && t.wire == s.wire && t.batches == s.batches
  }

  lemma {:induction false} ExpireCounts(s: Sender, now: int, cfg: Config)
    ensures Expire(s, now, cfg).sequence == s.sequence
    decreases |s.queue|
  {
    if s.queue != [] && s.frontOffset == 0 && IsLate(s.queue[0], now, cfg) {
      ExpireCounts(WithoutFront(s).(dropDelay := s.dropDelay + 1), now, cfg);
    }
  }

  lemma LostStays(s: Sender, e: Event, cfg: Config, number: nat)
    requires Kept(false, s, cfg) && Allowed(false, s, e) && Lost(s, number)
    ensures Lost(Step(s, e, cfg), number)
  {
    hide SenderValid;
    StepEvery(false, s, e, cfg, Other(number));
    match e
    case Add(x) => EvictedEnough(s, Size(x), cfg);
    case Late(now) => ExpireCounts(s, now, cfg);
    case Batch(limit) =>
  }

  /** A sender whose front records were dropped, with perhaps a new one behind the others. */
  lemma FrontLost(s: Sender, t: Sender, k: nat, more: seq<Queued>, cfg: Config)
    requires SenderValid(s, cfg) && 0 < k <= |s.queue| && t.sent == s.sent && t.queue == s.queue[k..] + more
    requires more == [] || (|more| == 1 && Serial(more[0]) == s.sequence)
    requires t.sequence >= s.sequence
    ensures Lost(t, Serial(s.queue[0]))
  {
    var q, n := s.sent + s.queue, |s.sent|;
    assert q[n] == s.queue[0];
    assert forall i :: 0 <= i < n ==> q[i] == s.sent[i];
    forall i | 0 <= i < |s.queue[k..]|
      ensures Serial(s.queue[0]) < Serial(s.queue[k..][i])
    {
      assert q[n + k + i] == s.queue[k..][i];
    }
    EveryPart(Other(Serial(s.queue[0])), s.queue[k..], more);
    EveryPart(Other(Serial(s.queue[0])), t.sent, t.queue);
  }

  /** A front record longer than any message may be: a step drops it or lets nothing out. */
  lemma StepBlocked(s: Sender, e: Event, cfg: Config)
    requires Kept(false, s, cfg) && Allowed(false, s, e) && s.queue != [] && Size(s.queue[0]) > cfg.batchBytes
    ensures StillBlocked(s, Step(s, e, cfg)) || Lost(Step(s, e, cfg), Serial(s.queue[0]))
  {
    hide Numbered, NonEmpty, Lost, Full, NoRoom;
    match e
    case Add(x) =>
      OfferTouches(s, x, cfg);
      EvictedEnough(s, Size(x), cfg);
      var k := EvictMeaning(s, Size(x), cfg);
      if k > 0 && Size(x) <= cfg.queueBytes {
        FrontLost(s, Offer(s, x, cfg), k, [x], cfg);
      }
    case Late(now) =>
      ExpireTouches(s, now, cfg);
      ExpireCounts(s, now, cfg);
      var k := ExpireMeaning(s, now, cfg);
      if k > 0 {
        FrontLost(s, Expire(s, now, cfg), k, [], cfg);
      }
    case Batch(limit) =>
      GatheredMeaning(s.queue, 0, 0, limit, cfg);
      BatchTaken(s, limit, [], s.queue, cfg);
  }

  lemma {:induction false} RunLost(s: Sender, es: seq<Event>, cfg: Config, number: nat)
    requires Kept(false, s, cfg) && Runs(false, s, es, cfg) && Lost(s, number)
    ensures Lost(Run(false, s, es, cfg), number)
    decreases |es|
  {
    hide SenderValid, Lost;
    if es != [] {
      StepKeeps(false, s, es[0], cfg);
      LostStays(s, es[0], cfg, number);
      RunLost(Step(s, es[0], cfg), es[1..], cfg, number);
    }
  }

  /** A record longer than `batchBytes` blocks a carrier's queue: in every run, until it is dropped it stays in front,
      no message is made and nothing goes out. */
  lemma {:induction false} LongRecordBlocks(s: Sender, es: seq<Event>, cfg: Config)
    requires Kept(false, s, cfg) && Runs(false, s, es, cfg)
    requires s.queue != [] && Size(s.queue[0]) > cfg.batchBytes
    ensures StillBlocked(s, Run(false, s, es, cfg)) || Lost(Run(false, s, es, cfg), Serial(s.queue[0]))
    decreases |es|
  {
    hide SenderValid, Lost;
    if es != [] {
      var t := Step(s, es[0], cfg);
      StepKeeps(false, s, es[0], cfg);
      StepBlocked(s, es[0], cfg);
      if StillBlocked(s, t) {
        LongRecordBlocks(t, es[1..], cfg);
      } else {
        RunLost(t, es[1..], cfg, Serial(s.queue[0]));
      }
    }
  }

  // ---------------------------------------------------------------------- which numbers are missing

  ghost function NumbersOf(q: seq<Queued>): set<nat> {
    set i | 0 <= i < |q| :: Serial(q[i])
  }

  predicate Within(low: nat, n: nat, high: nat) {
    low <= n < high
  }

  ghost function Range(low: nat, high: nat): set<nat> {
    set n: nat | n < high && Within(low, n, high)
  }

  lemma {:induction false} RangeSize(low: nat, high: nat)
    requires low <= high
    ensures |Range(low, high)| == high - low
    decreases high - low
  {
    if low < high {
      assert forall n :: n in Range(low, high) <==> n in Range(low, high - 1) || n == high - 1;
      assert Range(low, high) == Range(low, high - 1) + {high - 1};
      RangeSize(low, high - 1);
    } else {
      assert Range(low, high) == {};
    }
  }

  lemma {:induction false} NumbersCount(q: seq<Queued>, next: nat)
    requires Numbered(q, next)
    ensures |NumbersOf(q)| == |q|
    decreases |q|
  {
    if q == [] {
      assert NumbersOf(q) == {};
    } else {
      hide Numbered, NumbersOf;
      var shorter := q[..|q| - 1];
      NumbersShorter(q, next);
      NumbersCount(shorter, next);
    }
  }

  /** The last number is a new one. */
  lemma NumbersShorter(q: seq<Queued>, next: nat)
    requires q != [] && Numbered(q, next)
    ensures var shorter, last := q[..|q| - 1], Serial(q[|q| - 1]);
            && Numbered(shorter, next)
            && last !in NumbersOf(shorter) && NumbersOf(q) == NumbersOf(shorter) + {last}
  {
    var shorter, last := q[..|q| - 1], Serial(q[|q| - 1]);
    forall n | n in NumbersOf(q)
      ensures n in NumbersOf(shorter) || n == last
    {
      var i :| 0 <= i < |q| && n == Serial(q[i]);
      assert i < |shorter| ==> shorter[i] == q[i];
    }
    forall n | n in NumbersOf(shorter)
      ensures n in NumbersOf(q) && n < last
    {
      var i :| 0 <= i < |shorter| && n == Serial(shorter[i]);
      assert shorter[i] == q[i];
    }
  }

  /** The numbers given out to records that are no longer there. */
  ghost function Missing(q: seq<Queued>, next: nat): set<nat> {
    set n: nat | n < next && Within(1, n, next) && n !in NumbersOf(q)
  }

  /** Those of them strictly between two numbers. */
  ghost function MissingBetween(q: seq<Queued>, next: nat, low: nat, high: nat): set<nat> {
    set n | n in Missing(q, next) && low < n < high
  }

  ghost function Dropped(s: Sender): set<nat> {
    Missing(s.sent + s.queue, s.sequence)
  }

  lemma SizeWithout(a: set<nat>, b: set<nat>, rest: set<nat>)
    requires b <= a && rest == a - b
    ensures |rest| == |a| - |b|
  {
  }

  lemma MissingCount(q: seq<Queued>, next: nat)
    requires Numbered(q, next) && next >= 1
    ensures |Missing(q, next)| == next - 1 - |q|
  {
    NumbersCount(q, next);
    RangeSize(1, next);
    SizeWithout(Range(1, next), NumbersOf(q), Missing(q, next));
  }

  /** The two counters count exactly the records that are missing. */
  lemma DroppedCounted(s: Sender, cfg: Config)
    requires SenderValid(s, cfg)
    ensures |Dropped(s)| == s.dropQueue + s.dropDelay
  {
    MissingCount(s.sent + s.queue, s.sequence);
  }

  /** The first k numbers lie between the first and the k-th. */
  lemma NumbersWithin(q: seq<Queued>, k: nat, next: nat)
    requires Numbered(q, next) && 1 <= k <= |q|
    ensures |NumbersOf(q[..k])| == k && NumbersOf(q[..k]) <= Range(Serial(q[0]), Serial(q[k - 1]) + 1)
    ensures Serial(q[0]) <= Serial(q[k - 1])
  {
    assert Numbered(q[..k], next);
    NumbersCount(q[..k], next);
    forall i | 0 <= i < k
      ensures Serial(q[0]) <= Serial(q[..k][i]) <= Serial(q[k - 1])
    {
    }
  }

  lemma MissingInside(q: seq<Queued>, k: nat, next: nat)
    requires Numbered(q, next) && 1 <= k <= |q|
    ensures MissingBetween(q, next, Serial(q[0]), Serial(q[k - 1]))
            == Range(Serial(q[0]), Serial(q[k - 1]) + 1) - NumbersOf(q[..k])
  {
    var part := q[..k];
    assert part[0] == q[0] && part[k - 1] == q[k - 1];
    assert Serial(q[0]) in NumbersOf(part) && Serial(q[k - 1]) in NumbersOf(part);
    forall n | n in NumbersOf(q) && n <= Serial(q[k - 1])
      ensures n in NumbersOf(part)
    {
      var i :| 0 <= i < |q| && n == Serial(q[i]);
      assert i < k && part[i] == q[i];
    }
    forall n | n in NumbersOf(part)
      ensures n in NumbersOf(q)
    {
      var i :| 0 <= i < |part| && n == Serial(part[i]);
      assert q[i] == part[i];
    }
  }

  /** How many records were dropped between the first and the k-th that was sent. */
  lemma DroppedBetween(s: Sender, k: nat, cfg: Config)
    requires SenderValid(s, cfg) && 1 <= k <= |s.sent|
    ensures var first, last := Serial(s.sent[0]), Serial(s.sent[k - 1]);
            |MissingBetween(s.sent + s.queue, s.sequence, first, last)| == last - first - (k - 1)
  {
    hide Total, Data, Begun, Missing, Range, NumbersOf;
    var q := s.sent + s.queue;
    NumbersWithin(q, k, s.sequence);
    RangeSize(Serial(q[0]), Serial(q[k - 1]) + 1);
    MissingInside(q, k, s.sequence);
    SizeWithout(Range(Serial(q[0]), Serial(q[k - 1]) + 1), NumbersOf(q[..k]),
                MissingBetween(q, s.sequence, Serial(q[0]), Serial(q[k - 1])));
  }

  // ---------------------------------------------------------------------- the queue, updated in place

  lemma LongerWire(a: Bytes, b: Bytes, c: Bytes)
    ensures a + (b + c) == a + b + c
  {
  }

  lemma GatherNone()
    ensures Data([]) == []
  {
  }

  /** One record more for the message. */
  lemma GatherOne(all: seq<Queued>, batch: seq<Queued>, queue: seq<Queued>, limit: int, cfg: Config)
    requires all == batch + queue && queue != [] && |batch| < Max(1, limit)
    requires |Data(batch)| + Size(queue[0]) <= cfg.batchBytes
    ensures var more := batch + [queue[0]];
            && all == more + queue[1..]
            && Data(more) == Data(batch) + queue[0].record.bytes
            && Total(queue) == Size(queue[0]) + Total(queue[1..])
            && Gathered(queue, |batch|, |Data(batch)|, limit, cfg)
               == 1 + Gathered(queue[1..], |more|, |Data(more)|, limit, cfg)
  {
    DataOne(batch, queue[0]);
  }

  lemma GatherEnd(queue: seq<Queued>, count: nat, size: nat, limit: int, cfg: Config)
    requires queue == [] || count >= Max(1, limit) || size + Size(queue[0]) > cfg.batchBytes
    ensures Gathered(queue, count, size, limit, cfg) == 0
  {
  }

  /** The records waiting for one connection. The three ghost fields record what has left. */
  class RecordQueue {
    const cfg: Config
    var queue: seq<Queued>
    var queuedBytes: nat
    var frontOffset: nat
    var sequence: nat
    var dropQueue: nat
    var dropDelay: nat
    ghost var sent: seq<Queued>
    ghost var wire: Bytes
    ghost var batches: seq<seq<Queued>>

    ghost function Contents(): Sender
      reads this
    {
      Sender(queue, queuedBytes, frontOffset, sequence, dropQueue, dropDelay, sent, wire, batches)
    }

    ghost predicate Valid()
      reads this
    {
      SenderValid(Contents(), cfg)
    }

    /** What writing relies on. */
    ghost predicate Ready()
      reads this
    {
      Writable(Contents()) && queuedBytes == Total(queue)
    }

    constructor (config: Config)
      ensures cfg == config && Contents() == NEW && Valid()
    {
      hide Numbered, NonEmpty, Data, Total, Begun;
      NewValid(config);
      cfg := config;
      queue, queuedBytes, frontOffset, sequence, dropQueue, dropDelay := [], 0, 0, 1, 0, 0;
      sent, wire, batches := [], [], [];
    }

    /** Takes the front record off. */
    method PopFront()
      requires queue != [] && queuedBytes >= Size(queue[0])
      modifies this`queue, this`queuedBytes
      ensures Contents() == WithoutFront(old(Contents()))
    {
      queuedBytes := queuedBytes - Size(queue[0]);
      queue := queue[1..];
    }

    /** Drops the oldest records until one of this size fits, unless that would drop one that has begun to leave. */
    method MakeRoom(size: nat) returns (made: bool)
      requires queuedBytes == Total(queue)
      modifies this`queue, this`queuedBytes, this`dropQueue
      ensures made == !(frontOffset > 0 && Full(old(Contents()), size, cfg))
      ensures Contents() == if made then Evict(old(Contents()), size, cfg)
              else old(Contents()).(dropQueue := old(dropQueue) + 1)
    {
      while queue != [] && (|queue| >= cfg.queuePackets || queuedBytes + size > cfg.queueBytes)
        invariant queuedBytes == Total(queue)
        invariant frontOffset > 0 ==> Contents() == old(Contents())
        invariant Evict(old(Contents()), size, cfg) == Evict(Contents(), size, cfg)
        decreases |queue|
      {
        if frontOffset > 0 {
          dropQueue := dropQueue + 1;
          return false;
        }
        PopFront();
        dropQueue := dropQueue + 1;
      }
      made := true;
    }

    /** Queues a record, or counts it as dropped. */
    method Enqueue(x: Queued)
      requires queuedBytes == Total(queue)
      modifies this`queue, this`queuedBytes, this`dropQueue
      ensures Contents() == Enqueued(old(Contents()), x, old(frontOffset) > 0, cfg)
    {
      if Size(x) > cfg.queueBytes {
        dropQueue := dropQueue + 1;
        return;
      }
      var made := MakeRoom(Size(x));
      if made {
        queuedBytes := queuedBytes + Size(x);
        queue := queue + [x];
      }
    }

    /** Queues a new record, sealed with the next sequence number. */
    method Add(x: Queued)
      requires Valid() && Size(x) > 0 && Serial(x) == sequence
      modifies this`queue, this`queuedBytes, this`sequence, this`dropQueue
      ensures Valid() && Contents() == Offer(old(Contents()), x, cfg)
    {
      OfferKeeps(Contents(), x, cfg);
      hide Numbered, NonEmpty, Data, Begun;
      Enqueue(x);
      sequence := sequence + 1;
    }

    /** Drops what has waited too long. */
    method DropLate(now: int)
      requires Valid()
      modifies this`queue, this`queuedBytes, this`dropDelay
      ensures Valid() && Contents() == Expire(old(Contents()), now, cfg)
    {
      hide Numbered, NonEmpty, Data, Begun;
      ExpireKeeps(Contents(), now, cfg);
      while queue != [] && frontOffset == 0 && now - queue[0].enqueued > cfg.queueDelay
        invariant queuedBytes == Total(queue)
        invariant Expire(old(Contents()), now, cfg) == Expire(Contents(), now, cfg)
        decreases |queue|
      {
        PopFront();
        dropDelay := dropDelay + 1;
      }
    }

    /** One write of n bytes of the front record. */
    method WriteFront(n: nat) returns (piece: Bytes)
      requires Ready() && queue != [] && 0 < n <= Size(queue[0]) - frontOffset
      modifies this`queue, this`queuedBytes, this`frontOffset, this`sent, this`wire
      ensures Ready() && Contents() == Written(old(Contents()), n) && wire == old(wire) + piece && |piece| == n
    {
      var front := queue[0];
      piece := front.record.bytes[frontOffset..frontOffset + n];
      wire := wire + piece;
      frontOffset := frontOffset + n;
      if frontOffset == Size(front) {
        PopFront();
        frontOffset := 0;
        sent := sent + [front];
      }
    }

    /** Writes to a TLS connection that takes so many bytes at each write. */
    method FlushTo(takes: seq<nat>) returns (written: Bytes)
      requires Valid()
      modifies this`queue, this`queuedBytes, this`frontOffset, this`sent, this`wire
      ensures Valid() && Contents() == FlushTls(old(Contents()), takes, 0, 0, cfg)
      ensures wire == old(wire) + written
    {
      FlushKeeps(Contents(), takes, 0, 0, cfg);
      written := WriteOut(takes);
    }

    /** One write of the loop. */
    method WriteOne(take: nat, ghost takes: seq<nat>, ghost i: nat, ghost records: nat, ghost bytes: nat)
        returns (piece: Bytes)
      requires Ready() && i < |takes| && take == takes[i] && Flushing(Contents(), takes[i..], records, bytes, cfg)
      modifies this`queue, this`queuedBytes, this`frontOffset, this`sent, this`wire
      ensures Ready() && wire == old(wire) + piece
      ensures FlushTls(old(Contents()), takes[i..], records, bytes, cfg) ==
              FlushTls(Contents(), takes[i + 1..], records + (if frontOffset == 0 then 1 else 0), bytes + |piece|, cfg)
    {
      hide Total, FlushTls, Writable, Written, Flushing;
      OneWrite(Contents(), takes, i, records, bytes, cfg);
      piece := WriteFront(Min(take, Size(queue[0]) - frontOffset));
    }

    method WriteOut(takes: seq<nat>) returns (written: Bytes)
      requires Ready()
      modifies this`queue, this`queuedBytes, this`frontOffset, this`sent, this`wire
      ensures Contents() == FlushTls(old(Contents()), takes, 0, 0, cfg)
      ensures wire == old(wire) + written
    {
      hide Total, FlushTls, Writable;
      written := [];
      var records: nat, bytes: nat, i := 0, 0, 0;
      assert takes[0..] == takes;
      ghost var goal := FlushTls(Contents(), takes, 0, 0, cfg);
      while i < |takes| && takes[i] > 0 && queue != [] && records < Max(1, cfg.batchPackets)
        && bytes < Max(1, cfg.batchBytes)
        invariant i <= |takes| && Ready() && wire == old(wire) + written
        invariant goal == FlushTls(Contents(), takes[i..], records, bytes, cfg)
        decreases |takes| - i
      {
        assert takes[i..][0] == takes[i];
        var piece := WriteOne(takes[i], takes, i, records, bytes);
        LongerWire(old(wire), written, piece);
        written, bytes, i := written + piece, bytes + |piece|, i + 1;
        if frontOffset == 0 {
          records := records + 1;
        }
      }
      FlushEnd(Contents(), takes[i..], records, bytes, cfg);
    }

    /** Takes the records of the next message off the queue. */
    method Gather(limit: int) returns (message: Bytes, ghost batch: seq<Queued>)
      requires queuedBytes == Total(queue)
      modifies this`queue, this`queuedBytes
      ensures batch == old(queue)[..Gathered(old(queue), 0, 0, limit, cfg)] && message == Data(batch)
      ensures old(queue) == batch + queue && queuedBytes == Total(queue)
    {
      hide Numbered, Data, Total, Gathered;
      message, batch := [], [];
      GatherNone();
      var count := 0;
      ghost var all := queue;
      while queue != [] && count < Max(1, limit) && |message| + Size(queue[0]) <= cfg.batchBytes
        invariant |batch| == count && all == batch + queue
        invariant message == Data(batch) && queuedBytes == Total(queue)
        invariant Gathered(all, 0, 0, limit, cfg) == count + Gathered(queue, count, |message|, limit, cfg)
        decreases |queue|
      {
        GatherOne(all, batch, queue, limit, cfg);
        message := message + queue[0].record.bytes;
        batch := batch + [queue[0]];
        PopFront();
        count := count + 1;
      }
      GatherEnd(queue, count, |message|, limit, cfg);
      assert all[..count] == batch;
    }

    /** Builds the next message of at most so many records for a carrier; it may be empty. */
    method GatherMessage(limit: int) returns (message: Bytes)
      requires Valid() && frontOffset == 0
      modifies this`queue, this`queuedBytes, this`sent, this`wire, this`batches
      ensures Valid() && Contents() == TakeBatch(old(Contents()), limit, cfg)
      ensures wire == old(wire) + message
    {
      hide Numbered, NonEmpty, Data, Total, Begun, Gathered;
      ghost var before := Contents();
      BatchKeeps(before, limit, cfg);
      ghost var batch;
      message, batch := Gather(limit);
      BatchTaken(before, limit, batch, queue, cfg);
      sent := sent + batch;
      wire := wire + message;
      if batch != [] {
        batches := batches + [batch];
      }
      assert Contents() == TakeBatch(before, limit, cfg);
    }
  }
}
