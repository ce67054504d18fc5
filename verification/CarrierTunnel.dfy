/** The whole way over a WebSocket: the record queue, messages of several records, the transmit queue of frames, the
    frame parser at the other end, and the record decoder that is fed message by message. */
module CarrierTunnel {
  import opened Bytes
  import opened Incremental
  import opened EndToEnd
  import RC = RecordCodec
  import RT = RecordTheorems
  import SQ = SendQueue
  import WF = WsFrames
  import WS = WsSession

  // ---------------------------------------------------------------------- the sending side

  datatype Tunnel = Tunnel(sender: SQ.Sender, link: WS.Link)

  const FRESH := Tunnel(SQ.NEW, WS.UNUSED)

  /** The record queue changes, a ping or pong is sent, bytes go out, or the next message is made. */
  datatype Event =
    | Queue(e: SQ.Event)
    | Control(send: WS.Send)
    | Move(count: nat)
    | Flush(now: int, drawn: WF.Mask)

  function Bodies(batches: seq<seq<SQ.Queued>>): (r: seq<Bytes>)
    ensures |r| == |batches|
  {
    seq(|batches|, i requires 0 <= i < |batches| => SQ.Data(batches[i]))
  }

  predicate Allowed(t: Tunnel, e: Event) {
    match e
    case Queue(q) => (q.Add? || q.Late?) && SQ.Allowed(false, t.sender, q)
    case Control(send) => WS.Sendable(send) && send.opcode != WF.BINARY
    case Move(_) => true
    case Flush(_, _) => true
  }

  /** The messages handed to the connection are those taken from the queue. */
  predicate TunnelValid(client: bool, t: Tunnel, cfg: SQ.Config) {
    && SQ.Kept(false, t.sender, cfg) && WS.LinkValid(client, t.link) && cfg.batchBytes <= WF.MAX_MESSAGE
    && WS.Binaries(t.link.sent) == Bodies(t.sender.batches)
  }

  function Message(s: SQ.Sender, limit: int, cfg: SQ.Config): (m: Bytes)
    ensures |m| <= cfg.batchBytes
  {
    var k := SQ.Gathered(s.queue, 0, 0, limit, cfg);
    SQ.GatheredMeaning(s.queue, 0, 0, limit, cfg);
    DataSize(s.queue[..k]);
    SQ.Data(s.queue[..k])
  }

  lemma {:induction false} DataSize(q: seq<SQ.Queued>)
    ensures |SQ.Data(q)| == SQ.Total(q)
    decreases |q|
  {
    if q != [] {
      DataSize(q[1..]);
    }
  }

  function Step(client: bool, t: Tunnel, e: Event, cfg: SQ.Config): Tunnel
    requires TunnelValid(client, t, cfg) && Allowed(t, e)
  {
    match e
    case Queue(q) => t.(sender := SQ.Step(t.sender, q, cfg))
    case Control(send) => t.(link := WS.LinkStep(client, t.link, WS.Submit(send)))
    case Move(n) => t.(link := WS.LinkStep(client, t.link, WS.Move(n)))
    case Flush(now, drawn) =>
      if t.link.tx.frames != [] || t.sender.queue == [] then t
      else
        var limit := SQ.BatchLimit(t.sender.queue, cfg, now);
        var message := Message(t.sender, limit, cfg);
        if message == [] then t
        else Tunnel(SQ.TakeBatch(t.sender, limit, cfg),
          WS.LinkStep(client, t.link, WS.Submit(WS.Send(WF.BINARY, message, drawn))))
  }

  /** An idle tunnel is a valid one. */
  lemma FreshValid(client: bool, cfg: SQ.Config)
    requires cfg.batchBytes <= WF.MAX_MESSAGE
    ensures TunnelValid(client, FRESH, cfg)
  {
    NewKept(false, cfg);
    WS.UnusedValid(client);
  }

  lemma {:induction false} BinariesSnoc(sent: seq<WS.Send>, s: WS.Send)
    ensures WS.Binaries(sent + [s]) == WS.Binaries(sent) + (if s.opcode == WF.BINARY then [s.payload] else [])
    decreases |sent|
  {
    var all := sent + [s];
    if sent == [] {
      assert all == [s] && all[1..] == [];
    } else {
      assert all[0] == sent[0] && all[1..] == sent[1..] + [s];
      BinariesSnoc(sent[1..], s);
      var head := if sent[0].opcode == WF.BINARY then [sent[0].payload] else [];
      assert WS.Binaries(all) == head + WS.Binaries(all[1..]);
    }
  }

  /** A message finds room in a transmit queue that is empty. */
  lemma MessageFits(client: bool, l: WS.Link, s: WS.Send)
    requires WS.LinkValid(client, l) && l.tx.frames == [] && s.opcode == WF.BINARY && |s.payload| <= WF.MAX_MESSAGE
    ensures WS.Sendable(s) && WS.Fits(l.tx, |WS.TxFrameOf(client, s).data|)
  {
    var f := WS.FrameOf(client, s);
    FrameSize(f);
    assert l.tx.queued == |WS.Pending(l.tx.frames)| == 0;
  }

  lemma FrameSize(f: WF.Frame)
    requires f.opcode < 16
    ensures |WF.Printed(f)| <= |f.payload| + 14
  {
  }

  lemma QueueKeeps(client: bool, t: Tunnel, e: SQ.Event, cfg: SQ.Config)
    requires TunnelValid(client, t, cfg) && Allowed(t, Queue(e))
    ensures TunnelValid(client, Step(client, t, Queue(e), cfg), cfg)
  {
    SQ.StepKeeps(false, t.sender, e, cfg);
    match e
    case Add(x) => SQ.OfferTouches(t.sender, x, cfg);
    case Late(now) => SQ.ExpireTouches(t.sender, now, cfg);
  }

  lemma LinkKeeps(client: bool, t: Tunnel, e: WS.TxEvent, cfg: SQ.Config)
    requires TunnelValid(client, t, cfg) && (e.Submit? ==> WS.Sendable(e.send) && e.send.opcode != WF.BINARY)
    ensures TunnelValid(client, t.(link := WS.LinkStep(client, t.link, e)), cfg)
  {
    WS.LinkStepValid(client, t.link, e);
    if e.Submit? {
      BinariesSnoc(t.link.sent, e.send);
    }
  }

  lemma FlushKeeps(client: bool, t: Tunnel, now: int, drawn: WF.Mask, cfg: SQ.Config)
    requires TunnelValid(client, t, cfg)
    ensures TunnelValid(client, Step(client, t, Flush(now, drawn), cfg), cfg)
  {
    hide SQ.SenderValid, SQ.Data, SQ.TakeBatch, SQ.BatchLimit, WS.TxFrameOf, WS.Binaries, WS.LinkValid, Message, Bodies;
    var limit := SQ.BatchLimit(t.sender.queue, cfg, now);
    var message := Message(t.sender, limit, cfg);
    if t.link.tx.frames == [] && t.sender.queue != [] && message != [] {
      var send := WS.Send(WF.BINARY, message, drawn);
      MessageFits(client, t.link, send);
      WS.LinkStepValid(client, t.link, WS.Submit(send));
      BinariesSnoc(t.link.sent, send);
      SQ.StepKeeps(false, t.sender, SQ.Batch(limit), cfg);
      HandedOver(t.sender, limit, cfg);
    }
  }

  lemma HandedOver(s: SQ.Sender, limit: int, cfg: SQ.Config)
    requires Message(s, limit, cfg) != []
    ensures Bodies(SQ.TakeBatch(s, limit, cfg).batches) == Bodies(s.batches) + [Message(s, limit, cfg)]
  {
    var batch := s.queue[..SQ.Gathered(s.queue, 0, 0, limit, cfg)];
    assert Bodies(s.batches + [batch]) == Bodies(s.batches) + [SQ.Data(batch)];
  }

  lemma StepKeeps(client: bool, t: Tunnel, e: Event, cfg: SQ.Config)
    requires TunnelValid(client, t, cfg) && Allowed(t, e)
    ensures TunnelValid(client, Step(client, t, e, cfg), cfg)
  {
    match e
    case Queue(q) => QueueKeeps(client, t, q, cfg);
    case Control(send) => LinkKeeps(client, t, WS.Submit(send), cfg);
    case Move(n) => LinkKeeps(client, t, WS.Move(n), cfg);
    case Flush(now, drawn) => FlushKeeps(client, t, now, drawn, cfg);
  }

  ghost predicate Runs(client: bool, t: Tunnel, es: seq<Event>, cfg: SQ.Config)
    decreases |es|
  {
    es == [] || (TunnelValid(client, t, cfg) && Allowed(t, es[0])
      && Runs(client, Step(client, t, es[0], cfg), es[1..], cfg))
  }

  ghost function Run(client: bool, t: Tunnel, es: seq<Event>, cfg: SQ.Config): Tunnel
    requires Runs(client, t, es, cfg)
    decreases |es|
  {
    if es == [] then t else Run(client, Step(client, t, es[0], cfg), es[1..], cfg)
  }

  /** In every run the messages handed to the connection are those taken from the queue, and both ends of the hand-over
      are in order. */
  lemma {:induction false} RunKeeps(client: bool, t: Tunnel, es: seq<Event>, cfg: SQ.Config)
    requires TunnelValid(client, t, cfg) && Runs(client, t, es, cfg)
    ensures TunnelValid(client, Run(client, t, es, cfg), cfg)
    decreases |es|
  {
    hide TunnelValid;
    if es != [] {
      StepKeeps(client, t, es[0], cfg);
      RunKeeps(client, Step(client, t, es[0], cfg), es[1..], cfg);
    }
  }

  ghost predicate Makes(made: RT.Sent -> bool, es: seq<Event>) {
    forall k :: 0 <= k < |es| && es[k].Queue? && es[k].e.Add? ==> made(es[k].e.x.record)
  }

  lemma StepEvery(client: bool, t: Tunnel, e: Event, cfg: SQ.Config, made: RT.Sent -> bool)
    requires TunnelValid(client, t, cfg) && Allowed(t, e) && SQ.Every(made, t.sender.sent + t.sender.queue)
    requires e.Queue? && e.e.Add? ==> made(e.e.x.record)
    ensures var n := Step(client, t, e, cfg); SQ.Every(made, n.sender.sent + n.sender.queue)
  {
    hide SQ.SenderValid, SQ.Every, SQ.Offer, SQ.Expire, SQ.TakeBatch, SQ.BatchLimit;
    hide WS.LinkValid, WS.LinkStep, Bodies, Message;
    match e
    case Queue(q) => SQ.StepEvery(false, t.sender, q, cfg, made);
    case Flush(now, _) =>
      SQ.StepEvery(false, t.sender, SQ.Batch(SQ.BatchLimit(t.sender.queue, cfg, now)), cfg, made);
    case Control(_) =>
    case Move(_) =>
  }

  lemma {:induction false} RunEvery(client: bool, t: Tunnel, es: seq<Event>, cfg: SQ.Config, made: RT.Sent -> bool)
    requires TunnelValid(client, t, cfg) && Runs(client, t, es, cfg) && SQ.Every(made, t.sender.sent + t.sender.queue)
    requires Makes(made, es)
    ensures var r := Run(client, t, es, cfg); SQ.Every(made, r.sender.sent + r.sender.queue)
    decreases |es|
  {
    if es != [] {
      StepKeeps(client, t, es[0], cfg);
      StepEvery(client, t, es[0], cfg, made);
      RunEvery(client, Step(client, t, es[0], cfg), es[1..], cfg, made);
    }
  }

  // ---------------------------------------------------------------------- decoding message by message

  /** How many messages come before the first that is too long for the decoder's buffer. */
  function Fitting(ms: seq<Bytes>, max: nat): (k: nat)
    ensures k <= |ms| && (forall i :: 0 <= i < k ==> |ms[i]| <= max) && (k < |ms| ==> |ms[k]| > max)
    decreases |ms|
  {
    if ms == [] || |ms[0]| > max then 0 else 1 + Fitting(ms[1..], max)
  }

  lemma {:induction false} JoinedFront(bs: seq<seq<SQ.Queued>>)
    requires bs != []
    ensures SQ.Joined(bs) == bs[0] + SQ.Joined(bs[1..])
    decreases |bs|
  {
    if |bs| == 1 {
      assert bs[..0] == [] == bs[1..];
    } else {
      var front, last := bs[..|bs| - 1], bs[|bs| - 1];
      JoinedFront(front);
      assert front[1..] == bs[1..][..|bs| - 2];
      SQ.Reassociate(bs[0], SQ.Joined(front[1..]), last);
    }
  }

  /** All numbers of the queue are new to the decoder. */
  predicate AllFresh(c: RC.Counters, q: seq<SQ.Queued>) {
    forall i :: 0 <= i < |q| ==> RT.Fresh(c, SQ.Serial(q[i]))
  }

  /** The two parts of an honest queue. */
  lemma Parts(front: Decoder, c: RC.Counters, batch: seq<SQ.Queued>, rest: seq<SQ.Queued>, next: nat)
    requires SQ.Numbered(batch + rest, next) && AllFaithful(front, batch + rest) && AllFresh(c, batch + rest)
    ensures SQ.Numbered(batch, next) && AllFaithful(front, batch) && AllFresh(c, batch)
    ensures SQ.Numbered(rest, next) && AllFaithful(front, rest) && AllFresh(c, rest)
    ensures batch != [] ==> forall i :: 0 <= i < |rest| ==> SQ.Serial(batch[|batch| - 1]) < SQ.Serial(rest[i])
  {
    var q := batch + rest;
    assert forall i :: 0 <= i < |batch| ==> q[i] == batch[i];
    assert forall i :: 0 <= i < |rest| ==> q[|batch| + i] == rest[i];
  }

  /** One message of whole records is decoded to the last byte, and what follows is still new. */
  lemma MessageDecodes(front: Decoder, c: RC.Counters, batch: seq<SQ.Queued>, rest: seq<SQ.Queued>, next: nat)
    requires Stable(front) && RT.Sequenced(front) && SQ.Numbered(batch + rest, next)
             && AllFaithful(front, batch + rest) && AllFresh(c, batch + rest)
    ensures var r := Drain(front, c, SQ.Data(batch));
            && r.out == Contents(batch) && r.verdict.Accepted? && r.rest == []
            && SQ.Numbered(rest, next) && AllFaithful(front, rest) && AllFresh(r.state, rest)
  {
    Parts(front, c, batch, rest, next);
    HonestRecords(front, batch, next);
    assert batch != [] ==> Records(batch)[0] == batch[0].record && RT.Fresh(c, SQ.Serial(batch[0]));
    RT.HonestStream(front, c, Records(batch));
    RecordsWire(batch);
    LastIsHighest(front, c, SQ.Data(batch));
    assert batch != [] ==> Contents(batch)[|batch| - 1].number == SQ.Serial(batch[|batch| - 1]);
  }

  lemma ContentsAppend(a: seq<SQ.Queued>, b: seq<SQ.Queued>)
    ensures Contents(a + b) == Contents(a) + Contents(b)
  {
  }

  lemma NothingJoined(bs: seq<seq<SQ.Queued>>)
    ensures Contents(SQ.Joined(bs[..0])) == []
  {
    assert bs[..0] == [];
  }

  lemma BodiesFront(bs: seq<seq<SQ.Queued>>)
    requires bs != []
    ensures Bodies(bs) == [SQ.Data(bs[0])] + Bodies(bs[1..])
  {
  }

  /** One message of a session. */
  lemma SessionFront(front: Decoder, max: nat, c: RC.Counters, body: Bytes, later: seq<Bytes>)
    requires Stable(front)
    ensures var r, first := RT.Session(front, max, c, [], [body] + later), Drain(front, c, body);
            && Fitting([body] + later, max) == (if |body| > max then 0 else 1 + Fitting(later, max))
            && if |body| > max then r == Outcome([], Refused(RC.BufferLimit), c, [])
               else if first.verdict.Refused? then r == first
               else
                 var s := RT.Session(front, max, first.state, first.rest, later);
                 r == s.(out := first.out + s.out)
  {
    hide Stable, Drain;
    assert ([body] + later)[1..] == later && [] + body == body;
  }

  lemma FrontContents(bs: seq<seq<SQ.Queued>>, k: nat)
    requires 0 < k <= |bs|
    ensures Contents(SQ.Joined(bs[..k])) == Contents(bs[0]) + Contents(SQ.Joined(bs[1..][..k - 1]))
  {
    assert bs[..k][1..] == bs[1..][..k - 1] && bs[..k][0] == bs[0];
    JoinedFront(bs[..k]);
    ContentsAppend(bs[0], SQ.Joined(bs[1..][..k - 1]));
  }

  /** What decoding message by message gives: everything up to the first message that is too long, and nothing of it. */
  ghost predicate UpToTooLong(front: Decoder, max: nat, c: RC.Counters, bs: seq<seq<SQ.Queued>>)
    requires Stable(front)
  {
    var k := Fitting(Bodies(bs), max);
    var r := RT.Session(front, max, c, [], Bodies(bs));
    && r.out == Contents(SQ.Joined(bs[..k]))
    && r.verdict == (if k == |bs| then Accepted else Refused(RC.BufferLimit))
  }

  lemma NoMessages(front: Decoder, max: nat, c: RC.Counters)
    requires Stable(front)
    ensures UpToTooLong(front, max, c, [])
  {
    NothingJoined([]);
  }

  lemma TooLong(front: Decoder, max: nat, c: RC.Counters, bs: seq<seq<SQ.Queued>>)
    requires Stable(front) && bs != [] && |SQ.Data(bs[0])| > max
    ensures UpToTooLong(front, max, c, bs)
  {
    hide Stable, SQ.Joined, SQ.Data, Bodies, Contents;
    BodiesFront(bs);
    SessionFront(front, max, c, SQ.Data(bs[0]), Bodies(bs[1..]));
    NothingJoined(bs);
  }

  lemma OneMoreMessage(front: Decoder, max: nat, c: RC.Counters, bs: seq<seq<SQ.Queued>>)
    requires Stable(front) && bs != [] && |SQ.Data(bs[0])| <= max
    requires var r := Drain(front, c, SQ.Data(bs[0]));
             && r.out == Contents(bs[0]) && r.verdict.Accepted? && r.rest == []
             && UpToTooLong(front, max, r.state, bs[1..])
    ensures UpToTooLong(front, max, c, bs)
  {
    hide Stable, SQ.Joined, SQ.Data, Bodies, Contents, Drain;
    BodiesFront(bs);
    SessionFront(front, max, c, SQ.Data(bs[0]), Bodies(bs[1..]));
    FrontContents(bs, Fitting(Bodies(bs), max));
  }

  /** Messages are decoded up to the first that is too long. */
  lemma {:induction false} MessagesDecode(front: Decoder, max: nat, c: RC.Counters, bs: seq<seq<SQ.Queued>>, next: nat)
    requires Stable(front) && RT.Sequenced(front)
    requires SQ.Numbered(SQ.Joined(bs), next) && AllFaithful(front, SQ.Joined(bs)) && AllFresh(c, SQ.Joined(bs))
    ensures UpToTooLong(front, max, c, bs)
    decreases |bs|
  {
    hide SQ.Numbered, SQ.Data, SQ.Joined, AllFaithful, AllFresh, Contents, Drain, Stable, RT.Sequenced, UpToTooLong;
    if bs == [] {
      NoMessages(front, max, c);
    } else if |SQ.Data(bs[0])| > max {
      TooLong(front, max, c, bs);
    } else {
      JoinedFront(bs);
      MessageDecodes(front, c, bs[0], SQ.Joined(bs[1..]), next);
      MessagesDecode(front, max, Drain(front, c, SQ.Data(bs[0])).state, bs[1..], next);
      OneMoreMessage(front, max, c, bs);
    }
  }

  // ---------------------------------------------------------------------- the whole way

  /** A record as an encoder makes it, with any padding, of a size that fits the other end's buffer. */
  ghost predicate SealedMade(g: RC.Config, r: RT.Sent) {
    && r.out.number < TWO_64 && |r.bytes| <= g.max
    && exists form :: SealedAs(g, r, form)
  }

  predicate SealedAs(g: RC.Config, r: RT.Sent, form: RT.Form) {
    && RT.Drawn(form) && RT.FormFlags(form) == r.out.flags
    && RT.Encode(g.crypto, g.key, r.out.number, r.out.payload, form) == RC.Ok(r.bytes)
  }

  lemma SealedFaithful(g: RC.Config, r: RT.Sent)
    requires RC.Sound(g.crypto) && g.wire.PTT5? && SealedMade(g, r)
    ensures RT.Faithful(RC.Sealed(g), r)
  {
    var form :| SealedAs(g, r, form);
    forall c, more | RT.Fresh(c, r.out.number)
      ensures RC.Sealed(g)(c, r.bytes + more) == Unit([r.out], RC.Accept(c, r.out.number), |r.bytes|)
    {
      RT.RoundTrip(g, r.out.number, r.out.payload, form, c, more);
    }
  }

  lemma {:induction false} FlattenBodies(bs: seq<seq<SQ.Queued>>)
    ensures Flatten(Bodies(bs)) == SQ.Data(SQ.Joined(bs))
    decreases |bs|
  {
    if bs != [] {
      JoinedFront(bs);
      assert Bodies(bs)[1..] == Bodies(bs[1..]);
      FlattenBodies(bs[1..]);
      SQ.DataAppend(bs[0], SQ.Joined(bs[1..]));
    }
  }

  lemma {:induction false} JoinedPrefix(bs: seq<seq<SQ.Queued>>, k: nat)
    requires k <= |bs|
    ensures SQ.Joined(bs[..k]) <= SQ.Joined(bs)
    decreases |bs|
  {
    if k < |bs| {
      JoinedPrefix(bs[..|bs| - 1], k);
      assert bs[..|bs| - 1][..k] == bs[..k];
    } else {
      assert bs[..k] == bs;
    }
  }

  lemma ContentsPrefix(a: seq<SQ.Queued>, b: seq<SQ.Queued>)
    requires a <= b
    ensures Contents(a) <= Contents(b)
  {
  }

  /** The first so many messages of a sender, fed to the decoder one by one. */
  lemma MessagesReceived(front: Decoder, max: nat, s: SQ.Sender, cfg: SQ.Config, n: nat)
    requires Stable(front) && RT.Sequenced(front) && SQ.Kept(false, s, cfg) && AllFaithful(front, s.sent + s.queue)
    requires n <= |s.batches|
    ensures var ms := Bodies(s.batches[..n]);
            var r := RT.Session(front, max, RC.FRESH, [], ms);
            && GotPrefix(s, r)
            && r.out == Contents(SQ.Joined(s.batches[..Fitting(ms, max)]))
            && (r.verdict.Accepted? <==> forall j :: 0 <= j < n ==> |ms[j]| <= max)
  {
    var bs := s.batches[..n];
    var ms := Bodies(bs);
    var q := SQ.Joined(bs);
    JoinedPrefix(s.batches, n);
    assert q == (s.sent + s.queue)[..|q|];
    assert SQ.Numbered(q, s.sequence) && AllFaithful(front, q);
    MessagesDecode(front, max, RC.FRESH, bs, s.sequence);
    var k := Fitting(ms, max);
    assert bs[..k] == s.batches[..k];
    JoinedPrefix(s.batches, k);
    ContentsPrefix(SQ.Joined(bs[..k]), s.sent);
    SessionBooks(front, max, s, cfg, bs, q);
  }

  lemma SessionBooks(front: Decoder, max: nat, s: SQ.Sender, cfg: SQ.Config, bs: seq<seq<SQ.Queued>>, q: seq<SQ.Queued>)
    requires Stable(front) && RT.Sequenced(front) && SQ.SenderValid(s, cfg) && q == SQ.Joined(bs)
    requires SQ.Numbered(q, s.sequence) && AllFaithful(front, q)
    requires RT.Session(front, max, RC.FRESH, [], Bodies(bs)).out <= Contents(s.sent)
    ensures var r := RT.Session(front, max, RC.FRESH, [], Bodies(bs));
            RT.StrictlyIncreasing(r.out) && Booked(s, r.out, r.state)
  {
    var ms := Bodies(bs);
    FlattenBodies(bs);
    assert q + [] == q && SQ.Data(q) + [] == SQ.Data(q) && [] + Flatten(ms) == Flatten(ms);
    WireDecodes(front, q, [], s.sequence, []);
    var j := SessionPrefix(front, max, RC.FRESH, [], ms);
    var b := [] + Flatten(ms[..j]);
    Balance(front, s, cfg, b);
    Ascending(front, b);
  }

  /** What has become of a sender's records when these chunks have arrived at the authenticated other end: the messages
      read are a prefix of those made; their records are delivered in order up to the first message that is longer than
      the receiver's buffer, which is always refused; no replay is seen, and the gaps are the records dropped in
      between. */
  ghost predicate Arrived(reader: WF.Parser, decoder: Decoder, max: nat, t: Tunnel, chunks: seq<Bytes>)
    requires Stable(reader) && Stable(decoder)
  {
    var read := Feed(reader, WF.FRESH, [], chunks);
    var ms := WF.Messages(read.out);
    var everything := Flatten(chunks) == t.link.wire;
    && read.verdict.Accepted? && ms <= Bodies(t.sender.batches)
    && (everything && t.link.tx.frames == [] ==> ms == Bodies(t.sender.batches))
    && Decoded(decoder, max, t, ms, everything)
  }

  ghost predicate Decoded(decoder: Decoder, max: nat, t: Tunnel, ms: seq<Bytes>, everything: bool)
    requires Stable(decoder) && |ms| <= |t.sender.batches|
  {
    var r := RT.Session(decoder, max, RC.FRESH, [], ms);
    && GotPrefix(t.sender, r)
    && r.out == Contents(SQ.Joined(t.sender.batches[..Fitting(ms, max)]))
    && (r.verdict.Accepted? <==> forall j :: 0 <= j < |ms| ==> |ms[j]| <= max)
    && (everything && t.link.tx.frames == [] && r.verdict.Accepted? ==> r.out == Contents(t.sender.sent))
  }

  lemma TunnelDecodes(client: bool, t: Tunnel, cfg: SQ.Config, decoder: Decoder, max: nat, ms: seq<Bytes>,
      everything: bool)
    requires TunnelValid(client, t, cfg) && Stable(decoder) && RT.Sequenced(decoder)
             && AllFaithful(decoder, t.sender.sent + t.sender.queue)
    requires ms <= Bodies(t.sender.batches) && (everything && t.link.tx.frames == [] ==> ms == Bodies(t.sender.batches))
    ensures Decoded(decoder, max, t, ms, everything)
  {
    hide Stable, RT.Sequenced, AllFaithful, SQ.SenderValid, WS.LinkValid, SQ.Joined, GotPrefix, RT.Session;
    var n := |ms|;
    assert ms == Bodies(t.sender.batches[..n]);
    hide Bodies;
    MessagesReceived(decoder, max, t.sender, cfg, n);
    assert n == |t.sender.batches| ==> t.sender.batches[..n] == t.sender.batches;
    assert forall j :: 0 <= j < Fitting(ms, max) ==> |ms[j]| <= max;
  }

  lemma TunnelArrives(client: bool, t: Tunnel, cfg: SQ.Config, decoder: Decoder, max: nat, chunks: seq<Bytes>)
    requires TunnelValid(client, t, cfg) && Stable(decoder) && RT.Sequenced(decoder)
             && AllFaithful(decoder, t.sender.sent + t.sender.queue)
    requires Flatten(chunks) <= t.link.wire
    ensures Stable(WF.Frames(WF.Role(!client, true)))
            && Arrived(WF.Frames(WF.Role(!client, true)), decoder, max, t, chunks)
  {
    WS.DeliveryOf(client, t.link, chunks);
    var reader := WF.Frames(WF.Role(!client, true));
    TunnelDecodes(client, t, cfg, decoder, max, WF.Messages(Feed(reader, WF.FRESH, [], chunks).out),
      Flatten(chunks) == t.link.wire);
  }

  lemma AllSealed(g: RC.Config, q: seq<SQ.Queued>)
    requires RC.Sound(g.crypto) && g.wire.PTT5? && SQ.Every(r => SealedMade(g, r), q)
    ensures AllFaithful(RC.Sealed(g), q)
  {
    forall i | 0 <= i < |q|
      ensures RT.Faithful(RC.Sealed(g), q[i].record)
    {
      SealedFaithful(g, q[i].record);
    }
  }

  /** End to end over a WebSocket, from any state of a tunnel on: for every run of the sending side and every way the
      bytes arrive. */
  lemma CarrierEndToEnd(client: bool, t: Tunnel, es: seq<Event>, cfg: SQ.Config, g: RC.Config, chunks: seq<Bytes>)
    requires TunnelValid(client, t, cfg) && SQ.Every(r => SealedMade(g, r), t.sender.sent + t.sender.queue)
    requires Runs(client, t, es, cfg) && Makes(r => SealedMade(g, r), es) && RC.Sound(g.crypto) && g.wire.PTT5?
    requires Flatten(chunks) <= Run(client, t, es, cfg).link.wire
    ensures Stable(WF.Frames(WF.Role(!client, true))) && Stable(RC.Sealed(g))
    ensures Arrived(WF.Frames(WF.Role(!client, true)), RC.Sealed(g), g.max, Run(client, t, es, cfg), chunks)
  {
    hide TunnelValid;
    var last := Run(client, t, es, cfg);
    RC.SealedStable(g);
    RT.DecodersSequenced(g, RC.MacConfig(g.crypto, g.key, g.max));
    RunEvery(client, t, es, cfg, r => SealedMade(g, r));
    AllSealed(g, last.sender.sent + last.sender.queue);
    RunKeeps(client, t, es, cfg);
    TunnelArrives(client, last, cfg, RC.Sealed(g), g.max, chunks);
  }

  /** The same from the start on, with nothing to ask of the state. */
  lemma CarrierFromStart(client: bool, es: seq<Event>, cfg: SQ.Config, g: RC.Config, chunks: seq<Bytes>)
    requires cfg.batchBytes <= WF.MAX_MESSAGE && RC.Sound(g.crypto) && g.wire.PTT5?
    requires Runs(client, FRESH, es, cfg) && Makes(r => SealedMade(g, r), es)
    requires Flatten(chunks) <= Run(client, FRESH, es, cfg).link.wire
    ensures Stable(WF.Frames(WF.Role(!client, true))) && Stable(RC.Sealed(g))
    ensures Arrived(WF.Frames(WF.Role(!client, true)), RC.Sealed(g), g.max, Run(client, FRESH, es, cfg), chunks)
  {
    hide TunnelValid, Runs, Run, Makes, Arrived;
    FreshValid(client, cfg);
    assert FRESH.sender.sent + FRESH.sender.queue == [];
    CarrierEndToEnd(client, FRESH, es, cfg, g, chunks);
  }
}
