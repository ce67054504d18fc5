/** From the queue of one end to the decoder of the other: over a TLS stream, and in messages over a WebSocket. */
module EndToEnd {
  import opened Bytes
  import opened Incremental
  import RC = RecordCodec
  import RT = RecordTheorems
  import SQ = SendQueue

  type Decoder = (RC.Counters, Bytes) -> Front<RC.Counters, RC.Delivered, RC.Error>

  type Received = Outcome<RC.Counters, RC.Delivered, RC.Error>

  // ---------------------------------------------------------------------- a queue as an honest stream

  function Records(q: seq<SQ.Queued>): seq<RT.Sent> {
    seq(|q|, i requires 0 <= i < |q| => q[i].record)
  }

  /** What the records of a queue stand for. */
  function Contents(q: seq<SQ.Queued>): seq<RC.Delivered> {
    RT.Outs(Records(q))
  }

  lemma {:induction false} RecordsWire(q: seq<SQ.Queued>)
    ensures RT.Wire(Records(q)) == SQ.Data(q)
    decreases |q|
  {
    if q != [] {
      assert Records(q)[1..] == Records(q[1..]);
      RecordsWire(q[1..]);
    }
  }

  /** The decoder takes every record of the queue for what it is. */
  ghost predicate AllFaithful(front: Decoder, q: seq<SQ.Queued>) {
    forall i :: 0 <= i < |q| ==> RT.Faithful(front, q[i].record)
  }

  lemma HonestRecords(front: Decoder, q: seq<SQ.Queued>, next: nat)
    requires SQ.Numbered(q, next) && AllFaithful(front, q)
    ensures RT.Honest(front, Records(q))
  {
    forall i, j | 0 <= i < j < |q|
      ensures Contents(q)[i].number < Contents(q)[j].number
    {
      assert SQ.Serial(q[i]) < SQ.Serial(q[j]);
    }
  }

  /** The begun part of a record is an incomplete unit. */
  lemma PartIsIncomplete(front: Decoder, c: RC.Counters, r: RT.Sent, part: Bytes)
    requires Stable(front) && RT.Faithful(front, r) && RT.Fresh(c, r.out.number) && part < r.bytes
    ensures front(c, part).More?
  {
    var more := r.bytes[|part|..];
    assert part + more == r.bytes + [];
    assert Settled(front, c, part, more);
    assert front(c, r.bytes + []) == Unit([r.out], RC.Accept(c, r.out.number), |r.bytes|);
  }

  /** What was delivered last is the highest number accepted. */
  lemma {:induction false} LastIsHighest(front: Decoder, c: RC.Counters, b: Bytes)
    requires Stable(front) && RT.Sequenced(front) && Drain(front, c, b).verdict.Accepted?
    ensures var r := Drain(front, c, b);
            if r.out == [] then r.state == c else r.state.haveSeq && r.state.highest == r.out[|r.out| - 1].number
    decreases |b|
  {
    assert RT.SequencedAt(front, c, b);
    match front(c, b)
    case More =>
    case Bad(_, _) =>
    case Unit(out, next, size) => LastIsHighest(front, next, b[size..]);
  }

  /** A stream of whole records and the begun part of another yields just the whole ones. */
  lemma WireDecodes(front: Decoder, sent: seq<SQ.Queued>, queue: seq<SQ.Queued>, next: nat, part: Bytes)
    requires Stable(front) && RT.Sequenced(front) && SQ.Numbered(sent + queue, next) && AllFaithful(front, sent + queue)
    requires if queue == [] then part == [] else part < queue[0].record.bytes
    ensures var r := Drain(front, RC.FRESH, SQ.Data(sent) + part);
            r.out == Contents(sent) && r.verdict.Accepted? && r.rest == part
  {
    assert sent == (sent + queue)[..|sent|];
    assert SQ.Numbered(sent, next) && AllFaithful(front, sent);
    HonestRecords(front, sent, next);
    RT.HonestStream(front, RC.FRESH, Records(sent));
    RecordsWire(sent);
    var first := Drain(front, RC.FRESH, SQ.Data(sent));
    DrainResumes(front, RC.FRESH, SQ.Data(sent), part);
    LastIsHighest(front, RC.FRESH, SQ.Data(sent));
    assert first.rest + part == part;
    if queue != [] {
      assert (sent + queue)[|sent|] == queue[0];
      PartIsIncomplete(front, first.state, queue[0].record, part);
    }
  }

  // ---------------------------------------------------------------------- what a receiver's books show

  /** The receiver's counters against the sender's: no replay was seen, and the gaps counted are exactly the records the
      sender dropped between the first and the last one delivered. */
  ghost predicate Booked(s: SQ.Sender, out: seq<RC.Delivered>, c: RC.Counters) {
    && c.replays == 0
    && if out == [] then c == RC.FRESH
       else
         && c.haveSeq && c.highest == out[|out| - 1].number
         && c.gaps == |SQ.MissingBetween(s.sent + s.queue, s.sequence, out[0].number, out[|out| - 1].number)|
  }

  lemma Balance(front: Decoder, s: SQ.Sender, cfg: SQ.Config, b: Bytes)
    requires Stable(front) && RT.Sequenced(front) && SQ.SenderValid(s, cfg)
    requires Drain(front, RC.FRESH, b).verdict.Accepted? && Drain(front, RC.FRESH, b).out <= Contents(s.sent)
    ensures Booked(s, Drain(front, RC.FRESH, b).out, Drain(front, RC.FRESH, b).state)
  {
    var r := Drain(front, RC.FRESH, b);
    var undelivered := RT.DrainAccounts(front, RC.FRESH, b, 0, 0);
    LastIsHighest(front, RC.FRESH, b);
    if r.out != [] {
      assert r.out[0] == Contents(s.sent)[0] && r.out[|r.out| - 1] == Contents(s.sent)[|r.out| - 1];
      SQ.DroppedBetween(s, |r.out|, cfg);
    }
  }

  // ---------------------------------------------------------------------- over TLS

  /** What a receiver may have got of a sender's records: the first so many, with the books in order. It may have
      stopped for want of buffer space, and for nothing else. */
  ghost predicate GotPrefix(s: SQ.Sender, r: Received) {
    && r.out <= Contents(s.sent) && RT.StrictlyIncreasing(r.out)
    && (r.verdict.Accepted? || r.verdict == Refused(RC.BufferLimit))
    && Booked(s, r.out, r.state)
  }

  lemma FirstChunk(buffer: Bytes, chunks: seq<Bytes>, k: nat)
    requires 0 < k <= |chunks|
    ensures buffer + Flatten(chunks[..k]) == buffer + chunks[0] + Flatten(chunks[1..][..k - 1])
    ensures k == |chunks| ==> buffer + Flatten(chunks) == buffer + chunks[0] + Flatten(chunks[1..])
  {
    assert chunks[..k][1..] == chunks[1..][..k - 1];
    assert k == |chunks| ==> chunks[..k] == chunks && chunks[1..][..k - 1] == chunks[1..];
  }

  lemma NothingMore(front: Decoder, c: RC.Counters, buffer: Bytes, chunks: seq<Bytes>)
    requires Stable(front) && front(c, buffer).More?
    ensures Drain(front, c, buffer + Flatten(chunks[..0])) == Outcome([], Accepted, c, buffer)
  {
    assert buffer + Flatten(chunks[..0]) == buffer;
  }

  /** On an honest stream, a session does what decoding the first so many chunks at once does, and it stops before the
      end only for want of room. */
  lemma {:induction false} SessionPrefix(front: Decoder, max: nat, c: RC.Counters, buffer: Bytes, chunks: seq<Bytes>)
      returns (k: nat)
    requires Stable(front) && front(c, buffer).More? && Drain(front, c, buffer + Flatten(chunks)).verdict.Accepted?
    ensures k <= |chunks|
    ensures var r := RT.Session(front, max, c, buffer, chunks);
            var d := Drain(front, c, buffer + Flatten(chunks[..k]));
            && d.verdict.Accepted? && r.out == d.out && r.state == d.state
            && (r.verdict.Accepted? ==> k == |chunks|)
               && (!r.verdict.Accepted? ==> r.verdict == Refused(RC.BufferLimit))
    decreases |chunks|
  {
    hide Stable, Drain, Flatten;
    k := 0;
    NothingMore(front, c, buffer, chunks);
    if chunks != [] && |buffer| + |chunks[0]| <= max {
      var b := buffer + chunks[0];
      var first := Drain(front, c, b);
      FirstChunk(buffer, chunks, |chunks|);
      DrainResumes(front, c, b, Flatten(chunks[1..]));
      LeftoverIncomplete(front, c, b);
      var j := SessionPrefix(front, max, first.state, first.rest, chunks[1..]);
      k := j + 1;
      FirstChunk(buffer, chunks, k);
      DrainResumes(front, c, b, Flatten(chunks[1..][..j]));
    }
  }

  lemma {:induction false} FlattenPrefix(chunks: seq<Bytes>, k: nat)
    requires k <= |chunks|
    ensures Flatten(chunks[..k]) <= Flatten(chunks)
    decreases |chunks|
  {
    if k > 0 {
      assert chunks[..k][1..] == chunks[1..][..k - 1];
      FlattenPrefix(chunks[1..], k - 1);
    }
  }

  /** Any part of what a sender wrote, however it is cut on the way, is received as a prefix of its records with the
      books in order, and in full once all is there and found room. */
  lemma StreamReceived(front: Decoder, max: nat, s: SQ.Sender, cfg: SQ.Config, chunks: seq<Bytes>)
    requires Stable(front) && RT.Sequenced(front) && SQ.SenderValid(s, cfg) && AllFaithful(front, s.sent + s.queue)
    requires Flatten(chunks) <= s.wire
    ensures var r := RT.Session(front, max, RC.FRESH, [], chunks);
            && GotPrefix(s, r)
            && (Flatten(chunks) == s.wire && r.verdict.Accepted? ==> r.out == Contents(s.sent))
  {
    var part := SQ.Begun(s);
    WireDecodes(front, s.sent, s.queue, s.sequence, part);
    assert [] + Flatten(chunks) == Flatten(chunks);
    PrefixYieldsPrefix(front, RC.FRESH, Flatten(chunks), s.wire);
    var k := SessionPrefix(front, max, RC.FRESH, [], chunks);
    var b := [] + Flatten(chunks[..k]);
    FlattenPrefix(chunks, k);
    PrefixYieldsPrefix(front, RC.FRESH, b, s.wire);
    Balance(front, s, cfg, b);
    Ascending(front, b);
    assert k == |chunks| ==> chunks[..k] == chunks;
  }

  lemma Ascending(front: Decoder, b: Bytes)
    requires Stable(front) && RT.Sequenced(front)
    ensures RT.StrictlyIncreasing(Drain(front, RC.FRESH, b).out)
  {
    var undelivered := RT.DrainAccounts(front, RC.FRESH, b, 0, 0);
  }

  /** A record as the PTT3 encoder makes it, of a shape and a size the other end takes. */
  predicate MacMade(g: RC.MacConfig, r: RT.Sent) {
    && r.out.number < TWO_64 && |r.out.payload| <= RC.MAX_PAYLOAD
       && RC.MacShapeProblem(r.out.flags, |r.out.payload|).None?
    && RC.MacRecord(g.crypto, g.key, r.out.number, r.out.payload, r.out.flags) == RC.Ok(r.bytes) && |r.bytes| <= g.max
  }

  lemma MacFaithful(g: RC.MacConfig, r: RT.Sent)
    requires RC.Sound(g.crypto) && MacMade(g, r)
    ensures RT.Faithful(RC.Mac(g), r)
  {
    forall c, more | RT.Fresh(c, r.out.number)
      ensures RC.Mac(g)(c, r.bytes + more) == Unit([r.out], RC.Accept(c, r.out.number), |r.bytes|)
    {
      RT.MacRoundTrip(g, r.out.number, r.out.payload, r.out.flags, c, more);
    }
  }

  lemma NewKept(tls: bool, cfg: SQ.Config)
    ensures SQ.Kept(tls, SQ.NEW, cfg)
  {
    SQ.NewValid(cfg);
  }

  ghost function Made(made: RT.Sent -> bool, es: seq<SQ.Event>): bool {
    forall k :: 0 <= k < |es| && es[k].Add? ==> made(es[k].x.record)
  }

  /** All records of a run are taken by the decoder for what they are. */
  lemma RunFaithful(s: SQ.Sender, es: seq<SQ.Event>, cfg: SQ.Config, g: RC.MacConfig)
    requires SQ.Kept(true, s, cfg) && SQ.Every(r => MacMade(g, r), s.sent + s.queue)
    requires SQ.Runs(true, s, es, cfg) && Made(r => MacMade(g, r), es) && RC.Sound(g.crypto)
    ensures var t := SQ.Run(true, s, es, cfg); AllFaithful(RC.Mac(g), t.sent + t.queue)
  {
    var made := r => MacMade(g, r);
    SQ.RunEvery(true, s, es, cfg, made);
    var t := SQ.Run(true, s, es, cfg);
    forall i | 0 <= i < |t.sent + t.queue|
      ensures RT.Faithful(RC.Mac(g), (t.sent + t.queue)[i].record)
    {
      assert made((t.sent + t.queue)[i].record);
      MacFaithful(g, (t.sent + t.queue)[i].record);
    }
  }

  /** End to end over TLS, from any state of a sender on: whatever the queue drops, whatever each write takes, and
      however the stream is cut, the receiver sees the numbers go up, never a replay, and its gaps are the records
      dropped in between. */
  lemma TlsEndToEnd(s: SQ.Sender, es: seq<SQ.Event>, cfg: SQ.Config, g: RC.MacConfig, chunks: seq<Bytes>)
    requires SQ.Kept(true, s, cfg) && SQ.Every(r => MacMade(g, r), s.sent + s.queue)
    requires SQ.Runs(true, s, es, cfg) && Made(r => MacMade(g, r), es) && RC.Sound(g.crypto)
    requires Flatten(chunks) <= SQ.Run(true, s, es, cfg).wire
    ensures Stable(RC.Mac(g))
    ensures var t := SQ.Run(true, s, es, cfg);
            var r := RT.Session(RC.Mac(g), g.max, RC.FRESH, [], chunks);
            && GotPrefix(t, r)
            && (Flatten(chunks) == t.wire && r.verdict.Accepted? ==> r.out == Contents(t.sent))
  {
    var t := SQ.Run(true, s, es, cfg);
    SQ.RunKeeps(true, s, es, cfg);
    RunFaithful(s, es, cfg, g);
    RC.MacStable(g);
    RT.DecodersSequenced(RC.Config(g.crypto, RC.PTT5, g.key, g.max), g);
    StreamReceived(RC.Mac(g), g.max, t, cfg, chunks);
  }

  // ---------------------------------------------------------------------- when a TLS stream is accepted

  /** A part of the stream is whole records and the begun part of another. */
  lemma {:induction false} PartOfData(q: seq<SQ.Queued>, part: Bytes) returns (k: nat, begun: Bytes)
    requires part <= SQ.Data(q) && SQ.NonEmpty(q)
    ensures k <= |q| && part == SQ.Data(q[..k]) + begun
    ensures if k == |q| then begun == [] else begun < q[k].record.bytes
    decreases |q|
  {
    if q == [] {
      k, begun := 0, [];
    } else if |part| < SQ.Size(q[0]) {
      k, begun := 0, part;
      FrontPart(part, q[0].record.bytes, SQ.Data(q[1..]));
      assert q[..0] == [];
    } else {
      var n := SQ.Size(q[0]);
      FrontPart(part, q[0].record.bytes, SQ.Data(q[1..]));
      SQ.WithoutFirst(q);
      hide SQ.NonEmpty;
      var j;
      j, begun := PartOfData(q[1..], part[n..]);
      k := j + 1;
      FrontData(q, k);
      hide SQ.Data;
      Associates(q[0].record.bytes, SQ.Data(q[1..][..j]), begun);
    }
  }

  lemma FrontPart(part: Bytes, front: Bytes, later: Bytes)
    requires part <= front + later
    ensures if |part| < |front| then part < front else part == front + part[|front|..] && part[|front|..] <= later
  {
  }

  lemma FrontData(q: seq<SQ.Queued>, k: nat)
    requires 0 < k <= |q|
    ensures SQ.Data(q[..k]) == q[0].record.bytes + SQ.Data(q[1..][..k - 1])
  {
    assert q[..k][1..] == q[1..][..k - 1];
  }

  lemma Associates(a: Bytes, b: Bytes, c: Bytes)
    ensures a + (b + c) == a + b + c
  {
  }

  predicate NoLonger(q: seq<SQ.Queued>, longest: nat) {
    forall i :: 0 <= i < |q| ==> 0 < SQ.Size(q[i]) <= longest
  }

  /** Of a part of an honest stream less than a record is left undecoded. */
  lemma LeftoverShort(front: Decoder, q: seq<SQ.Queued>, next: nat, part: Bytes, longest: nat)
    requires Stable(front) && RT.Sequenced(front) && SQ.Numbered(q, next) && AllFaithful(front, q)
    requires part <= SQ.Data(q) && longest > 0 && NoLonger(q, longest)
    ensures var r := Drain(front, RC.FRESH, part); r.verdict.Accepted? && |r.rest| < longest
  {
    var k, begun := PartOfData(q, part);
    assert q[..k] + q[k..] == q;
    WireDecodes(front, q[..k], q[k..], next, begun);
  }

  lemma {:induction false} SessionFits(front: Decoder, max: nat, q: seq<SQ.Queued>, next: nat, done: Bytes,
      chunks: seq<Bytes>, longest: nat, cut: nat)
    requires Stable(front) && RT.Sequenced(front) && SQ.Numbered(q, next) && AllFaithful(front, q)
    requires NoLonger(q, longest)
    requires forall i :: 0 <= i < |chunks| ==> |chunks[i]| <= cut
    requires longest > 0 && longest - 1 + cut <= max && done + Flatten(chunks) <= SQ.Data(q)
    ensures var d := Drain(front, RC.FRESH, done);
            RT.Session(front, max, d.state, d.rest, chunks).verdict.Accepted?
    decreases |chunks|
  {
    hide SQ.Data, SQ.Numbered, AllFaithful, RT.Sequenced, NoLonger;
    if chunks != [] {
      var more := done + chunks[0];
      assert done + Flatten(chunks) == more + Flatten(chunks[1..]);
      LeftoverShort(front, q, next, done, longest);
      LeftoverShort(front, q, next, more, longest);
      DrainResumes(front, RC.FRESH, done, chunks[0]);
      SessionFits(front, max, q, next, more, chunks[1..], longest, cut);
    }
  }

  /** With room for what is left of the longest record and one chunk, the receiver's buffer never overflows: the
      stream of an honest sender is accepted, and delivered in full once all of it is there. */
  lemma TlsAccepts(s: SQ.Sender, es: seq<SQ.Event>, cfg: SQ.Config, g: RC.MacConfig, chunks: seq<Bytes>, longest: nat,
      cut: nat)
    requires SQ.Kept(true, s, cfg) && SQ.Every(r => MacMade(g, r), s.sent + s.queue) && SQ.Runs(true, s, es, cfg)
    requires Made(r => MacMade(g, r), es) && RC.Sound(g.crypto)
    requires var t := SQ.Run(true, s, es, cfg);
             Flatten(chunks) <= t.wire && NoLonger(t.sent + t.queue, longest)
    requires longest > 0 && longest - 1 + cut <= g.max && forall i :: 0 <= i < |chunks| ==> |chunks[i]| <= cut
    ensures Stable(RC.Mac(g))
    ensures var t := SQ.Run(true, s, es, cfg);
            var r := RT.Session(RC.Mac(g), g.max, RC.FRESH, [], chunks);
            r.verdict.Accepted? && GotPrefix(t, r) && (Flatten(chunks) == t.wire ==> r.out == Contents(t.sent))
  {
    TlsEndToEnd(s, es, cfg, g, chunks);
    RunFaithful(s, es, cfg, g);
    RT.DecodersSequenced(RC.Config(g.crypto, RC.PTT5, g.key, g.max), g);
    SQ.RunKeeps(true, s, es, cfg);
    var t := SQ.Run(true, s, es, cfg);
    WireInData(t, cfg);
    AllOfThem(RC.Mac(g), g.max, t, chunks, longest, cut);
  }

  lemma WireInData(t: SQ.Sender, cfg: SQ.Config)
    requires SQ.SenderValid(t, cfg)
    ensures t.wire <= SQ.Data(t.sent + t.queue)
  {
    SQ.DataAppend(t.sent, t.queue);
    if t.queue != [] {
      assert SQ.Data(t.queue) == t.queue[0].record.bytes + SQ.Data(t.queue[1..]);
      assert SQ.Begun(t) <= SQ.Data(t.queue);
    }
  }

  lemma AllOfThem(front: Decoder, max: nat, t: SQ.Sender, chunks: seq<Bytes>, longest: nat, cut: nat)
    requires Stable(front) && RT.Sequenced(front) && AllFaithful(front, t.sent + t.queue)
    requires SQ.Numbered(t.sent + t.queue, t.sequence) && NoLonger(t.sent + t.queue, longest)
    requires Flatten(chunks) <= t.wire <= SQ.Data(t.sent + t.queue)
    requires longest > 0 && longest - 1 + cut <= max && forall i :: 0 <= i < |chunks| ==> |chunks[i]| <= cut
    ensures RT.Session(front, max, RC.FRESH, [], chunks).verdict.Accepted?
  {
    var q := t.sent + t.queue;
    assert [] + Flatten(chunks) == Flatten(chunks);
    assert Drain(front, RC.FRESH, []) == Outcome([], Accepted, RC.FRESH, []);
    SessionFits(front, max, q, t.sequence, [], chunks, longest, cut);
  }
}
