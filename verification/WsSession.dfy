/** A WebSocket connection: the queue of frames to send, flushed as far as the socket takes them, and the reading of
    messages. What the socket does is up to it: how many bytes each write takes, and how arriving bytes are cut. */
module WsSession {
  import opened Bytes
  import opened Incremental
  import opened WsFrames

  const MAX_TX := MAX_MESSAGE + 64 * 1024
  const MAX_RX := 2 * MAX_MESSAGE + 64 * 1024
  const READ_SIZE := 65536
  const READ_TOTAL := 256 * 1024
  const REMEMBERED_PONGS := 16

  // ---------------------------------------------------------------------- the transmit queue

  datatype TxFrame = TxFrame(data: Bytes, offset: nat, payload: nat, opcode: Byte)

  datatype Tx = Tx(frames: seq<TxFrame>, queued: nat, binaryFrames: nat, binaryBytes: nat, pings: nat, pongs: nat)

  const IDLE := Tx([], 0, 0, 0, 0, 0)

  /** The bytes still to go out. */
  function Pending(fs: seq<TxFrame>): Bytes
    requires forall k :: 0 <= k < |fs| ==> fs[k].offset <= |fs[k].data|
  {
    if fs == [] then [] else fs[0].data[fs[0].offset..] + Pending(fs[1..])
  }

  predicate Unfinished(fs: seq<TxFrame>) {
    forall k :: 0 <= k < |fs| ==> fs[k].offset < |fs[k].data| && (k > 0 ==> fs[k].offset == 0)
  }

  /** Every queued frame has bytes left, only the front one has been begun, and the byte count is true. */
  predicate TxValid(tx: Tx) {
    Unfinished(tx.frames) && tx.queued == |Pending(tx.frames)| <= MAX_TX
  }

  function Account(tx: Tx, f: TxFrame): Tx {
    if f.opcode == BINARY then tx.(binaryFrames := tx.binaryFrames + 1, binaryBytes := tx.binaryBytes + f.payload)
    else if f.opcode == PING then tx.(pings := tx.pings + 1)
    else if f.opcode == PONG then tx.(pongs := tx.pongs + 1)
    else tx
  }

  predicate Fits(tx: Tx, size: nat) {
    size <= MAX_TX && tx.queued <= MAX_TX - size
  }

  function Queued(tx: Tx, f: TxFrame): Tx {
    tx.(frames := tx.frames + [f], queued := tx.queued + |f.data|)
  }

  /** The front frame is done. */
  function Finished(tx: Tx): Tx
    requires tx.frames != []
  {
    var f := tx.frames[0];
    var left := if f.offset <= |f.data| then |f.data| - f.offset else 0;
    Account(tx, f).(frames := tx.frames[1..], queued := if tx.queued >= left then tx.queued - left else 0)
  }

  /** The queue after n more bytes went out. */
  function Moved(tx: Tx, n: nat): Tx
    decreases |tx.frames|
  {
    if n == 0 || tx.frames == [] then tx
    else
      var f := tx.frames[0];
      var left := if f.offset <= |f.data| then |f.data| - f.offset else 0;
      if n < left then
        tx.(frames := tx.frames[0 := f.(offset := f.offset + n)], queued := if tx.queued >= n then tx.queued - n else 0)
      else Moved(Finished(tx), n - left)
  }

  lemma {:induction false} PendingAppend(a: seq<TxFrame>, b: seq<TxFrame>)
    requires forall k :: 0 <= k < |a| ==> a[k].offset <= |a[k].data|
    requires forall k :: 0 <= k < |b| ==> b[k].offset <= |b[k].data|
    ensures Pending(a + b) == Pending(a) + Pending(b)
    decreases |a|
  {
    if a == [] {
      assert a + b == b;
    } else {
      assert (a + b)[1..] == a[1..] + b;
      PendingAppend(a[1..], b);
    }
  }

  lemma QueuedValid(tx: Tx, f: TxFrame)
    requires TxValid(tx) && Fits(tx, |f.data|) && f.offset == 0 && f.data != []
    ensures TxValid(Queued(tx, f)) && Pending(Queued(tx, f).frames) == Pending(tx.frames) + f.data
  {
    PendingAppend(tx.frames, [f]);
    assert Pending([f]) == f.data[0..] + Pending([f][1..]);
  }

  /** Bytes go out in order, and the queue keeps the rest. */
  lemma {:induction false} MovedRest(tx: Tx, n: nat)
    requires TxValid(tx) && n <= tx.queued
    ensures TxValid(Moved(tx, n)) && Pending(Moved(tx, n).frames) == Pending(tx.frames)[n..]
    ensures Moved(tx, n).queued == tx.queued - n
    decreases |tx.frames|
  {
    if n > 0 && tx.frames != [] {
      if n < |tx.frames[0].data| - tx.frames[0].offset {
        BegunRest(tx, n);
      } else {
        FinishedValid(tx);
        MovedRest(Finished(tx), n - (|tx.frames[0].data| - tx.frames[0].offset));
        FinishedRest(tx, n);
      }
    }
  }

  /** Within the front frame. */
  lemma BegunRest(tx: Tx, n: nat)
    requires TxValid(tx) && tx.frames != [] && 0 < n < |tx.frames[0].data| - tx.frames[0].offset
    ensures n <= tx.queued && TxValid(Moved(tx, n)) && Pending(Moved(tx, n).frames) == Pending(tx.frames)[n..]
    ensures Moved(tx, n).queued == tx.queued - n
  {
    hide Moved, Unfinished, Pending, Rest;
    var f := tx.frames[0];
    FrontPending(tx.frames);
    FrontOffset(tx.frames, f.offset + n);
    MovedBegun(tx, n);
    SliceRest(f.data, f.offset, n);
    BehindFirst(f.data[f.offset..], Rest(tx.frames), n);
  }

  lemma MovedBegun(tx: Tx, n: nat)
    requires tx.frames != [] && tx.frames[0].offset + n < |tx.frames[0].data| && n > 0
    ensures var f := tx.frames[0];
            Moved(tx, n) == tx.(frames := tx.frames[0 := f.(offset := f.offset + n)],
                                queued := if tx.queued >= n then tx.queued - n else 0)
  {
  }

  /** What is pending behind the front frame. */
  function Rest(fs: seq<TxFrame>): Bytes
    requires fs != [] && Unfinished(fs)
  {
    Pending(fs[1..])
  }

  lemma FrontPending(fs: seq<TxFrame>)
    requires fs != [] && Unfinished(fs)
    ensures Pending(fs) == fs[0].data[fs[0].offset..] + Rest(fs)
  {
  }

  lemma SliceRest(b: Bytes, i: nat, n: nat)
    requires i + n <= |b|
    ensures b[i..][n..] == b[i + n..]
  {
  }

  /** The front frame at another place, the others as they are. */
  lemma FrontOffset(fs: seq<TxFrame>, offset: nat)
    requires fs != [] && Unfinished(fs) && offset < |fs[0].data|
    ensures var moved := fs[0 := fs[0].(offset := offset)];
            Unfinished(moved) && Pending(moved) == fs[0].data[offset..] + Rest(fs)
  {
    var moved := fs[0 := fs[0].(offset := offset)];
    assert moved[1..] == fs[1..];
  }

  /** Past the front frame. */
  lemma FinishedRest(tx: Tx, n: nat)
    requires TxValid(tx) && tx.frames != [] && |tx.frames[0].data| - tx.frames[0].offset <= n <= tx.queued && n > 0
    requires var left := |tx.frames[0].data| - tx.frames[0].offset;
             && left >= 0 && TxValid(Finished(tx)) && n - left <= Finished(tx).queued
             && TxValid(Moved(Finished(tx), n - left))
             && Pending(Moved(Finished(tx), n - left).frames) == Pending(Finished(tx).frames)[n - left..]
    ensures TxValid(Moved(tx, n)) && Pending(Moved(tx, n).frames) == Pending(tx.frames)[n..]
  {
    var f := tx.frames[0];
    assert Moved(tx, n) == Moved(Finished(tx), n - (|f.data| - f.offset));
    assert Pending(tx.frames) == f.data[f.offset..] + Rest(tx.frames);
    assert Pending(Finished(tx).frames) == Rest(tx.frames);
    hide Moved, Unfinished, Pending, Rest;
    BehindFirst(f.data[f.offset..], Rest(tx.frames), n);
  }

  lemma BehindFirst(a: Bytes, b: Bytes, n: nat)
    requires n <= |a| + |b|
    ensures n <= |a| ==> (a + b)[n..] == a[n..] + b
    ensures n >= |a| ==> (a + b)[n..] == b[n - |a|..]
  {
  }

  /** Two moves are one. */
  lemma {:induction false} MovedTwice(tx: Tx, m: nat, n: nat)
    requires TxValid(tx) && m + n <= tx.queued
    ensures Moved(Moved(tx, m), n) == Moved(tx, m + n)
    decreases |tx.frames|
  {
    hide Finished, Pending, Unfinished;
    if m > 0 && tx.frames != [] {
      FinishedValid(tx);
      hide TxValid;
      var left := |tx.frames[0].data| - tx.frames[0].offset;
      if m < left {
        MovedInFront(tx, m, n);
      } else {
        MovedTwice(Finished(tx), m - left, n);
      }
    }
  }

  lemma FinishedValid(tx: Tx)
    requires TxValid(tx) && tx.frames != []
    ensures tx.frames[0].offset < |tx.frames[0].data|
    ensures TxValid(Finished(tx)) && Finished(tx).queued == tx.queued - (|tx.frames[0].data| - tx.frames[0].offset)
    ensures |Finished(tx).frames| == |tx.frames| - 1
  {
  }

  /** The first of two moves stays within the front frame. */
  lemma MovedInFront(tx: Tx, m: nat, n: nat)
    requires TxValid(tx) && m + n <= tx.queued && tx.frames != [] && 0 < m < |tx.frames[0].data| - tx.frames[0].offset
    ensures Moved(Moved(tx, m), n) == Moved(tx, m + n)
  {
    var f := tx.frames[0];
    var one := Moved(tx, m);
    var g := one.frames[0];
    assert one.frames[1..] == tx.frames[1..] && g == f.(offset := f.offset + m);
    FrontBounded(tx);
    if m + n < |f.data| - f.offset {
      assert one.frames[0 := g.(offset := g.offset + n)] == tx.frames[0 := f.(offset := f.offset + m + n)];
    } else {
      assert Finished(one) == Finished(tx);
    }
  }

  lemma FrontBounded(tx: Tx)
    requires TxValid(tx) && tx.frames != []
    ensures |tx.frames[0].data| - tx.frames[0].offset <= tx.queued
  {
  }

  /** From one queue to another, these bytes went out and no others. */
  predicate WentOut(before: Tx, after: Tx, bytes: Bytes) {
    && TxValid(before) && TxValid(after) && |bytes| <= before.queued
    && after == Moved(before, |bytes|) && after.queued == before.queued - |bytes|
    && Pending(before.frames) == bytes + Pending(after.frames)
  }

  lemma WentOutTwice(a: Tx, b: Tx, c: Tx, first: Bytes, second: Bytes)
    requires WentOut(a, b, first) && WentOut(b, c, second)
    ensures WentOut(a, c, first + second)
  {
    hide Moved, Pending;
    MovedTwice(a, |first|, |second|);
    assert first + (second + Pending(c.frames)) == (first + second) + Pending(c.frames);
  }

  // ---------------------------------------------------------------------- a sending end over a run

  /** A message handed to the connection, and the mask that will be drawn if it is a client. */
  datatype Send = Send(opcode: Byte, payload: Bytes, drawn: Mask)

  predicate Sendable(s: Send) {
    (s.opcode == BINARY && |s.payload| <= MAX_MESSAGE)
      || ((s.opcode == PING || s.opcode == PONG) && |s.payload| <= MAX_CONTROL)
  }

  function FrameOf(client: bool, s: Send): Frame {
    Frame(true, s.opcode, if client then Some(s.drawn) else None, s.payload)
  }

  function TxFrameOf(client: bool, s: Send): TxFrame
    requires s.opcode < 16
  {
    TxFrame(Printed(FrameOf(client, s)), 0, |s.payload|, s.opcode)
  }

  datatype TxEvent = Submit(send: Send) | Move(count: nat)

  /** The queue, all bytes that went out, and all messages that were taken. */
  datatype Link = Link(tx: Tx, wire: Bytes, sent: seq<Send>)

  const UNUSED := Link(IDLE, [], [])

  function LinkStep(client: bool, l: Link, e: TxEvent): Link
    requires TxValid(l.tx) && (e.Submit? ==> Sendable(e.send))
  {
    match e
    case Submit(s) =>
      if Fits(l.tx, |TxFrameOf(client, s).data|) then Link(Queued(l.tx, TxFrameOf(client, s)), l.wire, l.sent + [s])
        else l
    case Move(n) =>
      var m := Min(n, l.tx.queued);
      Link(Moved(l.tx, m), l.wire + Pending(l.tx.frames)[..m], l.sent)
  }

  function SentFrames(client: bool, sent: seq<Send>): seq<Frame> {
    seq(|sent|, i requires 0 <= i < |sent| => FrameOf(client, sent[i]))
  }

  predicate AllSendable(sent: seq<Send>) {
    forall k :: 0 <= k < |sent| ==> Sendable(sent[k])
  }

  /** The frames of messages taken, as they were queued. */
  function AllTx(client: bool, sent: seq<Send>): (r: seq<TxFrame>)
    requires AllSendable(sent)
    ensures |r| == |sent|
  {
    seq(|sent|, i requires 0 <= i < |sent| => TxFrameOf(client, sent[i]))
  }

  /** What the counters of completed frames must show. */
  function Tally(fs: seq<TxFrame>): Tx {
    if fs == [] then IDLE else Account(Tally(fs[..|fs| - 1]), fs[|fs| - 1])
  }

  predicate CountersAgree(a: Tx, b: Tx) {
    a.binaryFrames == b.binaryFrames && a.binaryBytes == b.binaryBytes && a.pings == b.pings && a.pongs == b.pongs
  }

  /** The queue holds the last of the frames taken, all but the first of them whole, and the counters count the
      others: a frame counts exactly once its last byte has gone out. */
  predicate Completed(tx: Tx, all: seq<TxFrame>) {
    var k := |all| - |tx.frames|;
    && 0 <= k
    && (forall j :: 0 <= j < |tx.frames| ==> tx.frames[j] == all[k + j].(offset := tx.frames[j].offset))
    && CountersAgree(tx, Tally(all[..k]))
  }

  predicate LinkValid(client: bool, l: Link) {
    && TxValid(l.tx) && AllSendable(l.sent)
    && l.wire + Pending(l.tx.frames) == Wire(SentFrames(client, l.sent))
    && Completed(l.tx, AllTx(client, l.sent))
  }

  lemma {:induction false} WireSnoc(fs: seq<Frame>, f: Frame)
    requires (forall k :: 0 <= k < |fs| ==> fs[k].opcode < 16) && f.opcode < 16
    ensures Wire(fs + [f]) == Wire(fs) + Printed(f)
    decreases |fs|
  {
    if fs == [] {
      assert fs + [f] == [f];
      assert Wire([f][1..]) == [];
    } else {
      assert (fs + [f])[1..] == fs[1..] + [f];
      WireSnoc(fs[1..], f);
    }
  }

  lemma FinishedCompletes(tx: Tx, all: seq<TxFrame>)
    requires tx.frames != [] && Completed(tx, all)
    ensures Completed(Finished(tx), all)
  {
    var k := |all| - |tx.frames|;
    assert all[..k + 1][..k] == all[..k];
    assert tx.frames[0] == all[k].(offset := tx.frames[0].offset);
    assert Tally(all[..k + 1]) == Account(Tally(all[..k]), all[k]);
  }

  lemma {:induction false} MovedCompletes(tx: Tx, n: nat, all: seq<TxFrame>)
    requires Completed(tx, all)
    ensures Completed(Moved(tx, n), all)
    decreases |tx.frames|
  {
    if n > 0 && tx.frames != [] {
      var f := tx.frames[0];
      var left := if f.offset <= |f.data| then |f.data| - f.offset else 0;
      if n >= left {
        FinishedCompletes(tx, all);
        MovedCompletes(Finished(tx), n - left, all);
      } else {
        BegunCompletes(tx, n, all);
      }
    }
  }

  lemma BegunCompletes(tx: Tx, n: nat, all: seq<TxFrame>)
    requires Completed(tx, all) && tx.frames != []
    ensures Completed(tx.(frames := tx.frames[0 := tx.frames[0].(offset := tx.frames[0].offset + n)],
            queued := if tx.queued >= n then tx.queued - n else 0), all)
  {
  }

  lemma LinkStepValid(client: bool, l: Link, e: TxEvent)
    requires LinkValid(client, l) && (e.Submit? ==> Sendable(e.send))
    ensures LinkValid(client, LinkStep(client, l, e))
  {
    match e
    case Submit(s) =>
      if Fits(l.tx, |TxFrameOf(client, s).data|) {
        SubmitValid(client, l, s);
      }
    case Move(n) => MoveValid(client, l, Min(n, l.tx.queued));
  }

  lemma MoveValid(client: bool, l: Link, m: nat)
    requires LinkValid(client, l) && m <= l.tx.queued
    ensures LinkValid(client, Link(Moved(l.tx, m), l.wire + Pending(l.tx.frames)[..m], l.sent))
  {
    MovedRest(l.tx, m);
    MovedCompletes(l.tx, m, AllTx(client, l.sent));
    WireMoves(l.wire, Pending(l.tx.frames), m);
  }

  lemma WireMoves(wire: Bytes, pending: Bytes, m: nat)
    requires m <= |pending|
    ensures wire + pending[..m] + pending[m..] == wire + pending
  {
  }

  lemma SubmitValid(client: bool, l: Link, s: Send)
    requires LinkValid(client, l) && Sendable(s) && Fits(l.tx, |TxFrameOf(client, s).data|)
    ensures LinkValid(client, Link(Queued(l.tx, TxFrameOf(client, s)), l.wire, l.sent + [s]))
  {
    hide Completed, TxValid, Wire, SentFrames;
    var f := TxFrameOf(client, s);
    SubmitWire(client, l.sent, s);
    assert AllTx(client, l.sent + [s]) == AllTx(client, l.sent) + [f];
    FrameAppended(client, l, s, f);
  }

  lemma FrameAppended(client: bool, l: Link, s: Send, f: TxFrame)
    requires LinkValid(client, l) && AllSendable(l.sent + [s]) && Fits(l.tx, |f.data|) && f.offset == 0 && f.data != []
    requires Wire(SentFrames(client, l.sent + [s])) == Wire(SentFrames(client, l.sent)) + f.data
    requires AllTx(client, l.sent + [s]) == AllTx(client, l.sent) + [f]
    ensures LinkValid(client, Link(Queued(l.tx, f), l.wire, l.sent + [s]))
  {
    QueuedValid(l.tx, f);
    SubmitCompleted(l.tx, AllTx(client, l.sent), f);
    LongerWire(l.wire, Pending(l.tx.frames), f.data);
  }

  lemma LongerWire(wire: Bytes, pending: Bytes, data: Bytes)
    ensures wire + (pending + data) == (wire + pending) + data
  {
  }

  lemma SubmitWire(client: bool, sent: seq<Send>, s: Send)
    requires AllSendable(sent) && Sendable(s)
    ensures AllSendable(sent + [s])
    ensures Wire(SentFrames(client, sent + [s])) == Wire(SentFrames(client, sent)) + TxFrameOf(client, s).data
  {
    SentFramesSnoc(client, sent, s);
    WireSnoc(SentFrames(client, sent), FrameOf(client, s));
  }

  lemma SentFramesSnoc(client: bool, sent: seq<Send>, s: Send)
    ensures SentFrames(client, sent + [s]) == SentFrames(client, sent) + [FrameOf(client, s)]
  {
  }

  lemma SubmitCompleted(tx: Tx, all: seq<TxFrame>, f: TxFrame)
    requires Completed(tx, all)
    ensures Completed(Queued(tx, f), all + [f])
  {
    var k := |all| - |tx.frames|;
    assert (all + [f])[..k] == all[..k];
  }

  predicate Submits(es: seq<TxEvent>) {
    forall k :: 0 <= k < |es| && es[k].Submit? ==> Sendable(es[k].send)
  }

  function LinkRun(client: bool, l: Link, es: seq<TxEvent>): Link
    requires LinkValid(client, l) && Submits(es)
    decreases |es|
  {
    if es == [] then l
    else
      LinkStepValid(client, l, es[0]);
      LinkRun(client, LinkStep(client, l, es[0]), es[1..])
  }

  /** In every run of sends and partial writes: what went out and what is queued make up exactly the messages taken,
      the byte count is true and bounded, and the counters count exactly the frames that are out. */
  lemma {:induction false} LinkRunValid(client: bool, l: Link, es: seq<TxEvent>)
    requires LinkValid(client, l) && Submits(es)
    ensures LinkValid(client, LinkRun(client, l, es))
    decreases |es|
  {
    if es != [] {
      LinkStepValid(client, l, es[0]);
      LinkRunValid(client, LinkStep(client, l, es[0]), es[1..]);
    }
  }

  // ---------------------------------------------------------------------- from end to end

  function Binaries(sent: seq<Send>): seq<Bytes> {
    if sent == [] then [] else (if sent[0].opcode == BINARY then [sent[0].payload] else []) + Binaries(sent[1..])
  }

  datatype Script = Script(messages: seq<seq<Part>>, after: seq<Ctl>)

  /** A message with a control slipped in before its first part. */
  function Slipped(c: Ctl, parts: seq<Part>): (r: seq<Part>)
    requires parts != []
    ensures r != []
  {
    parts[0 := parts[0].(before := [c] + parts[0].before)]
  }

  /** Whole messages with controls in between, seen as a conversation in pieces. */
  function AsScript(client: bool, sent: seq<Send>): (r: Script)
    ensures forall k :: 0 <= k < |r.messages| ==> r.messages[k] != []
  {
    if sent == [] then Script([], [])
    else
      var s, r := sent[0], AsScript(client, sent[1..]);
      var mask := if client then Some(s.drawn) else None;
      if s.opcode == BINARY then Script([[Part([], s.payload, mask)]] + r.messages, r.after)
      else
        var c := ControlOf(client, s);
        if r.messages == [] then Script([], [c] + r.after)
        else
          Script(r.messages[0 := Slipped(c, r.messages[0])], r.after)
  }

  lemma {:induction false} AsScriptMeaning(client: bool, sent: seq<Send>)
    requires AllSendable(sent)
    ensures Means(client, sent)
    decreases |sent|
  {
    if sent != [] {
      AsScriptMeaning(client, sent[1..]);
      if sent[0].opcode == BINARY {
        BinaryFirst(client, sent);
      } else {
        ControlFirst(client, sent);
      }
    }
  }

  predicate Means(client: bool, sent: seq<Send>) {
    var r := AsScript(client, sent);
    && ScriptFrames(r.messages, r.after) == SentFrames(client, sent)
    && Originals(r.messages) == Binaries(sent)
    && forall k :: 0 <= k < |r.messages| ==> |Joined(r.messages[k])| <= MAX_MESSAGE
  }

  lemma BinaryFirst(client: bool, sent: seq<Send>)
    requires sent != [] && Sendable(sent[0]) && sent[0].opcode == BINARY && Means(client, sent[1..])
    ensures Means(client, sent)
  {
    hide PartFrames, Joined, ScriptFrames, Originals, SentFrames;
    var s, later := sent[0], AsScript(client, sent[1..]);
    var mask := if client then Some(s.drawn) else None;
    FirstSent(client, sent);
    OnePart(s.payload, mask);
    MessageFirst([Part([], s.payload, mask)], later.messages, later.after);
  }

  lemma FirstSent(client: bool, sent: seq<Send>)
    requires sent != []
    ensures SentFrames(client, sent) == [FrameOf(client, sent[0])] + SentFrames(client, sent[1..])
  {
  }

  lemma MessageFirst(parts: seq<Part>, messages: seq<seq<Part>>, after: seq<Ctl>)
    ensures ScriptFrames([parts] + messages, after) == PartFrames(parts, true) + ScriptFrames(messages, after)
    ensures Originals([parts] + messages) == [Joined(parts)] + Originals(messages)
  {
    assert ([parts] + messages)[1..] == messages;
  }

  lemma ControlFirst(client: bool, sent: seq<Send>)
    requires sent != [] && Sendable(sent[0]) && sent[0].opcode != BINARY && Means(client, sent[1..])
    ensures Means(client, sent)
  {
    assert SentFrames(client, sent) == [FrameOf(client, sent[0])] + SentFrames(client, sent[1..]);
    SlipIn(client, sent[0], AsScript(client, sent[1..]));
    assert [] + Binaries(sent[1..]) == Binaries(sent[1..]);
  }

  lemma OnePart(payload: Bytes, mask: Option<Mask>)
    ensures PartFrames([Part([], payload, mask)], true) == [Frame(true, BINARY, mask, payload)]
    ensures Joined([Part([], payload, mask)]) == payload
  {
    var parts := [Part([], payload, mask)];
    assert parts[1..] == [];
    assert Joined(parts) == payload + Joined(parts[1..]);
  }

  function ControlOf(client: bool, s: Send): Ctl {
    Ctl(s.opcode == PONG, s.payload, if client then Some(s.drawn) else None)
  }

  /** A control slipped in before a script. */
  lemma SlipIn(client: bool, s: Send, later: Script)
    requires s.opcode == PING || s.opcode == PONG
    requires forall k :: 0 <= k < |later.messages| ==> later.messages[k] != []
    ensures var c := ControlOf(client, s);
            if later.messages == [] then
              ScriptFrames([], [c] + later.after) == [FrameOf(client, s)] + ScriptFrames([], later.after)
            else
              var ms := later.messages[0 := Slipped(c, later.messages[0])];
              && ScriptFrames(ms, later.after) == [FrameOf(client, s)] + ScriptFrames(later.messages, later.after)
              && Originals(ms) == Originals(later.messages)
              && forall k :: 0 <= k < |ms| ==> Joined(ms[k]) == Joined(later.messages[k])
  {
    var c := ControlOf(client, s);
    if later.messages == [] {
      assert ([c] + later.after)[1..] == later.after;
    } else {
      SlipInParts(client, s, later.messages[0]);
      ReplaceFirst(later.messages, Slipped(c, later.messages[0]), FrameOf(client, s), later.after);
    }
  }

  /** The first message of a script gets one more frame in front. */
  lemma ReplaceFirst(messages: seq<seq<Part>>, parts: seq<Part>, f: Frame, after: seq<Ctl>)
    requires messages != [] && f.opcode < 16
    requires PartFrames(parts, true) == [f] + PartFrames(messages[0], true) && Joined(parts) == Joined(messages[0])
    ensures var ms := messages[0 := parts];
            && ScriptFrames(ms, after) == [f] + ScriptFrames(messages, after)
            && Originals(ms) == Originals(messages)
            && forall k :: 0 <= k < |ms| ==> Joined(ms[k]) == Joined(messages[k])
  {
    hide PartFrames, CtlFrames, Joined;
    var ms := messages[0 := parts];
    assert ms[0] == parts && ms[1..] == messages[1..];
    var rest := ScriptFrames(messages[1..], after);
    assert ([f] + PartFrames(messages[0], true)) + rest == [f] + (PartFrames(messages[0], true) + rest);
  }

  lemma SlipInParts(client: bool, s: Send, parts: seq<Part>)
    requires parts != [] && (s.opcode == PING || s.opcode == PONG)
    ensures var slipped := Slipped(ControlOf(client, s), parts);
            PartFrames(slipped, true) == [FrameOf(client, s)] + PartFrames(parts, true)
              && Joined(slipped) == Joined(parts)
  {
    var c, first := ControlOf(client, s), parts[0];
    assert Slipped(c, parts)[1..] == parts[1..];
    assert ([c] + first.before)[1..] == first.before;
    assert CtlFrames([c] + first.before) == [FrameOf(client, s)] + CtlFrames(first.before);
  }

  lemma SentReadable(client: bool, sent: seq<Send>)
    requires AllSendable(sent)
    ensures AllReadable(Role(!client, true), SentFrames(client, sent))
  {
    forall k | 0 <= k < |sent|
      ensures Readable(Role(!client, true), FrameOf(client, sent[k])) && sent[k].opcode != CLOSE
    {
      assert Sendable(sent[k]);
    }
  }

  /** Whatever part of the bytes that went out has arrived at the authenticated other end, however it was cut, the
      messages read there are a prefix of the binary messages sent; all of them once all bytes have arrived. */
  lemma DeliveryOf(client: bool, l: Link, chunks: seq<Bytes>)
    requires LinkValid(client, l) && Flatten(chunks) <= l.wire
    ensures var role := Role(!client, true);
            && Stable(Frames(role))
            && var r := Feed(Frames(role), FRESH, [], chunks);
            && r.verdict.Accepted?
            && Messages(r.out) <= Binaries(l.sent)
            && (Flatten(chunks) == l.wire && l.tx.frames == [] ==> Messages(r.out) == Binaries(l.sent))
  {
    AsScriptMeaning(client, l.sent);
    var r := AsScript(client, l.sent);
    var fs := SentFrames(client, l.sent);
    SentReadable(client, l.sent);
    assert l.wire <= Wire(fs) by {
      assert l.wire + Pending(l.tx.frames) == Wire(fs);
    }
    assert l.tx.frames == [] ==> l.wire + Pending(l.tx.frames) == l.wire;
    Reassembly(Role(!client, true), r.messages, r.after, chunks);
  }

  lemma UnusedValid(client: bool)
    ensures LinkValid(client, UNUSED)
  {
    assert SentFrames(client, []) == [] && AllTx(client, []) == [];
  }

  /** A connection after such a run. */
  function Used(client: bool, es: seq<TxEvent>): (l: Link)
    requires Submits(es)
    ensures LinkValid(client, l)
  {
    UnusedValid(client);
    LinkRunValid(client, UNUSED, es);
    LinkRun(client, UNUSED, es)
  }

  /** End to end, for every run of sends and partial writes. */
  lemma Delivery(client: bool, es: seq<TxEvent>, chunks: seq<Bytes>)
    requires Submits(es) && Flatten(chunks) <= Used(client, es).wire
    ensures var role := Role(!client, true);
            var l := Used(client, es);
            && Stable(Frames(role))
            && var r := Feed(Frames(role), FRESH, [], chunks);
            && r.verdict.Accepted?
            && Messages(r.out) <= Binaries(l.sent)
            && (Flatten(chunks) == l.wire && l.tx.frames == [] ==> Messages(r.out) == Binaries(l.sent))
  {
    DeliveryOf(client, Used(client, es), chunks);
  }

  // ---------------------------------------------------------------------- what frames received do to the sending half

  datatype Out = Out(tx: Tx, drawn: nat, pongs: seq<Bytes>)

  function Control(client: bool, masks: nat -> Mask, drawn: nat, opcode: Byte, p: Bytes): TxFrame
    requires opcode < 16
  {
    TxFrame(Printed(Frame(true, opcode, if client then Some(masks(drawn)) else None, p)), 0, |p|, opcode)
  }

  /** A ping is answered with a pong of the same payload, a pong remembered at the expense of the oldest, a close
      frame echoed if there is room. */
  function Answer(client: bool, masks: nat -> Mask, o: Out, e: Effect): Out {
    var next := if client then o.drawn + 1 else o.drawn;
    match e
    case Message(_) => o
    case PingSeen(p) => o.(tx := Queued(o.tx, Control(client, masks, o.drawn, PONG, p)), drawn := next)
    case PongSeen(p) => o.(pongs := (if |o.pongs| >= REMEMBERED_PONGS then o.pongs[1..] else o.pongs) + [p])
    case CloseSeen(p) =>
      if Fits(o.tx, PrintedSize(|p|, client)) then
        o.(tx := Queued(o.tx, Control(client, masks, o.drawn, CLOSE, p)), drawn := next)
      else o.(drawn := next)
  }

  function Answers(client: bool, masks: nat -> Mask, o: Out, es: seq<Effect>): Out {
    if es == [] then o else Answer(client, masks, Answers(client, masks, o, es[..|es| - 1]), es[|es| - 1])
  }

  function PingPayloads(es: seq<Effect>): seq<Bytes> {
    if es == [] then []
    else PingPayloads(es[..|es| - 1]) + (if es[|es| - 1].PingSeen? then [es[|es| - 1].payload] else [])
  }

  /** Behind the frames of o, the queue of r holds a pong for each of the pings, in order. */
  predicate Ponged(client: bool, masks: nat -> Mask, o: Out, pings: seq<Bytes>, r: Out) {
    var n := |o.tx.frames|;
    && |r.tx.frames| == n + |pings| && r.tx.frames[..n] == o.tx.frames
    && r.drawn == o.drawn + (if client then |pings| else 0)
    && forall k :: 0 <= k < |pings| ==>
         r.tx.frames[n + k] == Control(client, masks, o.drawn + (if client then k else 0), PONG, pings[k])
  }

  lemma AnswerPonged(client: bool, masks: nat -> Mask, o: Out, pings: seq<Bytes>, r: Out, e: Effect)
    requires Ponged(client, masks, o, pings, r) && !e.CloseSeen?
    ensures Ponged(client, masks, o, pings + (if e.PingSeen? then [e.payload] else []), Answer(client, masks, r, e))
  {
    hide Control;
    var next := Answer(client, masks, r, e);
    if e.PingSeen? {
      assert next.tx.frames == r.tx.frames + [Control(client, masks, r.drawn, PONG, e.payload)];
    } else {
      assert pings + [] == pings && next.tx.frames == r.tx.frames;
    }
  }

  /** Every ping is answered by a pong of the same payload, in order, with a mask of its own if the end is a client. */
  lemma {:induction false} PingsAnswered(client: bool, masks: nat -> Mask, o: Out, es: seq<Effect>)
    requires forall k :: 0 <= k < |es| ==> !es[k].CloseSeen?
    ensures Ponged(client, masks, o, PingPayloads(es), Answers(client, masks, o, es))
    decreases |es|
  {
    hide Control, Answer;
    if es == [] {
      assert o.tx.frames[..|o.tx.frames|] == o.tx.frames;
    } else {
      var front, last := es[..|es| - 1], es[|es| - 1];
      PingsAnswered(client, masks, o, front);
      AnswerPonged(client, masks, o, PingPayloads(front), Answers(client, masks, o, front), last);
    }
  }

  // ---------------------------------------------------------------------- pings and pongs as frames

  function PongPayloads(es: seq<Effect>): seq<Bytes> {
    if es == [] then []
    else PongPayloads(es[..|es| - 1]) + (if es[|es| - 1].PongSeen? then [es[|es| - 1].payload] else [])
  }

  /** The payloads of the frames with this opcode, in order. */
  function PayloadsOf(fs: seq<Frame>, opcode: Byte): seq<Bytes> {
    if fs == [] then [] else (if fs[0].opcode == opcode then [fs[0].payload] else []) + PayloadsOf(fs[1..], opcode)
  }

  /** The last n of a list, or all if there are fewer. */
  function LastOf(ps: seq<Bytes>, n: nat): seq<Bytes> {
    if |ps| <= n then ps else ps[|ps| - n..]
  }

  /** What was seen: these pings, these pongs, and no close frame. */
  ghost predicate Shows(es: seq<Effect>, pings: seq<Bytes>, pongs: seq<Bytes>) {
    PingPayloads(es) == pings && PongPayloads(es) == pongs && forall k :: 0 <= k < |es| ==> !es[k].CloseSeen?
  }

  lemma {:induction false} ShowsBoth(a: seq<Effect>, b: seq<Effect>, pings: seq<Bytes>, pongs: seq<Bytes>,
      morePings: seq<Bytes>, morePongs: seq<Bytes>)
    requires Shows(a, pings, pongs) && Shows(b, morePings, morePongs)
    ensures Shows(a + b, pings + morePings, pongs + morePongs)
    decreases |b|
  {
    if b == [] {
      assert a + b == a && pings + [] == pings && pongs + [] == pongs;
    } else {
      var front, last := b[..|b| - 1], b[|b| - 1];
      var ping := if last.PingSeen? then [last.payload] else [];
      var pong := if last.PongSeen? then [last.payload] else [];
      ShowsBoth(a, front, pings, pongs, PingPayloads(front), PongPayloads(front));
      assert (a + b)[..|a + b| - 1] == a + front && (a + b)[|a + b| - 1] == last;
      assert pings + (PingPayloads(front) + ping) == pings + PingPayloads(front) + ping;
      assert pongs + (PongPayloads(front) + pong) == pongs + PongPayloads(front) + pong;
    }
  }

  /** A ping frame is seen as a ping, a pong frame as a pong, and nothing else is. */
  lemma HandleShows(s: Rx, f: Frame)
    requires Handle(s, f).Take? && f.opcode != CLOSE
    ensures Shows(Handle(s, f).effects, PayloadsOf([f], PING), PayloadsOf([f], PONG))
  {
    var es := Handle(s, f).effects;
    assert [f][1..] == [];
    if es != [] {
      assert es[..0] == [];
    }
  }

  lemma {:induction false} PlayShows(s: Rx, fs: seq<Frame>)
    requires Play(Handling(), s, fs).Take? && forall k :: 0 <= k < |fs| ==> fs[k].opcode != CLOSE
    ensures Shows(Play(Handling(), s, fs).effects, PayloadsOf(fs, PING), PayloadsOf(fs, PONG))
    decreases |fs|
  {
    if fs != [] {
      var f, later := fs[0], fs[1..];
      var h := Handle(s, f);
      HandleShows(s, f);
      PlayShows(h.state, later);
      PayloadsFirst(fs, PING);
      PayloadsFirst(fs, PONG);
      hide Shows, Handle, PayloadsOf;
      ShowsBoth(h.effects, Play(Handling(), h.state, later).effects, PayloadsOf([f], PING), PayloadsOf([f], PONG),
        PayloadsOf(later, PING), PayloadsOf(later, PONG));
    }
  }

  lemma PayloadsFirst(fs: seq<Frame>, opcode: Byte)
    requires fs != []
    ensures PayloadsOf(fs, opcode) == PayloadsOf([fs[0]], opcode) + PayloadsOf(fs[1..], opcode)
  {
    assert [fs[0]][1..] == [];
  }

  lemma KeepLast(ps: seq<Bytes>, more: seq<Bytes>, p: Bytes, n: nat)
    requires n > 0
    ensures var kept := LastOf(ps + more, n);
            LastOf(ps + (more + [p]), n) == (if |kept| >= n then kept[1..] else kept) + [p]
  {
    assert ps + (more + [p]) == ps + more + [p];
  }

  /** Of the pongs received the last sixteen are remembered. */
  lemma {:induction false} PongsRemembered(client: bool, masks: nat -> Mask, o: Out, es: seq<Effect>)
    requires |o.pongs| <= REMEMBERED_PONGS
    ensures Answers(client, masks, o, es).pongs == LastOf(o.pongs + PongPayloads(es), REMEMBERED_PONGS)
    decreases |es|
  {
    if es == [] {
      assert o.pongs + [] == o.pongs;
    } else {
      var front, last := es[..|es| - 1], es[|es| - 1];
      PongsRemembered(client, masks, o, front);
      if last.PongSeen? {
        KeepLast(o.pongs, PongPayloads(front), last.payload, REMEMBERED_PONGS);
      } else {
        assert PongPayloads(front) + [] == PongPayloads(front);
      }
    }
  }

  /** Of the frames that arrive, each ping is answered by one pong frame of the same payload, in order, and by nothing
      else; each pong is remembered, the last sixteen of them, and answered by nothing. */
  lemma FramesAnswered(role: Role, masks: nat -> Mask, s: Rx, o: Out, fs: seq<Frame>)
    requires !s.closed && AllReadable(role, fs) && Play(Handling(), s, fs).Take? && |o.pongs| <= REMEMBERED_PONGS
    ensures Stable(Frames(role))
    ensures var d := Drain(Frames(role), s, Wire(fs));
            var r := Answers(role.client, masks, o, d.out);
            && d.verdict.Accepted? && d.rest == []
            && Ponged(role.client, masks, o, PayloadsOf(fs, PING), r)
            && r.pongs == LastOf(o.pongs + PayloadsOf(fs, PONG), 16)
  {
    FramesStable(role);
    ParserReads(role);
    DrainPlays(Frames(role), Handling(), role, s, fs);
    PlayShows(s, fs);
    var es := Play(Handling(), s, fs).effects;
    PingsAnswered(role.client, masks, o, es);
    PongsRemembered(role.client, masks, o, es);
  }

  /** The k-th thing received is a ping there is no room to answer. */
  predicate Overflows(client: bool, masks: nat -> Mask, o: Out, es: seq<Effect>, k: nat) {
    k < |es| && es[k].PingSeen? && !Fits(Answers(client, masks, o, es[..k]).tx, PrintedSize(|es[k].payload|, client))
  }

  /** A frame is accepted in a session that no close frame has ended exactly if it is a new message while none is under
      way, the next piece of the one that is, within the limit, a ping, a pong, or a close frame that is empty or
      begins with a status that may be sent. */
  lemma FrameAccepted(s: Rx, f: Frame)
    requires Sane(s)
    ensures Handle(s, f).Take? <==>
              || (f.opcode == BINARY && s.fragmentOpcode == 0)
              || (f.opcode == CONTINUATION && s.fragmentOpcode != 0 && |s.fragment| + |f.payload| <= MAX_MESSAGE)
              || f.opcode == PING || f.opcode == PONG
              || (f.opcode == CLOSE && (f.payload == [] || (|f.payload| >= 2 && StatusAllowed(Number(f.payload[..2])))))
  {
    if f.opcode == CLOSE && |f.payload| >= 2 {
      Number2(f.payload[..2]);
    }
  }

  /** The status codes a close frame may carry (section 7.4 of RFC 6455). */
  predicate StatusAllowed(code: nat) {
    code in {1000, 1001, 1002, 1003} || 1007 <= code <= 1014 || 3000 <= code < 5000
  }

  /** An accepted close frame ends the session, its status is kept, and it is echoed if there is room. */
  lemma CloseAnswered(client: bool, masks: nat -> Mask, s: Rx, o: Out, f: Frame)
    requires f.opcode == CLOSE && Handle(s, f).Take?
    ensures var h := Handle(s, f);
            var r := Answers(client, masks, o, h.effects);
            && h.state.closed && (|f.payload| >= 2 ==> h.state.closeCode == Some(Number(f.payload[..2])))
            && r.tx.frames == o.tx.frames + (if Fits(o.tx, PrintedSize(|f.payload|, client))
                                             then [Control(client, masks, o.drawn, CLOSE, f.payload)] else [])
            && r.pongs == o.pongs
  {
    var es := Handle(s, f).effects;
    assert es[..0] == [] && o.tx.frames + [] == o.tx.frames;
    if |f.payload| >= 2 {
      Number2(f.payload[..2]);
    }
  }

  // ---------------------------------------------------------------------- what a flush takes off the queue

  datatype WriteReply = Took(n: nat) | WouldBlock

  /** There is something to write, room in the budget, and the next write takes something. */
  predicate Writes(tx: Tx, replies: seq<WriteReply>, room: nat) {
    tx.frames != [] && room > 0 && replies != [] && replies[0].Took? && replies[0].n > 0
  }

  /** How much of it one write takes: of the front frame what is left, what the budget allows, or less. */
  function Piece(tx: Tx, n: nat, room: nat): nat
    requires TxValid(tx) && tx.frames != []
  {
    Min(n, Min(|tx.frames[0].data| - tx.frames[0].offset, room))
  }

  lemma PieceFits(tx: Tx, n: nat, room: nat)
    requires TxValid(tx) && tx.frames != [] && n > 0 && room > 0
    ensures 0 < Piece(tx, n, room) <= tx.queued && TxValid(Moved(tx, Piece(tx, n, room)))
    ensures Moved(tx, Piece(tx, n, room)).queued == tx.queued - Piece(tx, n, room)
  {
    FrontBounded(tx);
    MovedRest(tx, Piece(tx, n, room));
  }

  /** How many bytes leave the queue. */
  function Taken(tx: Tx, replies: seq<WriteReply>, room: nat): nat
    requires TxValid(tx)
    decreases |replies|
  {
    if !Writes(tx, replies, room) then 0
    else
      PieceFits(tx, replies[0].n, room);
      var n := Piece(tx, replies[0].n, room);
      n + Taken(Moved(tx, n), replies[1..], room - n)
  }

  /** How many writes that uses. */
  function UsedWrites(tx: Tx, replies: seq<WriteReply>, room: nat): (k: nat)
    requires TxValid(tx)
    ensures k <= |replies|
    decreases |replies|
  {
    if !Writes(tx, replies, room) then 0
    else
      PieceFits(tx, replies[0].n, room);
      var n := Piece(tx, replies[0].n, room);
      1 + UsedWrites(Moved(tx, n), replies[1..], room - n)
  }

  /** What these writes would take at most. */
  function Sum(replies: seq<WriteReply>): nat {
    if replies == [] then 0 else (if replies[0].Took? then replies[0].n else 0) + Sum(replies[1..])
  }

  /** The first k writes took n bytes, each at least one, and it was not stopped but by an empty queue, a spent budget
      or a write that takes nothing. */
  predicate WentAsFar(queued: nat, replies: seq<WriteReply>, room: nat, n: nat, k: nat) {
    && k <= |replies| && k <= n <= Min(room, queued) && n <= Sum(replies[..k])
    && (forall i :: 0 <= i < k ==> replies[i].Took? && replies[i].n > 0)
    && (n == Min(room, queued) || k == |replies| || replies[k] == WouldBlock || replies[k] == Took(0))
  }

  lemma OneFurther(queued: nat, replies: seq<WriteReply>, room: nat, piece: nat, n: nat, k: nat)
    requires replies != [] && replies[0].Took? && 0 < piece <= replies[0].n && piece <= room && piece <= queued
    requires WentAsFar(queued - piece, replies[1..], room - piece, n, k)
    ensures WentAsFar(queued, replies, room, n + piece, k + 1)
  {
    SumFirst(replies, k + 1);
    assert forall i :: 0 < i < |replies| ==> replies[i] == replies[1..][i - 1];
  }

  lemma NoneWritten(tx: Tx, replies: seq<WriteReply>, room: nat)
    requires TxValid(tx) && !Writes(tx, replies, room)
    ensures Taken(tx, replies, room) == 0 == UsedWrites(tx, replies, room)
    ensures WentAsFar(tx.queued, replies, room, 0, 0)
  {
    EmptyQueue(tx);
    hide TxValid;
  }

  lemma OneWritten(tx: Tx, replies: seq<WriteReply>, room: nat)
    requires TxValid(tx) && Writes(tx, replies, room)
    ensures var piece := Piece(tx, replies[0].n, room);
            && 0 < piece <= replies[0].n && piece <= room && piece <= tx.queued && TxValid(Moved(tx, piece))
            && Moved(tx, piece).queued == tx.queued - piece
            && Taken(tx, replies, room) == piece + Taken(Moved(tx, piece), replies[1..], room - piece)
            && UsedWrites(tx, replies, room) == 1 + UsedWrites(Moved(tx, piece), replies[1..], room - piece)
  {
    hide TxValid, Moved;
    PieceFits(tx, replies[0].n, room);
  }

  /** A flush goes on until the queue is empty, the budget is spent, or a write takes nothing. */
  lemma {:induction false} FlushMeaning(tx: Tx, replies: seq<WriteReply>, room: nat)
    requires TxValid(tx)
    ensures WentAsFar(tx.queued, replies, room, Taken(tx, replies, room), UsedWrites(tx, replies, room))
    decreases |replies|
  {
    hide WentAsFar, Moved, Taken, UsedWrites, Piece;
    if Writes(tx, replies, room) {
      OneWritten(tx, replies, room);
      hide TxValid;
      var piece := Piece(tx, replies[0].n, room);
      var next := Moved(tx, piece);
      FlushMeaning(next, replies[1..], room - piece);
      OneFurther(tx.queued, replies, room, piece, Taken(next, replies[1..], room - piece),
        UsedWrites(next, replies[1..], room - piece));
    } else {
      NoneWritten(tx, replies, room);
    }
  }

  lemma EmptyQueue(tx: Tx)
    requires TxValid(tx)
    ensures tx.frames == [] ==> tx.queued == 0
  {
  }

  lemma SumFirst(replies: seq<WriteReply>, k: nat)
    requires 0 < k <= |replies| && replies[0].Took?
    ensures Sum(replies[..k]) == replies[0].n + Sum(replies[1..][..k - 1])
  {
    assert replies[..k][1..] == replies[1..][..k - 1];
  }

  /** A socket that takes whatever it is offered empties the queue, as far as the budget goes, with a write for each
      frame. */
  lemma {:induction false} AllTaken(tx: Tx, replies: seq<WriteReply>, room: nat)
    requires TxValid(tx) && |replies| >= |tx.frames|
    requires forall i :: 0 <= i < |replies| ==> replies[i].Took? && replies[i].n >= MAX_TX
    ensures Taken(tx, replies, room) == Min(room, tx.queued)
    decreases |replies|
  {
    EmptyQueue(tx);
    if Writes(tx, replies, room) {
      var piece := Piece(tx, replies[0].n, room);
      PieceFits(tx, replies[0].n, room);
      FrontBounded(tx);
      if piece < room {
        AllTaken(Moved(tx, piece), replies[1..], room - piece);
      }
    }
  }

  lemma FlushBegins(tx: Tx, replies: seq<WriteReply>, room: nat)
    requires TxValid(tx)
    ensures WentOut(tx, tx, []) && replies[0..] == replies
  {
    MovedRest(tx, 0);
  }

  /** One write of the loop. */
  lemma FlushWrites(tx: Tx, replies: seq<WriteReply>, i: nat, room: nat)
    requires TxValid(tx) && tx.frames != [] && room > 0 && i < |replies| && replies[i].Took?
    ensures 0 < |tx.frames[0].data| - tx.frames[0].offset <= tx.queued
    ensures var n := Piece(tx, replies[i].n, room);
            if n == 0 then Taken(tx, replies[i..], room) == 0 == UsedWrites(tx, replies[i..], room) && replies[i].n == 0
            else
              && TxValid(Moved(tx, n))
              && Taken(tx, replies[i..], room) == n + Taken(Moved(tx, n), replies[i + 1..], room - n)
              && UsedWrites(tx, replies[i..], room) == 1 + UsedWrites(Moved(tx, n), replies[i + 1..], room - n)
  {
    FrontBounded(tx);
    assert replies[i..][0] == replies[i] && replies[i..][1..] == replies[i + 1..];
    if replies[i].n > 0 {
      PieceFits(tx, replies[i].n, room);
    }
  }

  /** The end of the loop. */
  lemma FlushStops(tx: Tx, replies: seq<WriteReply>, i: nat, room: nat)
    requires TxValid(tx) && i <= |replies|
    requires tx.frames == [] || room == 0 || i == |replies| || replies[i].WouldBlock?
    ensures Taken(tx, replies[i..], room) == 0 == UsedWrites(tx, replies[i..], room)
    ensures tx.frames == [] ==> tx.queued == 0
  {
    assert i < |replies| ==> replies[i..][0] == replies[i];
  }

  /** The write at which a flush fails: one that takes nothing although there is something to write and room for it. */
  predicate EmptyWrite(tx: Tx, replies: seq<WriteReply>, room: nat)
    requires TxValid(tx)
  {
    var n, k := Taken(tx, replies, room), UsedWrites(tx, replies, room);
    n < Min(room, tx.queued) && k < |replies| && replies[k] == Took(0)
  }

  // ---------------------------------------------------------------------- the class

  datatype Arrival = Data(bytes: Bytes) | Nothing | Eof | Broken

  /** How many pieces arrive before a pause, and their bytes. */
  function Lead(arrivals: seq<Arrival>): (k: nat)
    ensures k <= |arrivals|
  {
    if arrivals == [] || !arrivals[0].Data? then 0 else 1 + Lead(arrivals[1..])
  }

  function DataOf(arrivals: seq<Arrival>): Bytes {
    if arrivals == [] || !arrivals[0].Data? then [] else arrivals[0].bytes + DataOf(arrivals[1..])
  }

  /** A read that took so much comes to what is behind the pieces. */
  predicate Meets(arrivals: seq<Arrival>, received: Bytes, what: Arrival) {
    |received| < READ_TOTAL && Lead(arrivals) < |arrivals| && arrivals[Lead(arrivals)] == what
  }

  /** All that arrives before a pause, or the first 256 KiB of it and no more than a piece beyond. */
  predicate TakesAll(arrivals: seq<Arrival>, received: Bytes) {
    && received <= DataOf(arrivals) && (|received| < READ_TOTAL ==> received == DataOf(arrivals))
    && |received| < READ_TOTAL + READ_SIZE
  }

  /** What is still to come behind the first i pieces. */
  predicate Ahead(arrivals: seq<Arrival>, i: nat, received: Bytes) {
    && i <= |arrivals| && DataOf(arrivals) == received + DataOf(arrivals[i..])
    && Lead(arrivals) == i + Lead(arrivals[i..])
  }

  lemma PieceAhead(arrivals: seq<Arrival>, i: nat, received: Bytes)
    requires Ahead(arrivals, i, received) && i < |arrivals| && arrivals[i].Data?
    ensures Ahead(arrivals, i + 1, received + arrivals[i].bytes)
  {
    var rest := arrivals[i..];
    assert rest[0] == arrivals[i] && rest[1..] == arrivals[i + 1..];
    LongerWire(received, arrivals[i].bytes, DataOf(rest[1..]));
  }

  lemma AllAhead(arrivals: seq<Arrival>)
    ensures Ahead(arrivals, 0, [])
  {
    assert arrivals[0..] == arrivals;
  }

  lemma AheadPrefix(arrivals: seq<Arrival>, i: nat, received: Bytes)
    requires Ahead(arrivals, i, received)
    ensures received <= DataOf(arrivals)
  {
  }

  lemma NoneAhead(arrivals: seq<Arrival>, i: nat, received: Bytes)
    requires Ahead(arrivals, i, received) && (i < |arrivals| ==> !arrivals[i].Data?)
    ensures received == DataOf(arrivals) && Lead(arrivals) == i
  {
    var rest := arrivals[i..];
    assert i < |arrivals| ==> rest[0] == arrivals[i];
    assert received + [] == received;
  }

  class Session {
    const client: bool
    /** The frame parsers before and after the peer is authenticated. */
    const cautious: Parser
    const trusting: Parser
    var authenticated: bool
    var rx: Bytes
    var state: Rx
    var prefetched: seq<Bytes>
    var peerEof: bool
    var tx: Tx
    var pongs: seq<Bytes>
    /** The random masks: the n-th one drawn. */
    const masks: nat -> Mask
    var drawn: nat

    constructor (client: bool, masks: nat -> Mask)
      ensures this.client == client && this.masks == masks && Valid()
      ensures cautious == Frames(Role(client, false)) && trusting == Frames(Role(client, true))
      ensures !authenticated && rx == [] && state == FRESH && prefetched == [] && Sending() == Out(IDLE, 0, [])
    {
      FramesDependable(Role(client, false));
      FramesDependable(Role(client, true));
      this.client, this.masks := client, masks;
      cautious, trusting := Frames(Role(client, false)), Frames(Role(client, true));
      authenticated, rx, state, prefetched, peerEof := false, [], FRESH, [], false;
      tx, pongs, drawn := IDLE, [], 0;
    }

    function Reader(): Parser
      reads this
    {
      if authenticated then trusting else cautious
    }

    function Sending(): Out
      reads this
    {
      Out(tx, drawn, pongs)
    }

    ghost predicate SendingOk()
      reads this
    {
      TxValid(tx) && |pongs| <= REMEMBERED_PONGS
    }

    /** The queue is in order, and while no close frame has been seen less than one frame is waiting to be parsed. */
    ghost predicate Valid()
      reads this
    {
      SendingOk() && Dependable(cautious) && Dependable(trusting) && Sane(state)
        && (state.closed || |rx| < MAX_MESSAGE + 14)
    }

    method QueueFrame(opcode: Byte, p: Bytes) returns (r: Result<()>)
      requires SendingOk() && opcode < 16
      modifies this`tx, this`drawn
      ensures SendingOk()
      ensures r == match TooLong(opcode, |p|)
                   case Some(e) => Fail(e)
                   case None => if Fits(old(tx), PrintedSize(|p|, client)) then Ok(()) else Fail(TxLimit)
      ensures drawn == if client && TooLong(opcode, |p|).None? then old(drawn) + 1 else old(drawn)
      ensures tx == if r.Ok? then Queued(old(tx), Control(client, masks, old(drawn), opcode, p)) else old(tx)
    {
      var data := MakeFrame(client, opcode, p, masks(drawn));
      if data.Fail? {
        return Fail(data.error);
      }
      if client {
        drawn := drawn + 1;
      }
      if |data.value| > MAX_TX || tx.queued > MAX_TX - |data.value| {
        return Fail(TxLimit);
      }
      QueuedValid(tx, TxFrame(data.value, 0, |p|, opcode));
      tx := tx.(frames := tx.frames + [TxFrame(data.value, 0, |p|, opcode)], queued := tx.queued + |data.value|);
      r := Ok(());
    }

    /** The socket took n bytes of the front frame. */
    method Advance(n: nat) returns (piece: Bytes)
      requires TxValid(tx) && tx.frames != [] && 0 < n <= |tx.frames[0].data| - tx.frames[0].offset
      modifies this`tx
      ensures |piece| == n && WentOut(old(tx), tx, piece)
    {
      MovedRest(tx, n);
      var f := tx.frames[0];
      piece := f.data[f.offset..f.offset + n];
      assert Pending(tx.frames)[..n] == piece;
      assert Pending(tx.frames) == Pending(tx.frames)[..n] + Pending(tx.frames)[n..];
      if f.offset + n == |f.data| {
        tx := Finished(tx);
      } else {
        tx := tx.(frames := tx.frames[0 := f.(offset := f.offset + n)], queued := tx.queued - n);
      }
    }

    /** Writes queued frames until the socket takes no more, the budget is spent or nothing is left. `sent` is what
        the socket took. The source first drops a front frame that is already complete; the queue never holds one. */
    method Flush(budget: nat, replies: seq<WriteReply>) returns (r: Result<nat>, sent: Bytes)
      requires SendingOk()
      modifies this`tx
      ensures SendingOk()
      ensures |sent| == Taken(old(tx), replies, budget) && WentOut(old(tx), tx, sent)
      ensures r == if EmptyWrite(old(tx), replies, budget) then Fail(WriteFailed) else Ok(|sent|)
    {
      hide TxValid, Taken, UsedWrites, Moved, Pending;
      sent := [];
      var i := 0;
      ghost var begin := tx;
      FlushBegins(tx, replies, budget);
      while tx.frames != [] && |sent| < budget && i < |replies| && replies[i].Took?
        invariant i <= |replies| && |sent| <= budget && WentOut(begin, tx, sent)
        invariant Taken(begin, replies, budget) == |sent| + Taken(tx, replies[i..], budget - |sent|)
        invariant UsedWrites(begin, replies, budget) == i + UsedWrites(tx, replies[i..], budget - |sent|)
        decreases |replies| - i
      {
        var f := tx.frames[0];
        var n := Min(replies[i].n, Min(|f.data| - f.offset, budget - |sent|));
        FlushWrites(tx, replies, i, budget - |sent|);
        if n == 0 {
          return Fail(WriteFailed), sent;
        }
        ghost var middle := tx;
        var piece := Advance(n);
        WentOutTwice(begin, middle, tx, sent, piece);
        sent := sent + piece;
        i := i + 1;
      }
      FlushStops(tx, replies, i, budget - |sent|);
      r := Ok(|sent|);
    }

    method TakePongs() returns (out: seq<Bytes>)
      requires Valid()
      modifies this`pongs
      ensures Valid() && out == old(pongs) && pongs == []
    {
      out, pongs := pongs, [];
    }

    /** Takes what has arrived, as long as less than 256 KiB were read. The source refuses to buffer more than twice
        the largest message and 64 KiB; that limit is out of reach. */
    method Receive(arrivals: seq<Arrival>) returns (r: Result<()>, received: Bytes)
      requires Valid() && !state.closed
      requires forall k :: 0 <= k < |arrivals| && arrivals[k].Data? ==> 0 < |arrivals[k].bytes| <= READ_SIZE
      modifies this`rx, this`peerEof
      ensures rx == old(rx) + received && TakesAll(arrivals, received)
      ensures r == if Meets(arrivals, received, Broken) then Fail(ReadFailed) else Ok(())
      ensures peerEof == (old(peerEof) || Meets(arrivals, received, Eof))
    {
      hide Lead, DataOf, Ahead;
      received := [];
      var i := 0;
      AllAhead(arrivals);
      while |received| < READ_TOTAL && i < |arrivals| && arrivals[i].Data?
        invariant i <= |arrivals| && |received| < READ_TOTAL + READ_SIZE && rx == old(rx) + received
        invariant Ahead(arrivals, i, received) && peerEof == old(peerEof)
      {
        var bytes := arrivals[i].bytes;
        assert |rx| <= MAX_RX - |bytes|;
        PieceAhead(arrivals, i, received);
        rx, received := rx + bytes, received + bytes;
        i := i + 1;
      }
      AheadPrefix(arrivals, i, received);
      r := Ok(());
      if |received| < READ_TOTAL {
        NoneAhead(arrivals, i, received);
        if i < |arrivals| && arrivals[i].Eof? {
          peerEof := true;
        } else if i < |arrivals| && arrivals[i].Broken? {
          r := Fail(ReadFailed);
        }
      }
    }

    /** Applies what one frame brought. */
    method Apply(e: Effect) returns (r: Result<()>)
      requires SendingOk() && (!e.Message? ==> |e.payload| <= MAX_CONTROL)
      modifies this`tx, this`drawn, this`pongs
      ensures SendingOk()
      ensures r == if e.PingSeen? && !Fits(old(tx), PrintedSize(|e.payload|, client)) then Fail(TxLimit) else Ok(())
      ensures r.Ok? ==> Sending() == Answer(client, masks, old(Sending()), e)
    {
      r := Ok(());
      match e {
        case Message(_) =>
        case PingSeen(p) =>
          r := QueueFrame(PONG, p);
        case PongSeen(p) =>
          if |pongs| >= REMEMBERED_PONGS {
            pongs := pongs[1..];
          }
          pongs := pongs + [p];
        case CloseSeen(p) =>
          var _ := QueueFrame(CLOSE, p);
      }
    }

    /** What a parsing loop that has got as far as `used`, with these effects, has established. */
    ghost predicate Progress(front: Parser, start: Rx, begin: Out, used: nat, effects: seq<Effect>)
      reads this
      requires Stable(front)
    {
      Sane(state) && Standing(front, start, used, effects) && Answered(begin, effects)
    }

    ghost predicate Standing(front: Parser, start: Rx, used: nat, effects: seq<Effect>)
      reads this
      requires Stable(front)
    {
      Reached(front, start, rx, used, effects, state)
    }

    ghost predicate Answered(begin: Out, effects: seq<Effect>)
      reads this
    {
      SendingOk() && Sending() == Answers(client, masks, begin, effects)
    }

    /** How the loop may end. */
    ghost predicate Parsed(front: Parser, start: Rx, begin: Out, r: Result<seq<Bytes>>, used: nat)
      reads this
      requires Stable(front)
    {
      var d := Drain(front, start, rx);
      match r
      case Ok(messages) =>
        && d.verdict.Accepted? && messages == Messages(d.out) && (d.state.closed ==> messages != [])
        && state == d.state && Sending() == Answers(client, masks, begin, d.out)
        && used <= |rx| && rx[used..] == d.rest
      case Fail(e) =>
        || d.verdict == Refused(e)
        || (e == TxLimit && exists k: nat :: Overflows(client, masks, begin, d.out, k))
        || (e == CloseReceived && d.state.closed && Messages(d.out) == [])
    }

    /** Applies what a frame brought, if anything, and hands over its message. */
    method ApplyAny(ghost begin: Out, ghost effects: seq<Effect>, es: seq<Effect>, ghost all: seq<Effect>)
        returns (r: Result<seq<Bytes>>)
      requires es != [] ==> IsNext(effects, es[0], all)
      requires Answered(begin, effects) && |es| <= 1 && (es != [] && !es[0].Message? ==> |es[0].payload| <= MAX_CONTROL)
      modifies this`tx, this`drawn, this`pongs
      ensures SendingOk()
      ensures r.Fail? ==> r.error == TxLimit && Overflows(client, masks, begin, all, |effects|)
      ensures r.Ok? ==> Answered(begin, effects + es) && Messages(effects + es) == Messages(effects) + r.value
    {
      OneMessage(effects, es);
      if es == [] {
        return Ok([]);
      }
      AnswersSnoc(client, masks, begin, effects, es[0]);
      var applied := Apply(es[0]);
      if applied.Fail? {
        return Fail(applied.error);
      }
      r := Ok(if es[0].Message? then [es[0].bytes] else []);
    }

    /** One frame of the loop. */
    method ParseOne(ghost front: Parser, ghost start: Rx, ghost begin: Out, used: nat, ghost effects: seq<Effect>,
        es: seq<Effect>, next: Rx, size: nat)
      returns (r: Result<seq<Bytes>>)
      requires Stable(front) && Progress(front, start, begin, used, effects) && PointOk(front, state, rx[used..])
      requires front(state, rx[used..]) == Unit(es, next, size)
      modifies this`state, this`tx, this`drawn, this`pongs
      ensures r.Fail? ==> r.error == TxLimit && Overflows(client, masks, begin, Drain(front, start, rx).out, |effects|)
      ensures r.Ok? ==> state == next && Progress(front, start, begin, used + size, effects + es)
      ensures r.Ok? ==> Messages(effects + es) == Messages(effects) + r.value
      ensures SendingOk() && size > 0
    {
      DrainOne(front, state, start, rx, used, effects, es, next, size);
      state := next;
      r := ApplyAny(begin, effects, es, Drain(front, start, rx).out);
    }

    /** The loop ends where the front of the buffer is incomplete or refused. */
    lemma EndsHere(front: Parser, start: Rx, begin: Out, used: nat, out: seq<Bytes>, effects: seq<Effect>)
      requires Dependable(front) && Progress(front, start, begin, used, effects)
      requires out == Messages(effects) && (state.closed ==> out != [])
      ensures match front(state, rx[used..])
              case More => Parsed(front, start, begin, Ok(out), used)
              case Bad(why, _) => Parsed(front, start, begin, Fail(why), used)
              case Unit(_, _, _) => true
    {
      assert effects + [] == effects;
    }

    lemma OverflowEnds(front: Parser, start: Rx, begin: Out, used: nat, k: nat)
      requires Dependable(front) && Overflows(client, masks, begin, Drain(front, start, rx).out, k)
      ensures Parsed(front, start, begin, Fail(TxLimit), used)
    {
    }

    /** One pass of the loop: how the loop ends, or where it stands now. */
    method Iterate(front: Parser, ghost start: Rx, ghost begin: Out, used: nat, out: seq<Bytes>,
        ghost effects: seq<Effect>)
      returns (end: Option<Result<seq<Bytes>>>, used': nat, out': seq<Bytes>, ghost effects': seq<Effect>)
      requires Dependable(front) && Progress(front, start, begin, used, effects)
      requires out == Messages(effects) && (state.closed ==> out != [])
      modifies this`state, this`tx, this`drawn, this`pongs
      ensures SendingOk()
      ensures end.Some? ==> Parsed(front, start, begin, end.value, used')
      ensures end.None? ==>
                used < used' <= |rx| && Progress(front, start, begin, used', effects') && out' == Messages(effects')
    {
      hide Answers, Messages, Overflows, Drain, Parsed;
      used', out', effects', end := used, out, effects, None;
      EndsHere(front, start, begin, used, out, effects);
      match front(state, rx[used..]) {
        case More =>
          end := Some(Ok(out));
        case Bad(why, after) =>
          end := Some(Fail(why));
        case Unit(es, next, size) =>
          assert PointOk(front, state, rx[used..]);
          var one := ParseOne(front, start, begin, used, effects, es, next, size);
          if one.Fail? {
            OverflowEnds(front, start, begin, used, |effects|);
            end := Some(Fail(one.error));
          } else {
            used', effects', out' := used + size, effects + es, out + one.value;
          }
      }
    }

    /** Parses the complete frames in the buffer and applies them one by one, up to a close frame; one with no message
        before it is an error at once. */
    method Parse(front: Parser) returns (r: Result<seq<Bytes>>, used: nat)
      requires Dependable(front) && SendingOk() && Sane(state) && !state.closed
      modifies this`state, this`tx, this`drawn, this`pongs
      ensures SendingOk() && Parsed(front, old(state), old(Sending()), r, used)
    {
      ghost var start, begin := state, Sending();
      var out: seq<Bytes> := [];
      ghost var effects: seq<Effect> := [];
      var end: Option<Result<seq<Bytes>>> := None;
      used := 0;
      assert rx[0..] == rx;
      while end.None?
        invariant SendingOk()
        invariant end.None? ==>
                    && Progress(front, start, begin, used, effects)
                    && out == Messages(effects)
                    && (state.closed ==> out != [])
        invariant end.Some? ==> Parsed(front, start, begin, end.value, used)
        decreases end.None?, |rx| - used
      {
        end, used, out, effects := Iterate(front, start, begin, used, out, effects);
        if end.None? && state.closed && out == [] {
          assert PointOk(front, state, rx[used..]);
          assert effects + [] == effects;
          end := Some(Fail(CloseReceived));
        }
      }
      r := end.value;
    }

    /** What the end of the stream makes of a read: nothing may be cut off, and something must have come. */
    method CheckEof(messages: seq<Bytes>) returns (r: Result<seq<Bytes>>)
      ensures r == Ok(messages) || r in {Fail(TruncatedFrame), Fail(TruncatedMessage), Fail(PeerClosed)}
      ensures r.Fail? <==> peerEof && (rx != [] || state.fragmentOpcode != 0 || messages == [])
    {
      if peerEof && rx != [] {
        return Fail(TruncatedFrame);
      }
      if peerEof && state.fragmentOpcode != 0 {
        return Fail(TruncatedMessage);
      }
      if peerEof && messages == [] {
        return Fail(PeerClosed);
      }
      r := Ok(messages);
    }

    /** Why a read fails that the connection itself lets through: the stream is refused, there is no room to answer a
        ping, a close frame comes with no message before it, or the stream ends in the middle or with nothing. */
    ghost predicate ReadFails(front: Parser, s: Rx, buffer: Bytes, begin: Out, eof: bool, e: Error)
      reads this
      requires Stable(front)
    {
      var d := Drain(front, s, buffer);
      || d.verdict == Refused(e)
      || (e == TxLimit && exists k: nat :: Overflows(client, masks, begin, d.out, k))
      || (e == CloseReceived && d.state.closed && Messages(d.out) == [])
      || (d.verdict.Accepted? && eof && e in {TruncatedFrame, TruncatedMessage, PeerClosed}
          && (d.rest != [] || d.state.fragmentOpcode != 0 || Messages(d.out) == []))
    }

    /** Takes what has arrived and parses it. */
    method ReadFresh(front: Parser, arrivals: seq<Arrival>) returns (r: Result<seq<Bytes>>, received: Bytes)
      requires Valid() && Dependable(front) && !state.closed
      requires forall k :: 0 <= k < |arrivals| && arrivals[k].Data? ==> 0 < |arrivals[k].bytes| <= READ_SIZE
      modifies this`rx, this`peerEof, this`state, this`tx, this`drawn, this`pongs
      ensures r.Ok? ==> Valid()
      ensures r.Fail? ==> r.error != RxLimit && r.error != UnsupportedFragments
      ensures r.Ok? ==>
                var d := Drain(front, old(state), old(rx) + received);
                && d.verdict.Accepted? && r.value == Messages(d.out)
                && rx == d.rest && state == d.state && Sending() == Answers(client, masks, old(Sending()), d.out)
      ensures TakesAll(arrivals, received) && peerEof == (old(peerEof) || Meets(arrivals, received, Eof))
      ensures r.Fail? ==>
                if Meets(arrivals, received, Broken) then r.error == ReadFailed
                else ReadFails(front, old(state), old(rx) + received, old(Sending()), peerEof, r.error)
    {
      hide TakesAll, Meets;
      var got;
      got, received := Receive(arrivals);
      if got.Fail? {
        return Fail(got.error), received;
      }
      DrainDependable(front, state, rx);
      var messages, used := Parse(front);
      if messages.Fail? {
        return messages, received;
      }
      rx := rx[used..];
      r := CheckEof(messages.value);
    }

    /** Reads whole messages. `idle` is whether the socket has nothing at all. */
    method ReadMessages(idle: bool, arrivals: seq<Arrival>) returns (r: Result<seq<Bytes>>, received: Bytes)
      requires Valid()
      requires forall k :: 0 <= k < |arrivals| && arrivals[k].Data? ==> 0 < |arrivals[k].bytes| <= READ_SIZE
      modifies this
      ensures r.Ok? ==> Valid()
      ensures Stable(Reader()) && authenticated == old(authenticated)
      ensures r.Fail? ==> r.error != RxLimit && r.error != UnsupportedFragments
      ensures old(prefetched) != [] ==>
                r == Ok(old(prefetched)) && prefetched == [] && received == [] && rx == old(rx) && state == old(state)
                  && Sending() == old(Sending())
      ensures old(prefetched) == [] && old(state).closed ==> r == Fail(CloseReceived)
      ensures old(prefetched) == [] && r.Ok? ==>
                var d := Drain(Reader(), old(state), old(rx) + received);
                && prefetched == [] && d.verdict.Accepted? && r.value == Messages(d.out)
                && rx == d.rest && state == d.state && Sending() == Answers(client, masks, old(Sending()), d.out)
      ensures old(prefetched) == [] && r.Ok? && !(old(rx) == [] && idle) ==> TakesAll(arrivals, received)
      ensures old(prefetched) == [] && r.Fail? ==>
                || (old(state).closed && r.error == CloseReceived)
                || (old(peerEof) && old(rx) == [] && r.error == PeerClosed)
                || (Meets(arrivals, received, Broken) && r.error == ReadFailed)
                || ReadFails(Reader(), old(state), old(rx) + received, old(Sending()), peerEof, r.error)
    {
      hide TakesAll, Meets, ReadFails;
      received := [];
      if prefetched != [] {
        var messages := prefetched;
        prefetched := [];
        return Ok(messages), received;
      }
      if state.closed {
        return Fail(CloseReceived), received;
      }
      if peerEof && rx == [] {
        return Fail(PeerClosed), received;
      }
      if rx == [] && idle {
        assert rx + received == rx;
        return Ok([]), received;
      }
      r, received := ReadFresh(Reader(), arrivals);
    }
  }

  /** Reading the buffer from `start` comes down to these effects for the bytes used, and going on from s. */
  ghost predicate Reached(front: Parser, start: Rx, buffer: Bytes, used: nat, effects: seq<Effect>, s: Rx)
    requires Stable(front)
  {
    used <= |buffer| &&
    var d := Drain(front, s, buffer[used..]);
    Drain(front, start, buffer) == d.(out := effects + d.out)
  }

  /** Of all effects, these come first, then this one. */
  predicate IsNext(effects: seq<Effect>, e: Effect, all: seq<Effect>) {
    |effects| < |all| && all[..|effects|] == effects && all[|effects|] == e
  }

  /** One more unit off the buffer. */
  lemma DrainOne(front: Parser, s: Rx, start: Rx, buffer: Bytes, used: nat, effects: seq<Effect>, es: seq<Effect>,
      next: Rx, size: nat)
    requires Stable(front) && Reached(front, start, buffer, used, effects, s)
    requires front(s, buffer[used..]) == Unit(es, next, size) && |es| <= 1
    ensures Reached(front, start, buffer, used + size, effects + es, next) && size > 0
    ensures es != [] ==> IsNext(effects, es[0], Drain(front, start, buffer).out)
  {
    assert buffer[used..][size..] == buffer[used + size..];
    var d := Drain(front, next, buffer[used + size..]);
    assert effects + (es + d.out) == effects + es + d.out;
    if es != [] {
      assert (effects + es + d.out)[..|effects|] == effects;
      assert (effects + es + d.out)[|effects|] == es[0];
    }
  }

  lemma OneMessage(effects: seq<Effect>, es: seq<Effect>)
    requires |es| <= 1
    ensures Messages(effects + es) == Messages(effects) + (if es != [] && es[0].Message? then [es[0].bytes] else [])
    ensures es == [] ==> effects + es == effects
    ensures es != [] ==> effects + es == effects + [es[0]]
  {
    MessagesAppend(effects, es);
    if es != [] {
      assert es[1..] == [];
    }
  }

  lemma AnswersSnoc(client: bool, masks: nat -> Mask, o: Out, effects: seq<Effect>, e: Effect)
    ensures Answers(client, masks, o, effects + [e]) == Answer(client, masks, Answers(client, masks, o, effects), e)
  {
    assert (effects + [e])[..|effects + [e]| - 1] == effects;
  }
}
