/** What the record layer promises: round trips, exact sequence accounting, distinct nonces, and
    independence of how the stream was cut. */
module RecordTheorems {
  import opened Bytes
  import opened Incremental
  import opened RecordCodec

  // ---------------------------------------------------------------------- round trips

  /** The sequence number is one a decoder in state c has not gone past. */
  predicate Fresh(c: Counters, number: nat) {
    c.haveSeq ==> number > c.highest
  }

  /** What the decoder makes of a sealed record that arrives whole, whatever follows it: it is accepted
      if and only if it fits the buffer and the plaintext is well formed for its flags. */
  lemma SealedRoundTrip(g: Config, number: nat, payload: Bytes, flags: Byte, c: Counters, more: Bytes)
    requires Sound(g.crypto) && number < TWO_64 && Fresh(c, number)
    requires SealedRecord(g.crypto, g.wire, g.key, number, payload, flags).Ok?
    ensures var r := SealedRecord(g.crypto, g.wire, g.key, number, payload, flags).value;
            && |r| == HEADER + |payload| + TAG
            && Sealed(g)(c, r + more) ==
               if |r| > g.max then Bad(RecordTooLarge, c)
               else match Unwrap(flags, number, payload)
                 case Ok(d) => Unit([d], Accept(c, number), |r|)
                 case Fail(e) => Bad(e, Accept(c, number))
  {
    var h := Header(Magic(g.wire), flags, |payload|, number);
    var nonce := Nonce(g.crypto, g.key, number, g.wire);
    var text := g.crypto.seal(g.key, nonce, h, payload);
    HeaderFields(Magic(g.wire), flags, |payload|, number, text + more);
    Slices(h, text, more);
    assert g.crypto.open(g.key, nonce, h, text) == Some(payload);
    OpenedRecord(g, number, payload, flags, c, h + (text + more));
  }

  lemma Slices(h: Bytes, text: Bytes, more: Bytes)
    ensures h + text + more == h + (text + more)
    ensures (h + (text + more))[|h|..|h| + |text|] == text
  {
  }

  /** A buffer that starts with a record whose seal opens to the payload. */
  lemma OpenedRecord(g: Config, number: nat, payload: Bytes, flags: Byte, c: Counters, b: Bytes)
    requires |b| >= HEADER + |payload| + TAG && b[..5] == Magic(g.wire) && b[5] == flags
    requires 256 * (b[6] as int) + b[7] == |payload| && Number(b[8..16]) == number > 0 && Fresh(c, number)
    requires ShapeProblem(flags, |payload|, g.wire).None?
    requires g.crypto.open(g.key, Nonce(g.crypto, g.key, number, g.wire), b[..HEADER],
             b[HEADER..HEADER + |payload| + TAG]) == Some(payload)
    ensures Sealed(g)(c, b) ==
            if HEADER + |payload| + TAG > g.max then Bad(RecordTooLarge, c)
            else match Unwrap(flags, number, payload)
              case Ok(d) => Unit([d], Accept(c, number), HEADER + |payload| + TAG)
              case Fail(e) => Bad(e, Accept(c, number))
  {
  }

  lemma HeaderFields(magic: Bytes, flags: Byte, len: nat, number: nat, more: Bytes)
    requires |magic| == 5 && len < TWO_16 && number < TWO_64
    ensures var b := Header(magic, flags, len, number) + more;
            && b[..5] == magic && b[5] == flags
            && 256 * (b[6] as int) + b[7] == len
            && Number(b[8..16]) == number
            && b[..HEADER] == Header(magic, flags, len, number)
  {
    var b := Header(magic, flags, len, number) + more;
    assert b[6..8] == BigEndian(2, len) && b[8..16] == BigEndian(8, number);
    FieldRoundTrip(len);
    FieldRoundTrip(number);
    Number2(b[6..8]);
  }

  /** The three ways a record is encoded, with the random padding drawn. */
  datatype Form =
    | Plain(flags: Byte)
    | WithPadding(maximum: int, pad: Bytes)
    | InEnvelope(flags: Byte, maximum: int, pad: Bytes)

  function Encode(a: Crypto, key: Bytes, number: nat, payload: Bytes, form: Form): Result<Bytes> {
    match form
    case Plain(flags) => SealedRecord(a, PTT5, key, number, payload, flags)
    case WithPadding(maximum, pad) => PaddedRecord(a, key, number, payload, maximum, pad)
    case InEnvelope(flags, maximum, pad) => EnvelopeRecord(a, key, number, payload, flags, maximum, pad)
  }

  function FormFlags(form: Form): Byte {
    if form.WithPadding? then 0 else form.flags
  }

  /** The generator draws no more padding than asked for, and the callers leave the two wrapping flags
      to the encoders that produce them. */
  predicate Drawn(form: Form) {
    match form
    case Plain(flags) => flags != PADDED && flags != ENVELOPE
    case WithPadding(maximum, pad) => |pad| <= maximum
    case InEnvelope(_, maximum, pad) => |pad| <= maximum
  }

  lemma UnwrapWrapped(number: nat, payload: Bytes, flags: Byte, pad: Bytes)
    requires |payload| < TWO_16 && |pad| <= MAX_PADDING
    ensures Control(flags) && ShapeProblem(flags, |payload|, PTT5).None? ==>
              Unwrap(ENVELOPE, number, [flags] + BigEndian(2, |payload|) + payload + pad)
                == Ok(Delivered(flags, number, payload))
    ensures |payload| >= 20 ==>
              Unwrap(PADDED, number, BigEndian(2, |payload|) + payload + pad) == Ok(Delivered(0, number, payload))
  {
    FieldRoundTrip(|payload|);
    Number2(BigEndian(2, |payload|));
    var e := [flags] + BigEndian(2, |payload|) + payload + pad;
    assert e[1] == BigEndian(2, |payload|)[0] && e[2] == BigEndian(2, |payload|)[1];
    assert e[3..3 + |payload|] == payload;
    var p := BigEndian(2, |payload|) + payload + pad;
    assert p[0] == BigEndian(2, |payload|)[0] && p[1] == BigEndian(2, |payload|)[1];
    assert p[2..2 + |payload|] == payload;
  }

  /** Round trip: every record the encoders produce, in any form and with any padding, is decoded to its
      own flags, number and payload if it fits the decoder's buffer, and is refused otherwise. */
  lemma RoundTrip(g: Config, number: nat, payload: Bytes, form: Form, c: Counters, more: Bytes)
    requires Sound(g.crypto) && g.wire.PTT5? && number < TWO_64 && Fresh(c, number) && Drawn(form)
    requires Encode(g.crypto, g.key, number, payload, form).Ok?
    ensures var r := Encode(g.crypto, g.key, number, payload, form).value;
            Sealed(g)(c, r + more) ==
              if |r| <= g.max then Unit([Delivered(FormFlags(form), number, payload)], Accept(c, number), |r|)
              else Bad(RecordTooLarge, c)
  {
    match form
    case Plain(flags) =>
      SealedRoundTrip(g, number, payload, flags, c, more);
    case WithPadding(maximum, pad) =>
      if maximum == 0 {
        SealedRoundTrip(g, number, payload, 0, c, more);
      } else {
        UnwrapWrapped(number, payload, 0, pad);
        SealedRoundTrip(g, number, BigEndian(2, |payload|) + payload + pad, PADDED, c, more);
      }
    case InEnvelope(flags, maximum, pad) =>
      UnwrapWrapped(number, payload, flags, pad);
      SealedRoundTrip(g, number, [flags] + BigEndian(2, |payload|) + payload + pad, ENVELOPE, c, more);
  }

  /** The length of a record, and so the padding an observer of lengths sees. */
  lemma EncodedLength(a: Crypto, key: Bytes, number: nat, payload: Bytes, form: Form)
    requires Sound(a) && Drawn(form) && Encode(a, key, number, payload, form).Ok?
    ensures var extra := |Encode(a, key, number, payload, form).value| - 32 - |payload|;
            match form
            case Plain(_) => extra == 0
            case WithPadding(maximum, pad) => extra == if maximum == 0 then 0 else 2 + |pad|
            case InEnvelope(_, _, pad) => extra == 3 + |pad|
  {
  }

  /** The encoders accept exactly what the decoder's own length rules allow. */
  lemma EncoderShape(a: Crypto, key: Bytes, number: nat, payload: Bytes, form: Form)
    requires |key| == 32 && number > 0 && Drawn(form)
    ensures Encode(a, key, number, payload, form).Ok? <==>
              match form
              case Plain(flags) =>
                && |payload| <= MAX_PAYLOAD
                && (flags == 0 ==> |payload| >= 20)
                && (flags == KEEPALIVE || flags == DRAIN ==> |payload| == 0)
                && (flags == PING || flags == PONG ==> |payload| == 8)
                && flags in {0, KEEPALIVE, PING, PONG, DRAIN}
              case WithPadding(maximum, _) =>
                0 <= maximum <= MAX_PADDING && 20 <= |payload|
                  && |payload| + (if maximum == 0 then 0 else 2 + maximum) <= MAX_PAYLOAD
              case InEnvelope(flags, maximum, _) =>
                && 0 <= maximum <= MAX_PADDING && |payload| + 3 + maximum <= MAX_PAYLOAD
                && flags in {0, KEEPALIVE, PING, PONG}
                && (flags == 0 ==> |payload| >= 20)
                && (flags == KEEPALIVE ==> |payload| == 0)
                && (flags == PING || flags == PONG ==> |payload| == 8)
  {
  }

  /** The PTT3 record decodes to itself. Unlike the sealed encoders, this one checks no lengths, so
      a record whose length its flags do not allow is produced and then refused. */
  lemma MacRoundTrip(g: MacConfig, number: nat, payload: Bytes, flags: Byte, c: Counters, more: Bytes)
    requires Sound(g.crypto) && number < TWO_64 && Fresh(c, number) && |payload| <= MAX_PAYLOAD
    ensures MacRecord(g.crypto, g.key, number, payload, flags).Ok?
    ensures var r := MacRecord(g.crypto, g.key, number, payload, flags).value;
            && |r| == HEADER + |payload| + TAG
            && Mac(g)(c, r + more) ==
               if MacShapeProblem(flags, |payload|).Some? then Bad(BadShape(MacShapeProblem(flags, |payload|).value), c)
               else if |r| > g.max then Bad(RecordTooLarge, c)
               else Unit([Delivered(flags, number, payload)], Accept(c, number), |r|)
  {
    var h := Header(MAGIC3, flags, |payload|, number);
    var tag := Take16(g.crypto.mac(g.key, h + payload));
    HeaderFields(MAGIC3, flags, |payload|, number, payload + tag + more);
    var b := h + payload + tag + more;
    assert b == h + (payload + tag + more);
    assert b[..4] == b[..5][..4];
    assert b[..HEADER + |payload|] == h + payload;
    assert b[HEADER + |payload|..HEADER + |payload| + TAG] == tag;
    assert b[HEADER..HEADER + |payload|] == payload;
  }

  /** Under one key no two sequence numbers share a nonce. */
  lemma NoncesDistinct(a: Crypto, key: Bytes, wire: Wire, m: nat, n: nat)
    requires m < TWO_64 && n < TWO_64 && Nonce(a, key, m, wire) == Nonce(a, key, n, wire)
    ensures m == n
  {
    var head := Take4(a.mac(key, NonceLabel(wire)));
    assert Nonce(a, key, m, wire)[|head|..] == BigEndian(8, m);
    assert Nonce(a, key, n, wire)[|head|..] == BigEndian(8, n);
    FieldRoundTrip(m);
    FieldRoundTrip(n);
  }

  // ---------------------------------------------------------------------- chunk independence

  /** A life of one decoder: the chunks arrive one after another until one is refused, be it for want
      of room in the buffer. */
  ghost function Session(front: (Counters, Bytes) -> Front<Counters, Delivered, Error>, max: nat, c: Counters,
      buffer: Bytes, chunks: seq<Bytes>): Outcome<Counters, Delivered, Error>
    requires Stable(front)
    decreases |chunks|
  {
    if chunks == [] then Outcome([], Accepted, c, buffer)
    else if |buffer| + |chunks[0]| > max then Outcome([], Refused(BufferLimit), c, buffer)
    else
      var first := Drain(front, c, buffer + chunks[0]);
      if first.verdict.Refused? then first else
        var r := Session(front, max, first.state, first.rest, chunks[1..]);
        r.(out := first.out + r.out)
  }

  /** Either some chunk found no room, and then what came out before is a prefix of what the stream
      holds, or the outcome is that of decoding the stream whole: cutting makes no difference. */
  lemma {:induction false} SessionOrNoRoom(front: (Counters, Bytes) -> Front<Counters, Delivered, Error>, max: nat,
      c: Counters, buffer: Bytes, chunks: seq<Bytes>)
    requires Stable(front) && front(c, buffer).More?
    ensures var r := Session(front, max, c, buffer, chunks);
            var whole := Drain(front, c, buffer + Flatten(chunks));
            if r.verdict == Refused(BufferLimit) then r.out <= whole.out else SameOutcome(r, whole)
    ensures |buffer| + |Flatten(chunks)| <= max ==>
              SameOutcome(Session(front, max, c, buffer, chunks), Drain(front, c, buffer + Flatten(chunks)))
    decreases |chunks|
  {
    if chunks == [] {
      assert buffer + Flatten(chunks) == buffer;
    } else if |buffer| + |chunks[0]| <= max {
      var b := buffer + chunks[0];
      var later := Flatten(chunks[1..]);
      var first := Drain(front, c, b);
      assert buffer + Flatten(chunks) == b + later;
      DrainResumes(front, c, b, later);
      if first.verdict.Accepted? {
        LeftoverIncomplete(front, c, b);
        RestIsShorter(front, c, b);
        SessionOrNoRoom(front, max, first.state, first.rest, chunks[1..]);
      }
    }
  }

  lemma {:induction false} RestIsShorter(front: (Counters, Bytes) -> Front<Counters, Delivered, Error>, c: Counters,
      b: Bytes)
    requires Stable(front)
    ensures |Drain(front, c, b).rest| <= |b|
    decreases |b|
  {
    match front(c, b)
    case More =>
    case Bad(_, _) =>
    case Unit(_, next, size) => RestIsShorter(front, next, b[size..]);
  }

  /** What a decoder keeps after a success is less than a record: fewer bytes than a header has, whatever they are,
      or the header of an acceptable record with too few bytes behind it. */
  lemma LeftoverIsPartialRecord(g: Config, c: Counters, b: Bytes)
    requires Stable(Sealed(g)) && Drain(Sealed(g), c, b).verdict.Accepted?
    ensures var rest := Drain(Sealed(g), c, b).rest;
            || |rest| < HEADER
            || (var len := 256 * (rest[6] as int) + rest[7];
                rest[..5] == Magic(g.wire) && ShapeProblem(rest[5], len, g.wire).None?
                  && |rest| < HEADER + len + TAG <= g.max)
  {
    LeftoverIncomplete(Sealed(g), c, b);
    var r := Drain(Sealed(g), c, b);
    assert Sealed(g)(r.state, r.rest) == FrontSealed(g, r.state, r.rest);
  }

  // ---------------------------------------------------------------------- sequence accounting

  /** The only things the decoding loop does to its counters. */
  ghost predicate SequencedAt(front: (Counters, Bytes) -> Front<Counters, Delivered, Error>, c: Counters, b: Bytes) {
    match front(c, b)
    case More => true
    case Unit(out, next, _) =>
      |out| == 1 && Fresh(c, out[0].number) && out[0].number < TWO_64 && next == Accept(c, out[0].number)
    case Bad(why, after) =>
      || (after == c && why != Replay)
      || (after == c.(replays := Add64(c.replays, 1)) && why == Replay)
      || (exists n: nat :: Fresh(c, n) && n < TWO_64 && after == Accept(c, n) && why != Replay)
  }

  ghost predicate Sequenced(front: (Counters, Bytes) -> Front<Counters, Delivered, Error>) {
    forall c, b :: SequencedAt(front, c, b)
  }

  lemma DecodersSequenced(g: Config, m: MacConfig)
    ensures Sequenced(Sealed(g)) && Sequenced(Mac(m))
  {
    forall c, b
      ensures SequencedAt(Sealed(g), c, b) && SequencedAt(Mac(m), c, b)
    {
      SealedSequenced(g, c, b);
      MacSequenced(m, c, b);
    }
  }

  lemma SealedSequenced(g: Config, c: Counters, b: Bytes)
    ensures SequencedAt(Sealed(g), c, b)
  {
    if |b| >= HEADER {
      NumberBounded(b[8..16]);
      Span8();
    }
  }

  lemma MacSequenced(m: MacConfig, c: Counters, b: Bytes)
    ensures SequencedAt(Mac(m), c, b)
  {
    if |b| >= HEADER {
      NumberBounded(b[8..16]);
      Span8();
    }
  }

  /** The accounting identity: what lies between the first and the highest accepted number is either
      accepted or counted as a gap, exactly and without wrapping around. */
  predicate Accounted(c: Counters, first: nat, accepted: nat) {
    if c.haveSeq then
      first <= c.highest < TWO_64 && accepted >= 1 && c.highest - first == (accepted - 1) + c.gaps
    else
      accepted == 0 && c.gaps == 0
  }

  lemma AcceptAccounts(c: Counters, first: nat, accepted: nat, number: nat)
    requires Accounted(c, first, accepted) && Fresh(c, number) && number < TWO_64
    ensures Accounted(Accept(c, number), if c.haveSeq then first else number, accepted + 1)
    ensures Accept(c, number).gaps == c.gaps + (if c.haveSeq then number - c.highest - 1 else 0)
  {
  }

  predicate StrictlyIncreasing(out: seq<Delivered>) {
    forall i, j :: 0 <= i < j < |out| ==> out[i].number < out[j].number
  }

  /** What a drain from state c, with `accepted` records behind it of which `first` came first, leaves on
      the books: the delivered numbers strictly increase and go beyond all accepted before, and the
      identity is kept. A record whose seal is good but whose wrapping is not counts as accepted
      though it is not delivered; it is refused, so there is at most one. */
  ghost predicate Books(c: Counters, r: Outcome<Counters, Delivered, Error>, first: nat, accepted: nat,
      undelivered: nat) {
    && undelivered <= (if r.verdict.Accepted? then 0 else 1)
    && StrictlyIncreasing(r.out)
    && (r.out != [] ==> Fresh(c, r.out[0].number) && r.state.haveSeq && r.out[|r.out| - 1].number <= r.state.highest)
    && (c.haveSeq ==> r.state.haveSeq && r.state.highest >= c.highest)
    && Accounted(r.state, if c.haveSeq then first else if r.out != [] then r.out[0].number else r.state.highest,
                 accepted + |r.out| + undelivered)
    && r.state.replays == (if r.verdict == Refused(Replay) then Add64(c.replays, 1) else c.replays)
  }

  lemma BooksPrepend(c: Counters, d: Delivered, r: Outcome<Counters, Delivered, Error>, first: nat, accepted: nat,
      undelivered: nat)
    requires Accounted(c, first, accepted) && Fresh(c, d.number) && d.number < TWO_64
    requires Books(Accept(c, d.number), r, if c.haveSeq then first else d.number, accepted + 1, undelivered)
    ensures Books(c, r.(out := [d] + r.out), first, accepted, undelivered)
  {
    var out := [d] + r.out;
    forall i, j | 0 <= i < j < |out|
      ensures out[i].number < out[j].number
    {
      if i == 0 && j > 1 {
        assert r.out[0].number < r.out[j - 1].number;
      }
    }
    if r.out != [] {
      assert out[|out| - 1] == r.out[|r.out| - 1];
    }
  }

  lemma BooksRefused(front: (Counters, Bytes) -> Front<Counters, Delivered, Error>, c: Counters, b: Bytes, first: nat,
      accepted: nat)
    returns (undelivered: nat)
    requires Accounted(c, first, accepted) && SequencedAt(front, c, b) && front(c, b).Bad?
    ensures var r := front(c, b); Books(c, Outcome([], Refused(r.why), r.after, b), first, accepted, undelivered)
  {
    var Bad(why, after) := front(c, b);
    if after == c || after == c.(replays := Add64(c.replays, 1)) {
      undelivered := 0;
    } else {
      var n: nat :| Fresh(c, n) && n < TWO_64 && after == Accept(c, n) && why != Replay;
      AcceptAccounts(c, first, accepted, n);
      undelivered := 1;
    }
  }

  /** For every byte stream, honest or not, the books balance. */
  lemma {:induction false} DrainAccounts(front: (Counters, Bytes) -> Front<Counters, Delivered, Error>, c: Counters,
      b: Bytes, first: nat, accepted: nat)
    returns (undelivered: nat)
    requires Stable(front) && Sequenced(front) && Accounted(c, first, accepted)
    ensures Books(c, Drain(front, c, b), first, accepted, undelivered)
    decreases |b|
  {
    assert SequencedAt(front, c, b);
    hide Stable, Sequenced;
    match front(c, b)
    case More =>
      undelivered := 0;
    case Bad(why, after) => undelivered := BooksRefused(front, c, b, first, accepted);
    case Unit(out, next, size) =>
      var n := out[0].number;
      AcceptAccounts(c, first, accepted, n);
      undelivered := DrainAccounts(front, next, b[size..], if c.haveSeq then first else n, accepted + 1);
      hide Books, Accounted, Fresh, Accept;
      assert out == [out[0]];
      var r := Drain(front, next, b[size..]);
      BooksPrepend(c, out[0], r, first, accepted, undelivered);
  }

  // ---------------------------------------------------------------------- the stream of an honest sender

  /** A record on the wire together with what it stands for. */
  datatype Sent = Sent(bytes: Bytes, out: Delivered)

  /** The decoder takes the record for what it is whenever its number is fresh. */
  ghost predicate Faithful(front: (Counters, Bytes) -> Front<Counters, Delivered, Error>, r: Sent) {
    forall c, more :: Fresh(c, r.out.number) ==>
      front(c, r.bytes + more) == Unit([r.out], Accept(c, r.out.number), |r.bytes|)
  }

  function Wire(rs: seq<Sent>): Bytes {
    if rs == [] then [] else rs[0].bytes + Wire(rs[1..])
  }

  function Outs(rs: seq<Sent>): seq<Delivered> {
    seq(|rs|, i requires 0 <= i < |rs| => rs[i].out)
  }

  lemma {:induction false} WireAppend(a: seq<Sent>, b: seq<Sent>)
    ensures Wire(a + b) == Wire(a) + Wire(b)
  {
    if a == [] {
      assert a + b == b;
    } else {
      assert (a + b)[1..] == a[1..] + b;
      WireAppend(a[1..], b);
    }
  }

  ghost predicate Honest(front: (Counters, Bytes) -> Front<Counters, Delivered, Error>, rs: seq<Sent>) {
    && (forall r <- rs :: Faithful(front, r))
    && StrictlyIncreasing(Outs(rs))
  }

  /** An honest stream is accepted to the last record. */
  lemma {:induction false} HonestStream(front: (Counters, Bytes) -> Front<Counters, Delivered, Error>, c: Counters,
      rs: seq<Sent>)
    requires Stable(front) && Honest(front, rs)
    requires rs != [] ==> Fresh(c, rs[0].out.number)
    ensures var r := Drain(front, c, Wire(rs));
            r.out == Outs(rs) && r.verdict.Accepted? && r.rest == []
    decreases |rs|
  {
    if rs != [] {
      var n := rs[0].out.number;
      assert Faithful(front, rs[0]);
      assert front(c, Wire(rs)) == Unit([rs[0].out], Accept(c, n), |rs[0].bytes|);
      assert Wire(rs)[|rs[0].bytes|..] == Wire(rs[1..]);
      assert Outs(rs) == [rs[0].out] + Outs(rs[1..]);
      assert |rs| > 1 ==> Outs(rs)[0].number < Outs(rs)[1].number;
      assert StrictlyIncreasing(Outs(rs[1..])) by {
        assert Outs(rs)[1..] == Outs(rs[1..]);
      }
      HonestStream(front, Accept(c, n), rs[1..]);
    }
  }
}
