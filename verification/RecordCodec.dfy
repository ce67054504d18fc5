/** The record layer: the sealed PTT4/PTT5 records (plain, padded, envelope), the older PTT3 records
    with a MAC, and their incremental decoders. */
module RecordCodec {
  import opened Bytes
  import opened Incremental

  const KEEPALIVE: Byte := 1
  const PING: Byte := 2
  const PONG: Byte := 4
  const DRAIN: Byte := 8
  const PADDED: Byte := 16
  const ENVELOPE: Byte := 32

  const HEADER := 16
  const TAG := 16
  const MAX_PAYLOAD := 65535
  const MAX_PADDING := 1024

  datatype Wire = PTT4 | PTT5

  datatype ShapeFault =
    | EnvelopeLength | PaddedLength | DrainLength | UnknownFlags
    | AmbiguousFlags | InnerLength | KeepaliveLength | ControlLength

  datatype Error =
    | BufferLimit | RecordMismatch | UnsupportedVersion | BadShape(fault: ShapeFault) | RecordTooLarge
    | ZeroSequence | Authentication | Replay | BadEnvelope | BadPadded
    | KeySize | SequenceExhausted | PacketTooLarge | PaddingRange | PaddedSize | EnvelopeFlags | EnvelopeSize

  datatype Result<+T> = Ok(value: T) | Fail(error: Error)

  /** The primitives, as uninterpreted functions. `seal` and `open` take key, nonce, header and text;
      `open` yields nothing when the tag does not check. */
  datatype Crypto = Crypto(
    mac: (Bytes, Bytes) -> Bytes,
    seal: (Bytes, Bytes, Bytes, Bytes) -> Bytes,
    open: (Bytes, Bytes, Bytes, Bytes) -> Option<Bytes>)

  /** All that is assumed of the primitives: lengths, and that opening undoes sealing. */
  ghost predicate Sound(a: Crypto) {
    && (forall k, d :: |a.mac(k, d)| == 32)
    && (forall k, n, h, p :: |a.seal(k, n, h, p)| == |p| + TAG)
    && (forall k, n, h, p :: a.open(k, n, h, a.seal(k, n, h, p)) == Some(p))
  }

  function Control(flags: Byte): bool {
    flags == 0 || flags == KEEPALIVE || flags == PING || flags == PONG
  }

  /** Which length a record's flags allow; the first complaint, or none. */
  function ShapeProblem(flags: Byte, len: nat, wire: Wire): Option<ShapeFault> {
    if flags == ENVELOPE && wire.PTT5? then
      if len < 3 then Some(EnvelopeLength) else None
    else if flags == PADDED && wire.PTT5? then
      if len < 22 then Some(PaddedLength) else None
    else if flags == DRAIN && wire.PTT5? then
      if len != 0 then Some(DrainLength) else None
    else if flags >= 8 then Some(UnknownFlags)
    else if !Control(flags) then Some(AmbiguousFlags)
    else if flags == 0 && len < 20 then Some(InnerLength)
    else if flags == KEEPALIVE && len != 0 then Some(KeepaliveLength)
    else if (flags == PING || flags == PONG) && len != 8 then Some(ControlLength)
    else None
  }

  function Take4(b: Bytes): Bytes {
    if |b| >= 4 then b[..4] else b
  }

  /** The characters of an ASCII label. */
  function Ascii(s: string): Bytes {
    seq(|s|, i requires 0 <= i < |s| => (s[i] as int % 256) as Byte)
  }

  function NonceLabel(wire: Wire): Bytes {
    if wire.PTT5? then Ascii("pacetun-v5-nonce") else Ascii("pacetun-v4-nonce")
  }

  function Nonce(a: Crypto, key: Bytes, number: nat, wire: Wire): Bytes {
    Take4(a.mac(key, NonceLabel(wire))) + BigEndian(8, number)
  }

  /** 'P' 'T' 'T', the wire digit and the version byte. */
  function Magic(wire: Wire): (m: Bytes)
    ensures |m| == 5
  {
    if wire.PTT5? then [80, 84, 84, 53, 5] else [80, 84, 84, 52, 4]
  }

  const MAGIC3: Bytes := [80, 84, 84, 51, 3]

  function Header(magic: Bytes, flags: Byte, len: nat, number: nat): (h: Bytes)
    requires |magic| == 5
    ensures |h| == HEADER
  {
    magic + [flags] + BigEndian(2, len) + BigEndian(8, number)
  }

  // ---------------------------------------------------------------------- encoders

  function SealedRecord(a: Crypto, wire: Wire, key: Bytes, number: nat, payload: Bytes, flags: Byte): Result<Bytes> {
    if |key| != 32 then Fail(KeySize)
    else if number == 0 then Fail(SequenceExhausted)
    else if |payload| > MAX_PAYLOAD then Fail(PacketTooLarge)
    else match ShapeProblem(flags, |payload|, wire)
      case Some(fault) => Fail(BadShape(fault))
      case None =>
        var h := Header(Magic(wire), flags, |payload|, number);
        Ok(h + a.seal(key, Nonce(a, key, number, wire), h, payload))
  }

  /** A data record padded with `pad`, bytes the generator drew; at most `maximum` of them. */
  function PaddedRecord(a: Crypto, key: Bytes, number: nat, payload: Bytes, maximum: int, pad: Bytes): Result<Bytes> {
    if maximum < 0 || maximum > MAX_PADDING then Fail(PaddingRange)
    else if maximum == 0 then SealedRecord(a, PTT5, key, number, payload, 0)
    else if |payload| < 20 || |payload| + 2 + maximum > MAX_PAYLOAD then Fail(PaddedSize)
    else SealedRecord(a, PTT5, key, number, BigEndian(2, |payload|) + payload + pad, PADDED)
  }

  function EnvelopeRecord(a: Crypto, key: Bytes, number: nat, payload: Bytes, flags: Byte, maximum: int,
      pad: Bytes): Result<Bytes> {
    if !Control(flags) then Fail(EnvelopeFlags)
    else if maximum < 0 || maximum > MAX_PADDING || |payload| + 3 + maximum > MAX_PAYLOAD then Fail(EnvelopeSize)
    else match ShapeProblem(flags, |payload|, PTT5)
      case Some(fault) => Fail(BadShape(fault))
      case None => SealedRecord(a, PTT5, key, number, [flags] + BigEndian(2, |payload|) + payload + pad, ENVELOPE)
  }

  /** The PTT3 record: header, payload in the clear, and the first sixteen bytes of a MAC over both. */
  function MacRecord(a: Crypto, key: Bytes, number: nat, payload: Bytes, flags: Byte): Result<Bytes> {
    if |payload| > MAX_PAYLOAD then Fail(PacketTooLarge)
    else
      var v := Header(MAGIC3, flags, |payload|, number) + payload;
      Ok(v + Take16(a.mac(key, v)))
  }

  function Take16(b: Bytes): Bytes {
    if |b| >= 16 then b[..16] else b
  }

  /** Writes the n bytes of v one at a time, from the most significant. */
  method WriteNumber(n: nat, v: nat) returns (b: Bytes)
    requires v < Span(n)
    ensures b == BigEndian(n, v)
  {
    b := [];
    var i := n;
    var left := v;
    while i > 0
      invariant 0 <= i <= n
      invariant BigEndian(n, v) == BigEndian(i, left) + b
    {
      b := [left % 256] + b;
      left := left / 256;
      i := i - 1;
    }
    assert BigEndian(0, left) == [];
  }

  method EncodeSealed(a: Crypto, wire: Wire, key: Bytes, number: nat, payload: Bytes, flags: Byte)
      returns (r: Result<Bytes>)
    requires number < TWO_64
    ensures r == SealedRecord(a, wire, key, number, payload, flags)
  {
    if |key| != 32 {
      return Fail(KeySize);
    }
    if number == 0 {
      return Fail(SequenceExhausted);
    }
    if |payload| > MAX_PAYLOAD {
      return Fail(PacketTooLarge);
    }
    var problem := ShapeProblem(flags, |payload|, wire);
    if problem.Some? {
      return Fail(BadShape(problem.value));
    }
    Span8();
    var v := Magic(wire) + [flags];
    var len := WriteNumber(2, |payload|);
    var serial := WriteNumber(8, number);
    v := v + len + serial;
    r := Ok(v + a.seal(key, Take4(a.mac(key, NonceLabel(wire))) + serial, v, payload));
  }

  // ---------------------------------------------------------------------- decoders

  datatype Delivered = Delivered(flags: Byte, number: nat, payload: Bytes)

  /** The decoder's sequence state: `highest` means something once a record has been accepted. */
  datatype Counters = Counters(haveSeq: bool, highest: nat, replays: nat, gaps: nat)

  const FRESH := Counters(false, 0, 0, 0)

  function Add64(x: nat, y: nat): nat {
    (x + y) % TWO_64
  }

  /** Takes note of an accepted sequence number, in 64-bit arithmetic. */
  function Accept(c: Counters, number: nat): Counters
    requires c.haveSeq ==> number > c.highest
  {
    Counters(true, number, c.replays,
      if c.haveSeq && number > Add64(c.highest, 1) then Add64(c.gaps, number - c.highest - 1) else c.gaps)
  }

  datatype Config = Config(crypto: Crypto, wire: Wire, key: Bytes, max: nat)

  /** Undoes the padding or the envelope; none when what it holds is not well formed. */
  function Unwrap(flags: Byte, number: nat, plain: Bytes): Result<Delivered>
    requires flags == ENVELOPE ==> |plain| >= 3
    requires flags == PADDED ==> |plain| >= 2
  {
    if flags == ENVELOPE then
      var inner := 256 * (plain[1] as int) + plain[2];
      if !Control(plain[0]) || inner > |plain| - 3 || |plain| - 3 - inner > MAX_PADDING then Fail(BadEnvelope)
      else match ShapeProblem(plain[0], inner, PTT5)
        case Some(fault) => Fail(BadShape(fault))
        case None => Ok(Delivered(plain[0], number, plain[3..3 + inner]))
    else if flags == PADDED then
      var inner := 256 * (plain[0] as int) + plain[1];
      if inner < 20 || inner > |plain| - 2 || |plain| - 2 - inner > MAX_PADDING then Fail(BadPadded)
      else Ok(Delivered(0, number, plain[2..2 + inner]))
    else Ok(Delivered(flags, number, plain))
  }

  /** One pass of the decoding loop: what the front of the buffer is. */
  function FrontSealed(g: Config, c: Counters, b: Bytes): Front<Counters, Delivered, Error> {
    if |b| < HEADER then More
    else if b[..5] != Magic(g.wire) then Bad(RecordMismatch, c)
    else
      var flags, len := b[5], 256 * (b[6] as int) + b[7];
      var total := HEADER + len + TAG;
      match ShapeProblem(flags, len, g.wire)
      case Some(fault) => Bad(BadShape(fault), c)
      case None =>
        if total > g.max then Bad(RecordTooLarge, c)
        else if |b| < total then More
        else
          var number := Number(b[8..16]);
          if number == 0 then Bad(ZeroSequence, c)
          else match g.crypto.open(g.key, Nonce(g.crypto, g.key, number, g.wire), b[..HEADER], b[HEADER..total])
            case None => Bad(Authentication, c)
            case Some(plain) =>
              if |plain| != len then Bad(Authentication, c)
              else if c.haveSeq && number <= c.highest then Bad(Replay, c.(replays := Add64(c.replays, 1)))
              else match Unwrap(flags, number, plain)
                case Fail(e) => Bad(e, Accept(c, number))
                case Ok(d) => Unit([d], Accept(c, number), total)
  }

  function Sealed(g: Config): (Counters, Bytes) -> Front<Counters, Delivered, Error> {
    (c, b) => FrontSealed(g, c, b)
  }

  datatype MacConfig = MacConfig(crypto: Crypto, key: Bytes, max: nat)

  function MacShapeProblem(flags: Byte, len: nat): Option<ShapeFault> {
    if flags == 0 && len < 20 then Some(InnerLength)
    else if flags % 2 == 1 && len != 0 then Some(KeepaliveLength)
    else if (flags / 2) % 4 != 0 && len != 8 then Some(ControlLength)
    else if flags >= 8 then Some(UnknownFlags)
    else None
  }

  function FrontMac(g: MacConfig, c: Counters, b: Bytes): Front<Counters, Delivered, Error> {
    if |b| < HEADER then More
    else if b[..4] != MAGIC3[..4] then Bad(RecordMismatch, c)
    else if b[4] != 3 then Bad(UnsupportedVersion, c)
    else
      var flags, len := b[5], 256 * (b[6] as int) + b[7];
      var total := HEADER + len + TAG;
      match MacShapeProblem(flags, len)
      case Some(fault) => Bad(BadShape(fault), c)
      case None =>
        if total > g.max then Bad(RecordTooLarge, c)
        else if |b| < total then More
        else if Take16(g.crypto.mac(g.key, b[..HEADER + len])) != b[HEADER + len..total] then Bad(Authentication, c)
        else
          var number := Number(b[8..16]);
          if c.haveSeq && number <= c.highest then Bad(Replay, c.(replays := Add64(c.replays, 1)))
          else Unit([Delivered(flags, number, b[HEADER..HEADER + len])], Accept(c, number), total)
  }

  function Mac(g: MacConfig): (Counters, Bytes) -> Front<Counters, Delivered, Error> {
    (c, b) => FrontMac(g, c, b)
  }

  lemma SealedStable(g: Config)
    ensures Stable(Sealed(g))
  {
    forall c, b, more
      ensures Settled(Sealed(g), c, b, more)
    {
      SealedSettled(g, c, b, more);
    }
  }

  lemma SealedSettled(g: Config, c: Counters, b: Bytes, more: Bytes)
    ensures Settled(Sealed(g), c, b, more)
  {
    if |b| >= HEADER {
      assert (b + more)[..5] == b[..5] && (b + more)[8..16] == b[8..16];
      assert (b + more)[..HEADER] == b[..HEADER];
      var total := HEADER + 256 * (b[6] as int) + b[7] + TAG;
      if |b| >= total {
        assert (b + more)[HEADER..total] == b[HEADER..total];
      }
    }
  }

  lemma MacStable(g: MacConfig)
    ensures Stable(Mac(g))
  {
    forall c, b, more
      ensures Settled(Mac(g), c, b, more)
    {
      MacSettled(g, c, b, more);
    }
  }

  lemma MacSettled(g: MacConfig, c: Counters, b: Bytes, more: Bytes)
    ensures Settled(Mac(g), c, b, more)
  {
    hide MacShapeProblem, Number, Take16, Accept;
    if |b| >= HEADER {
      SliceStays(b, more, 0, 4);
      SliceStays(b, more, 8, 16);
      var end := HEADER + 256 * (b[6] as int) + b[7];
      if |b| >= end + TAG {
        SliceStays(b, more, HEADER, end);
        SliceStays(b, more, end, end + TAG);
      }
    }
  }

  /** A record decoder. Which record format it takes is a matter of `front`: the same loop runs in
      the PTT3 decoder and in the PTT4/PTT5 one. */
  class RecordDecoder {
    const front: (Counters, Bytes) -> Front<Counters, Delivered, Error>
    const max: nat
    var buffer: Bytes
    var haveSeq: bool
    var highestSeq: nat
    var replayDrops: nat
    var sequenceGaps: nat

    constructor ForSealed(config: Config)
      ensures front == Sealed(config) && max == config.max && Valid() && buffer == [] && Model() == FRESH
    {
      SealedStable(config);
      front, max := Sealed(config), config.max;
      buffer := [];
      haveSeq, highestSeq, replayDrops, sequenceGaps := false, 0, 0, 0;
    }

    constructor ForMac(config: MacConfig)
      ensures front == Mac(config) && max == config.max && Valid() && buffer == [] && Model() == FRESH
    {
      MacStable(config);
      front, max := Mac(config), config.max;
      buffer := [];
      haveSeq, highestSeq, replayDrops, sequenceGaps := false, 0, 0, 0;
    }

    ghost predicate Valid() {
      Stable(front)
    }

    function Model(): Counters
      reads this
    {
      Counters(haveSeq, highestSeq, replayDrops, sequenceGaps)
    }

    /** Appends `bytes` and hands over, in order, the records that are now complete. A refusal for
        want of room leaves everything as it was. */
    method Feed(bytes: Bytes) returns (delivered: seq<Delivered>, verdict: Verdict<Error>)
      requires Valid()
      modifies this
      ensures |old(buffer)| + |bytes| > max ==>
                delivered == [] && verdict == Refused(BufferLimit) && Model() == old(Model()) && buffer == old(buffer)
      ensures |old(buffer)| + |bytes| <= max ==>
                Outcome(delivered, verdict, Model(), buffer) == Drain(front, old(Model()), old(buffer) + bytes)
    {
      hide Stable, Drain;
      delivered := [];
      if |buffer| + |bytes| > max {
        return [], Refused(BufferLimit);
      }
      buffer := buffer + bytes;
      ghost var whole := Drain(front, Model(), buffer);
      while true
        invariant var r := Drain(front, Model(), buffer);
                  whole == r.(out := delivered + r.out)
        decreases |buffer|
      {
        DrainOnce(front, Model(), buffer);
        match front(Model(), buffer) {
          case More =>
            return delivered, Accepted;
          case Bad(why, after) =>
            Store(after);
            return delivered, Refused(why);
          case Unit(out, next, size) =>
            OutputsJoin(delivered, out, Drain(front, next, buffer[size..]).out);
            delivered := delivered + out;
            buffer := buffer[size..];
            Store(next);
        }
      }
    }

    method Store(c: Counters)
      modifies this
      ensures Model() == c && buffer == old(buffer)
    {
      haveSeq, highestSeq, replayDrops, sequenceGaps := c.haveSeq, c.highest, c.replays, c.gaps;
    }
  }
}
