/** WebSocket frames (section 5 of RFC 6455): printing one, parsing the front one, and what a received frame does to
    a connection. */
module WsFrames {
  import opened Bytes
  import opened Incremental

  const MAX_MESSAGE := 16 * 1024 * 1024
  const MAX_UNAUTHENTICATED := 1024
  const MAX_CONTROL := 125

  const CONTINUATION: Byte := 0
  const TEXT: Byte := 1
  const BINARY: Byte := 2
  const CLOSE: Byte := 8
  const PING: Byte := 9
  const PONG: Byte := 10

  type Mask = m: Bytes | |m| == 4 witness [0, 0, 0, 0]

  datatype Error =
    | ReservedBits | FragmentedControl | ControlLength | MaskedServerFrame | UnmaskedClientFrame
    | LengthHighBit | FrameTooLarge | DataDuringFragments | UnexpectedContinuation | FragmentsTooLarge
    | UnsupportedFragments | ClosePayload | CloseStatus | TextUnsupported | UnsupportedOpcode
    | ControlTooLarge | PayloadTooLarge | TxLimit | RxLimit | ReadFailed | WriteFailed
    | PeerClosed | CloseReceived | TruncatedFrame | TruncatedMessage

  datatype Result<+T> = Ok(value: T) | Fail(error: Error)

  /** A frame as a value; the mask is there exactly in frames a client sends. */
  datatype Frame = Frame(fin: bool, opcode: Byte, mask: Option<Mask>, payload: Bytes)

  predicate IsControl(opcode: Byte) {
    (opcode / 8) % 2 == 1
  }

  // ---------------------------------------------------------------------- printing

  function Masked(p: Bytes, mask: Mask): (r: Bytes)
    ensures |r| == |p|
  {
    seq(|p|, i requires 0 <= i < |p| => Xor(p[i], mask[i % 4]))
  }

  lemma MaskedTwice(p: Bytes, mask: Mask)
    ensures Masked(Masked(p, mask), mask) == p
  {
    forall i | 0 <= i < |p|
      ensures Masked(Masked(p, mask), mask)[i] == p[i]
    {
      XorTwice(p[i], mask[i % 4]);
    }
  }

  /** The seven length bits. */
  function Short(n: nat): Byte {
    if n < 126 then n else if n <= 65535 then 126 else 127
  }

  function ExtendedSize(n: nat): nat {
    if n < 126 then 0 else if n <= 65535 then 2 else 8
  }

  /** The extended length: nothing, two or eight bytes. */
  function Extended(n: nat): (b: Bytes)
    ensures |b| == ExtendedSize(n)
  {
    BigEndian(ExtendedSize(n), n)
  }

  function MaskBytes(mask: Option<Mask>): Bytes {
    if mask.Some? then mask.value else []
  }

  function Printed(f: Frame): Bytes
    requires f.opcode < 16
  {
    [(if f.fin then 128 else 0) + f.opcode, (if f.mask.Some? then 128 else 0) + Short(|f.payload|)]
    + Extended(|f.payload|) + MaskBytes(f.mask)
    + (if f.mask.Some? then Masked(f.payload, f.mask.value) else f.payload)
  }

  function PrintedSize(n: nat, masked: bool): nat {
    2 + ExtendedSize(n) + (if masked then 4 else 0) + n
  }

  function TooLong(opcode: Byte, n: nat): Option<Error> {
    if IsControl(opcode) && n > MAX_CONTROL then Some(ControlTooLarge)
    else if !IsControl(opcode) && n > MAX_MESSAGE then Some(PayloadTooLarge)
    else None
  }

  /** The length bytes, the mask bit set for a client. */
  method LengthBytes(n: nat, bit: Byte) returns (f: Bytes)
    requires n <= MAX_MESSAGE && (bit == 0 || bit == 128)
    ensures f == [bit + Short(n)] + Extended(n)
  {
    if n < 126 {
      f := [bit + n];
    } else if n <= 65535 {
      f := [bit + 126, n / 256, n % 256];
      assert BigEndian(1, n / 256) == BigEndian(0, n / 65536) + [n / 256];
    } else {
      var i := 8;
      var length: Bytes := [];
      var left: nat := n;
      while i > 0
        invariant 0 <= i <= 8 && BigEndian(8, n) == BigEndian(i, left) + length
      {
        length := [left % 256] + length;
        left := left / 256;
        i := i - 1;
      }
      assert BigEndian(0, left) == [];
      f := [bit + 127] + length;
    }
  }

  /** Masks the bytes of f from `start` on, in place. */
  method MaskFrom(f: Bytes, start: nat, mask: Mask) returns (r: Bytes)
    requires start <= |f|
    ensures r == f[..start] + Masked(f[start..], mask)
  {
    r := f;
    var i := 0;
    while i < |f| - start
      invariant i <= |f| - start && |r| == |f|
      invariant forall k :: 0 <= k < |f| ==> r[k] == if start <= k < start + i then Xor(f[k], mask[(k - start) % 4])
                else f[k]
    {
      r := r[start + i := Xor(r[start + i], mask[i % 4])];
      i := i + 1;
    }
  }

  /** Builds a whole message in one frame; a client masks it with the four bytes drawn. */
  method MakeFrame(client: bool, opcode: Byte, p: Bytes, drawn: Mask) returns (r: Result<Bytes>)
    requires opcode < 16
    ensures r == match TooLong(opcode, |p|)
                 case Some(e) => Fail(e)
                 case None => Ok(Printed(Frame(true, opcode, if client then Some(drawn) else None, p)))
  {
    var problem := TooLong(opcode, |p|);
    if problem.Some? {
      return Fail(problem.value);
    }
    var bit: Byte := if client then 128 else 0;
    var length := LengthBytes(|p|, bit);
    var f: Bytes := [128 + opcode] + length;
    assert f == [128 + opcode, bit + Short(|p|)] + Extended(|p|);
    assert f + MaskBytes(None) == f;
    if !client {
      return Ok(f + p);
    }
    f := f + drawn;
    var start := |f|;
    ghost var head := f;
    f := f + p;
    assert f[..start] == head && f[start..] == p;
    f := MaskFrom(f, start, drawn);
    r := Ok(f);
  }

  // ---------------------------------------------------------------------- parsing

  /** Which end of the connection reads, and whether the peer is authenticated yet. */
  datatype Role = Role(client: bool, authenticated: bool)

  function Cap(role: Role): nat {
    if role.authenticated then MAX_MESSAGE else MAX_UNAUTHENTICATED
  }

  datatype Parsed = NeedMore | Invalid(why: Error) | Got(frame: Frame, size: nat)

  /** What the first two bytes alone can be refused for. */
  function Preamble(role: Role, b0: Byte, b1: Byte): Option<Error> {
    var fin, opcode, masked, short := b0 >= 128, b0 % 16, b1 >= 128, b1 % 128;
    if (b0 / 16) % 8 != 0 then Some(ReservedBits)
    else if IsControl(opcode) && !fin then Some(FragmentedControl)
    else if IsControl(opcode) && short >= 126 then Some(ControlLength)
    else if role.client && masked then Some(MaskedServerFrame)
    else if !role.client && !masked then Some(UnmaskedClientFrame)
    else None
  }

  function LengthBytesAfter(short: Byte): nat {
    if short == 126 then 2 else if short == 127 then 8 else 0
  }

  /** The rest of the frame: extended length, mask and payload. */
  function ParseRest(role: Role, fin: bool, opcode: Byte, masked: bool, short: Byte, b: Bytes): Parsed {
    var extra := LengthBytesAfter(short);
    if |b| < 2 + extra then NeedMore
    else if short == 127 && b[2] >= 128 then Invalid(LengthHighBit)
    else
      var n := if extra == 0 then short else Number(b[2..2 + extra]);
      var start := 2 + extra + (if masked then 4 else 0);
      if |b| < start then NeedMore
      else if n > Cap(role) then Invalid(FrameTooLarge)
      else if |b| < start + n then NeedMore
      else if masked then
        Got(Frame(fin, opcode, Some(b[start - 4..start]), Masked(b[start..start + n], b[start - 4..start])), start + n)
      else Got(Frame(fin, opcode, None, b[start..start + n]), start + n)
  }

  /** The frame at the front of the buffer; the checks are in the order the code makes them. */
  function ParseFrame(role: Role, b: Bytes): Parsed {
    if |b| < 2 then NeedMore
    else match Preamble(role, b[0], b[1])
      case Some(why) => Invalid(why)
      case None => ParseRest(role, b[0] >= 128, b[0] % 16, b[1] >= 128, b[1] % 128, b)
  }

  lemma ParseStable(role: Role, b: Bytes, more: Bytes)
    requires !ParseFrame(role, b).NeedMore?
    ensures ParseFrame(role, b + more) == ParseFrame(role, b)
    ensures ParseFrame(role, b).Got? ==> 0 < ParseFrame(role, b).size <= |b|
  {
    if Preamble(role, b[0], b[1]).None? {
      RestStable(role, b[0] >= 128, b[0] % 16, b[1] >= 128, b[1] % 128, b, more);
    }
  }

  lemma RestStable(role: Role, fin: bool, opcode: Byte, masked: bool, short: Byte, b: Bytes, more: Bytes)
    requires |b| >= 2 && !ParseRest(role, fin, opcode, masked, short, b).NeedMore?
    ensures ParseRest(role, fin, opcode, masked, short, b + more) == ParseRest(role, fin, opcode, masked, short, b)
    ensures ParseRest(role, fin, opcode, masked, short, b).Got?
            ==> 0 < ParseRest(role, fin, opcode, masked, short, b).size <= |b|
  {
    hide Masked, Number, Cap;
    var extra := LengthBytesAfter(short);
    SliceStays(b, more, 2, 2 + extra);
    var start := 2 + extra + (if masked then 4 else 0);
    var n := if extra == 0 then short else Number(b[2..2 + extra]);
    if |b| >= start {
      SliceStays(b, more, if masked then start - 4 else start, start);
      if |b| >= start + n {
        SliceStays(b, more, start, start + n);
      }
    }
  }

  /** A frame the reader accepts: masked if and only if the reader is a server, controls whole and short, and no
      longer than the reader allows. */
  predicate Readable(role: Role, f: Frame) {
    && f.opcode < 16 && f.mask.Some? == !role.client
    && |f.payload| <= Cap(role)
    && (IsControl(f.opcode) ==> f.fin && |f.payload| <= MAX_CONTROL)
  }

  lemma LengthFields(n: nat)
    requires n <= MAX_MESSAGE
    ensures n >= 126 ==> Number(Extended(n)) == n
    ensures n > 65535 ==> Extended(n)[0] == 0
  {
    FieldRoundTrip(n);
    if n > 65535 {
      TopByte(n);
    }
  }

  lemma TopByte(n: nat)
    requires n < 0x1_0000_0000
    ensures BigEndian(8, n)[0] == 0
  {
    var n1, n2, n3, n4 := n / 256, n / 256 / 256, n / 256 / 256 / 256, n / 256 / 256 / 256 / 256;
    assert n4 == 0;
    assert BigEndian(8, n) == BigEndian(7, n1) + [n % 256];
    assert BigEndian(7, n1) == BigEndian(6, n2) + [n1 % 256];
    assert BigEndian(6, n2) == BigEndian(5, n3) + [n2 % 256];
    assert BigEndian(5, n3) == BigEndian(4, n4) + [n3 % 256];
    assert BigEndian(4, 0) == [0, 0, 0, 0];
  }

  /** Print and parse: a frame the reader accepts comes out as it went in, whatever follows it. */
  lemma PrintParse(role: Role, f: Frame, more: Bytes)
    requires Readable(role, f)
    ensures ParseFrame(role, Printed(f) + more) == Got(f, |Printed(f)|)
    ensures |Printed(f)| == PrintedSize(|f.payload|, f.mask.Some?)
  {
    hide Extended, ParseFrame, Printed, FieldsAt;
    PrintedFields(f, more);
    ParseFields(role, f, Printed(f) + more, Extended(|f.payload|));
  }

  lemma PrintedParts(f: Frame, b0: Byte, b1: Byte)
    requires f.opcode < 16 && b0 == (if f.fin then 128 else 0) + f.opcode
    requires b1 == (if f.mask.Some? then 128 else 0) + Short(|f.payload|)
    ensures Printed(f) == [b0, b1] + Extended(|f.payload|) + MaskBytes(f.mask) + Body(f)
    ensures |Body(f)| == |f.payload|
  {
    hide Extended;
  }

  /** Where the fields of a printed frame are. */
  lemma PrintedFields(f: Frame, more: Bytes)
    requires f.opcode < 16 && |f.payload| <= MAX_MESSAGE
    ensures |Printed(f)| == PrintedSize(|f.payload|, f.mask.Some?)
    ensures |Printed(f)| == 2 + |Extended(|f.payload|)| + |MaskBytes(f.mask)| + |f.payload|
    ensures var b := Printed(f) + more;
            && b[0] == (if f.fin then 128 else 0) + f.opcode
            && b[1] == (if f.mask.Some? then 128 else 0) + Short(|f.payload|)
            && FieldsAt(f, b, Extended(|f.payload|))
  {
    var n := |f.payload|;
    var b0: Byte, b1: Byte := (if f.fin then 128 else 0) + f.opcode, (if f.mask.Some? then 128 else 0) + Short(n);
    PrintedParts(f, b0, b1);
    LengthFields(n);
    if f.mask.Some? {
      MaskedTwice(f.payload, f.mask.value);
    }
    hide Extended, Masked, Number, Printed;
    FieldSlices(b0, b1, Extended(n), MaskBytes(f.mask), Body(f), more);
  }

  function Body(f: Frame): Bytes {
    if f.mask.Some? then Masked(f.payload, f.mask.value) else f.payload
  }

  lemma FieldSlices(b0: Byte, b1: Byte, ext: Bytes, mask: Bytes, body: Bytes, more: Bytes)
    ensures var b, start := [b0, b1] + ext + mask + body + more, 2 + |ext| + |mask|;
            && b[0] == b0 && b[1] == b1 && b[2..2 + |ext|] == ext
            && b[start - |mask|..start] == mask && b[start..start + |body|] == body
  {
  }

  /** The layout of a frame (section 5.2 of RFC 6455): final bit and opcode, mask bit and length, the length in two or
      eight bytes where seven bits are too few, the mask, and the payload, each byte combined with the mask's in
      turn. */
  lemma FrameLayout(f: Frame, i: nat)
    requires f.opcode < 16 && i < |f.payload| <= MAX_MESSAGE
    ensures var b, n := Printed(f), |f.payload|;
            var start := 2 + (if n < 126 then 0 else if n <= 65535 then 2 else 8) + (if f.mask.Some? then 4 else 0);
            && |b| == start + n
            && b[0] == (if f.fin then 128 else 0) + f.opcode
            && b[1] == (if f.mask.Some? then 128 else 0) + (if n < 126 then n else if n <= 65535 then 126 else 127)
            && (126 <= n <= 65535 ==> Number(b[2..4]) == n) && (n > 65535 ==> Number(b[2..10]) == n)
            && (f.mask.Some? ==> b[start - 4..start] == f.mask.value)
            && b[start + i] == if f.mask.Some? then Xor(f.payload[i], f.mask.value[i % 4]) else f.payload[i]
  {
    hide Number, Printed, Masked;
    PrintedFields(f, []);
    assert Printed(f) + [] == Printed(f);
    var start := |Printed(f)| - |f.payload|;
    assert Printed(f)[start + i] == Printed(f)[start..start + |f.payload|][i] == Body(f)[i];
    MaskedAt(f, i);
  }

  lemma MaskedAt(f: Frame, i: nat)
    requires i < |f.payload|
    ensures |Body(f)| == |f.payload|
    ensures Body(f)[i] == if f.mask.Some? then Xor(f.payload[i], f.mask.value[i % 4]) else f.payload[i]
  {
  }

  lemma FirstByte(fin: bool, opcode: Byte)
    requires opcode < 16
    ensures var b0 := (if fin then 128 else 0) + opcode;
            (b0 / 16) % 8 == 0 && b0 % 16 == opcode && (b0 >= 128) == fin
  {
  }

  lemma SecondByte(masked: bool, short: Byte)
    requires short < 128
    ensures var b1 := (if masked then 128 else 0) + short;
            b1 % 128 == short && (b1 >= 128) == masked
  {
  }

  lemma ParseFields(role: Role, f: Frame, b: Bytes, ext: Bytes)
    requires Readable(role, f) && |b| >= 2
    requires b[0] == (if f.fin then 128 else 0) + f.opcode
             && b[1] == (if f.mask.Some? then 128 else 0) + Short(|f.payload|)
    requires FieldsAt(f, b, ext)
    ensures ParseFrame(role, b) == Got(f, 2 + |ext| + |MaskBytes(f.mask)| + |f.payload|)
  {
    FirstByte(f.fin, f.opcode);
    SecondByte(f.mask.Some?, Short(|f.payload|));
    RestFields(role, f, b, ext);
  }

  predicate FieldsAt(f: Frame, b: Bytes, ext: Bytes) {
    var n := |f.payload|;
    var start := 2 + |ext| + |MaskBytes(f.mask)|;
    && |b| >= start + n
    && b[2..2 + |ext|] == ext
    && |ext| == (if n < 126 then 0 else if n <= 65535 then 2 else 8)
    && (n >= 126 ==> Number(ext) == n) && (n > 65535 ==> ext[0] == 0)
    && b[start..start + n] == Body(f)
    && (f.mask.Some? ==> b[start - 4..start] == f.mask.value && Masked(Body(f), f.mask.value) == f.payload)
  }

  lemma RestFields(role: Role, f: Frame, b: Bytes, ext: Bytes)
    requires |f.payload| <= Cap(role) && FieldsAt(f, b, ext)
    ensures ParseRest(role, f.fin, f.opcode, f.mask.Some?, Short(|f.payload|), b)
            == Got(f, 2 + |ext| + |MaskBytes(f.mask)| + |f.payload|)
  {
    assert |ext| == 8 ==> b[2] == ext[0];
  }

  // ---------------------------------------------------------------------- what a frame does

  /** The receiving half of a connection. */
  datatype Rx = Rx(
    fragmentOpcode: Byte, fragment: Bytes, closed: bool, closeCode: Option<nat>, closeReason: nat,
    frames: nat, pings: nat, pongs: nat, binaryBytes: nat)

  const FRESH := Rx(0, [], false, None, 0, 0, 0, 0, 0)

  datatype Effect =
    | Message(bytes: Bytes)
    | PingSeen(payload: Bytes)
    | PongSeen(payload: Bytes)
    | CloseSeen(payload: Bytes)

  datatype Handled = Refuse(why: Error, state: Rx) | Take(effects: seq<Effect>, state: Rx)

  predicate ValidCloseStatus(code: nat) {
    (1000 <= code <= 1014 && code != 1004 && code != 1005 && code != 1006) || 3000 <= code <= 4999
  }

  function Handle(s: Rx, f: Frame): Handled {
    var r := s.(frames := s.frames + 1);
    if f.opcode == BINARY then
      if s.fragmentOpcode != 0 then Refuse(DataDuringFragments, r)
      else if f.fin then Take([Message(f.payload)], r.(binaryBytes := s.binaryBytes + |f.payload|))
      else Take([], r.(fragmentOpcode := BINARY, fragment := f.payload))
    else if f.opcode == CONTINUATION then
      if s.fragmentOpcode == 0 then Refuse(UnexpectedContinuation, r)
      else if |s.fragment| > MAX_MESSAGE - |f.payload| then Refuse(FragmentsTooLarge, r)
      else
        var whole := s.fragment + f.payload;
        if !f.fin then Take([], r.(fragment := whole))
        else if s.fragmentOpcode != BINARY then Refuse(UnsupportedFragments, r.(fragment := whole))
        else Take([Message(whole)], r.(fragmentOpcode := 0, fragment := [], binaryBytes := s.binaryBytes + |whole|))
    else if f.opcode == PING then Take([PingSeen(f.payload)], r.(pings := s.pings + 1))
    else if f.opcode == PONG then Take([PongSeen(f.payload)], r.(pongs := s.pongs + 1))
    else if f.opcode == CLOSE then
      if |f.payload| == 1 then Refuse(ClosePayload, r)
      else if |f.payload| >= 2 && !ValidCloseStatus(256 * (f.payload[0] as int) + f.payload[1])
        then Refuse(CloseStatus, r)
      else if |f.payload| >= 2 then
        Take([CloseSeen(f.payload)], r.(closed := true, closeCode := Some(256 * (f.payload[0] as int) + f.payload[1]),
          closeReason := |f.payload| - 2))
      else Take([CloseSeen(f.payload)], r.(closed := true))
    else if f.opcode == TEXT then Refuse(TextUnsupported, r)
    else Refuse(UnsupportedOpcode, r)
  }

  /** One pass of the reading loop, which stops for good at a close frame. */
  function FrontFrame(role: Role, s: Rx, b: Bytes): Front<Rx, Effect, Error> {
    if s.closed then More
    else match ParseFrame(role, b)
      case NeedMore => More
      case Invalid(why) => Bad(why, s)
      case Got(frame, size) =>
        match Handle(s, frame)
        case Refuse(why, state) => Bad(why, state)
        case Take(effects, state) => Unit(effects, state, size)
  }

  function Frames(role: Role): (Rx, Bytes) -> Front<Rx, Effect, Error> {
    (s, b) => FrontFrame(role, s, b)
  }

  lemma FramesStable(role: Role)
    ensures Stable(Frames(role))
  {
    forall s, b, more
      ensures Settled(Frames(role), s, b, more)
    {
      FramesSettled(role, s, b, more);
    }
    forall s, b | Frames(role)(s, b).Unit?
      ensures 0 < Frames(role)(s, b).size <= |b|
    {
      ParseStable(role, b, []);
    }
  }

  lemma FramesSettled(role: Role, s: Rx, b: Bytes, more: Bytes)
    ensures Settled(Frames(role), s, b, more)
  {
    if !ParseFrame(role, b).NeedMore? {
      ParseStable(role, b, more);
    }
  }

  /** The reassembly buffer is bounded and its opcode is that of a binary message or none. */
  predicate Sane(s: Rx) {
    (s.fragmentOpcode == 0 || s.fragmentOpcode == BINARY) && |s.fragment| <= MAX_MESSAGE
  }

  type Parser = (Rx, Bytes) -> Front<Rx, Effect, Error>

  /** What the session relies on at a point of the stream: at most one effect a frame, bounded buffers, nothing after
      a close frame, and neither of the refusals that are out of reach. */
  ghost predicate PointOk(front: Parser, s: Rx, b: Bytes) {
    match front(s, b)
    case More => s.closed || |b| < MAX_MESSAGE + 14
    case Bad(why, _) =>
      && !s.closed
      && (Sane(s) ==> why != RxLimit && why != UnsupportedFragments && why != TxLimit && why != CloseReceived)
    case Unit(out, next, size) =>
      && !s.closed && |out| <= 1 && (Sane(s) ==> Sane(next))
      && (out != [] && !out[0].Message? ==> |out[0].payload| <= MAX_CONTROL)
  }

  ghost predicate Dependable(front: Parser) {
    Stable(front) && forall s: Rx, b: Bytes :: PointOk(front, s, b)
  }

  lemma FramesDependable(role: Role)
    ensures Dependable(Frames(role))
  {
    FramesStable(role);
    forall s: Rx, b: Bytes
      ensures PointOk(Frames(role), s, b)
    {
      FramesPointOk(role, s, b);
    }
  }

  lemma FramesPointOk(role: Role, s: Rx, b: Bytes)
    ensures PointOk(Frames(role), s, b)
  {
    if !s.closed {
      var p := ParseFrame(role, b);
      if p.Got? {
        FrontHandles(role, s, b);
        HandleOk(s, p.frame);
        GotBounded(role, b);
      } else {
        NotGot(role, s, b);
      }
    }
  }

  lemma FrontHandles(role: Role, s: Rx, b: Bytes)
    requires !s.closed && ParseFrame(role, b).Got?
    ensures var p := ParseFrame(role, b);
            var h := Handle(s, p.frame);
            Frames(role)(s, b) == if h.Take? then Unit(h.effects, h.state, p.size) else Bad(h.why, h.state)
  {
  }

  lemma HandleOk(s: Rx, f: Frame)
    ensures match Handle(s, f)
            case Refuse(why, _) =>
              Sane(s) ==> why != RxLimit && why != UnsupportedFragments && why != TxLimit && why != CloseReceived
            case Take(out, next) =>
              && |out| <= 1 && (Sane(s) && |f.payload| <= MAX_MESSAGE ==> Sane(next))
              && (out != [] && !out[0].Message? ==> IsControl(f.opcode) && out[0].payload == f.payload)
  {
  }

  /** The reader takes no frame but those it may: no reserved bits, masked if and only if it comes from a client,
      controls whole and of at most 125 bytes, and no more than 1024 bytes before the peer is authenticated, 16 MiB
      after. */
  lemma OnlyReadable(role: Role, b: Bytes)
    requires ParseFrame(role, b).Got?
    ensures var f := ParseFrame(role, b).frame;
            && (b[0] / 16) % 8 == 0 && f.fin == (b[0] >= 128) && f.opcode == b[0] % 16
            && f.mask.Some? == !role.client
            && |f.payload| <= (if role.authenticated then 16_777_216 else 1024)
            && (f.opcode >= 8 ==> f.fin && |f.payload| <= 125)
  {
  }

  /** A longer one is refused. */
  lemma TooLargeRefused(role: Role, f: Frame, more: Bytes)
    requires f.opcode < 8 && f.mask.Some? == !role.client && |f.payload| <= MAX_MESSAGE
    requires !role.authenticated && |f.payload| > 1024
    ensures ParseFrame(role, Printed(f) + more) == Invalid(FrameTooLarge)
  {
    hide Number, Printed, Masked, Extended;
    PrintedFields(f, more);
    FirstByte(f.fin, f.opcode);
    SecondByte(f.mask.Some?, Short(|f.payload|));
  }

  /** What may be sent: controls of at most 125 bytes, and anything else of at most 16 MiB. */
  lemma LengthLimits(opcode: Byte, n: nat)
    requires opcode < 16
    ensures TooLong(opcode, n).None? <==> n <= (if opcode >= 8 then 125 else 16_777_216)
  {
  }

  lemma GotBounded(role: Role, b: Bytes)
    requires ParseFrame(role, b).Got?
    ensures var f := ParseFrame(role, b).frame;
            |f.payload| <= MAX_MESSAGE && (IsControl(f.opcode) ==> |f.payload| <= MAX_CONTROL)
  {
  }

  lemma NotGot(role: Role, s: Rx, b: Bytes)
    requires !s.closed && !ParseFrame(role, b).Got?
    ensures match Frames(role)(s, b)
            case More => |b| < MAX_MESSAGE + 14
            case Bad(why, _) => why != RxLimit && why != UnsupportedFragments && why != TxLimit && why != CloseReceived
            case Unit(_, _, _) => false
  {
  }

  /** Over a whole buffer: the reassembly buffer stays bounded, what is left is less than a frame, and neither of the
      refusals that are out of reach is met. */
  lemma {:induction false} DrainDependable(front: Parser, s: Rx, b: Bytes)
    requires Dependable(front) && Sane(s)
    ensures var d := Drain(front, s, b);
            && d.verdict != Refused(RxLimit) && d.verdict != Refused(UnsupportedFragments)
            && (d.verdict.Accepted? ==> Sane(d.state) && (d.state.closed || |d.rest| < MAX_MESSAGE + 14))
    decreases |b|
  {
    assert PointOk(front, s, b);
    match front(s, b)
    case More =>
    case Bad(_, _) =>
    case Unit(_, next, size) => DrainDependable(front, next, b[size..]);
  }

  /** In every state a connection can be in, whatever arrives: the reassembly buffer stays within 16 MiB, what is left
      unparsed is under 16 MiB + 14 bytes while no close frame has been seen, and the refusal of fragments that
      are not binary is never met. */
  lemma BuffersBounded(role: Role, b: Bytes)
    ensures Stable(Frames(role))
    ensures var d := Drain(Frames(role), FRESH, b);
            && d.verdict != Refused(UnsupportedFragments)
            && (d.verdict.Accepted? ==>
                  |d.state.fragment| <= MAX_MESSAGE && (d.state.closed || |d.rest| < MAX_MESSAGE + 14))
  {
    FramesDependable(role);
    DrainDependable(Frames(role), FRESH, b);
  }

  // ---------------------------------------------------------------------- playing frames

  function Wire(fs: seq<Frame>): Bytes
    requires forall k :: 0 <= k < |fs| ==> fs[k].opcode < 16
  {
    if fs == [] then [] else Printed(fs[0]) + Wire(fs[1..])
  }

  type Handler = (Rx, Frame) -> Handled

  /** What the frames do one after another, seen as values, given what each does. */
  function Play(handle: Handler, s: Rx, fs: seq<Frame>): Handled
    decreases |fs|
  {
    if fs == [] then Take([], s)
    else match handle(s, fs[0])
      case Refuse(why, state) => Refuse(why, state)
      case Take(effects, state) =>
        match Play(handle, state, fs[1..])
        case Refuse(why, last) => Refuse(why, last)
        case Take(later, last) => Take(effects + later, last)
  }

  function Total(ms: seq<Bytes>): nat {
    if ms == [] then 0 else |ms[0]| + Total(ms[1..])
  }

  function Count(fs: seq<Frame>, opcode: Byte): nat {
    if fs == [] then 0 else (if fs[0].opcode == opcode then 1 else 0) + Count(fs[1..], opcode)
  }

  /** The counters are true: all frames, the pings and the pongs among them, and the bytes of the messages delivered. */
  lemma {:induction false} PlayCounts(s: Rx, fs: seq<Frame>)
    requires Play(Handling(), s, fs).Take?
    ensures var r := Play(Handling(), s, fs);
            && r.state.frames == s.frames + |fs|
            && r.state.pings == s.pings + Count(fs, PING) && r.state.pongs == s.pongs + Count(fs, PONG)
            && r.state.binaryBytes == s.binaryBytes + Total(Messages(r.effects))
    decreases |fs|
  {
    if fs != [] {
      var h := Handle(s, fs[0]);
      PlayCounts(h.state, fs[1..]);
      var later := Play(Handling(), h.state, fs[1..]).effects;
      HandleCounts(s, fs[0]);
      MessagesAppend(h.effects, later);
      TotalAppend(Messages(h.effects), Messages(later));
    }
  }

  lemma HandleCounts(s: Rx, f: Frame)
    requires Handle(s, f).Take?
    ensures var h := Handle(s, f);
            && h.state.frames == s.frames + 1
            && h.state.pings == s.pings + (if f.opcode == PING then 1 else 0)
            && h.state.pongs == s.pongs + (if f.opcode == PONG then 1 else 0)
            && h.state.binaryBytes == s.binaryBytes + Total(Messages(h.effects))
  {
    var h := Handle(s, f);
    if h.effects != [] {
      assert h.effects[1..] == [];
    }
  }

  lemma {:induction false} TotalAppend(a: seq<Bytes>, b: seq<Bytes>)
    ensures Total(a + b) == Total(a) + Total(b)
    decreases |a|
  {
    if a == [] {
      assert a + b == b;
    } else {
      assert (a + b)[0] == a[0] && (a + b)[1..] == a[1..] + b;
      TotalAppend(a[1..], b);
    }
  }

  predicate AllReadable(role: Role, fs: seq<Frame>) {
    forall k :: 0 <= k < |fs| ==> Readable(role, fs[k]) && fs[k].opcode != CLOSE
  }

  /** The parser hands a readable frame to the handler, and only a close frame closes. */
  ghost predicate ReadsOne(front: (Rx, Bytes) -> Front<Rx, Effect, Error>, handle: Handler, role: Role, s: Rx,
      f: Frame, more: Bytes) {
    !s.closed && Readable(role, f) && f.opcode != CLOSE && handle(s, f).Take? ==>
      && front(s, Printed(f) + more) == Unit(handle(s, f).effects, handle(s, f).state, |Printed(f)|)
      && !handle(s, f).state.closed
  }

  ghost predicate Reads(front: (Rx, Bytes) -> Front<Rx, Effect, Error>, handle: Handler, role: Role) {
    forall s: Rx, f: Frame, more: Bytes :: ReadsOne(front, handle, role, s, f, more)
  }

  /** Reading the printed frames does what the frames do. */
  lemma {:induction false} DrainPlays(front: (Rx, Bytes) -> Front<Rx, Effect, Error>, handle: Handler, role: Role,
      s: Rx, fs: seq<Frame>)
    requires Stable(front) && Reads(front, handle, role) && !s.closed && AllReadable(role, fs)
             && Play(handle, s, fs).Take?
    ensures Drain(front, s, Wire(fs)) == Outcome(Play(handle, s, fs).effects, Accepted, Play(handle, s, fs).state, [])
    decreases |fs|
  {
    if fs != [] {
      var h := handle(s, fs[0]);
      assert ReadsOne(front, handle, role, s, fs[0], Wire(fs[1..]));
      assert front(s, Wire(fs)) == Unit(h.effects, h.state, |Printed(fs[0])|);
      assert Wire(fs)[|Printed(fs[0])|..] == Wire(fs[1..]);
      DrainPlays(front, handle, role, h.state, fs[1..]);
    }
  }

  lemma {:induction false} PlayAppend(handle: Handler, s: Rx, a: seq<Frame>, b: seq<Frame>)
    requires Play(handle, s, a).Take? && Play(handle, Play(handle, s, a).state, b).Take?
    ensures var mid := Play(handle, s, a);
            var last := Play(handle, mid.state, b);
            Play(handle, s, a + b) == Take(mid.effects + last.effects, last.state)
    decreases |a|
  {
    if a == [] {
      assert a + b == b;
    } else {
      assert (a + b)[1..] == a[1..] + b;
      PlayAppend(handle, handle(s, a[0]).state, a[1..], b);
    }
  }

  function Messages(es: seq<Effect>): seq<Bytes> {
    if es == [] then []
    else (if es[0].Message? then [es[0].bytes] else []) + Messages(es[1..])
  }

  lemma {:induction false} MessagesAppend(a: seq<Effect>, b: seq<Effect>)
    ensures Messages(a + b) == Messages(a) + Messages(b)
    decreases |a|
  {
    if a == [] {
      assert a + b == b;
    } else {
      assert (a + b)[1..] == a[1..] + b;
      MessagesAppend(a[1..], b);
    }
  }

  lemma MessagesPrefix(a: seq<Effect>, b: seq<Effect>)
    requires a <= b
    ensures Messages(a) <= Messages(b)
  {
    assert b == a + b[|a|..];
    MessagesAppend(a, b[|a|..]);
  }

  // ---------------------------------------------------------------------- messages in pieces

  /** A ping or pong slipped in between. */
  datatype Ctl = Ctl(pong: bool, payload: Bytes, mask: Option<Mask>)

  /** A piece of a message, with what is slipped in before it. */
  datatype Part = Part(before: seq<Ctl>, bytes: Bytes, mask: Option<Mask>)

  function CtlFrames(cs: seq<Ctl>): (r: seq<Frame>)
    ensures forall k :: 0 <= k < |r| ==> r[k].opcode < 16
  {
    if cs == [] then []
    else [Frame(true, if cs[0].pong then PONG else PING, cs[0].mask, cs[0].payload)] + CtlFrames(cs[1..])
  }

  /** The frames of a message cut into parts: the first carries the opcode, the last the final bit. */
  function PartFrames(parts: seq<Part>, first: bool): (r: seq<Frame>)
    ensures forall k :: 0 <= k < |r| ==> r[k].opcode < 16
  {
    if parts == [] then []
    else
      CtlFrames(parts[0].before) + [HeadFrame(parts, first)] + PartFrames(parts[1..], false)
  }

  function Joined(parts: seq<Part>): Bytes {
    if parts == [] then [] else parts[0].bytes + Joined(parts[1..])
  }

  /** All the frames of a conversation: messages in pieces, and controls after the last. */
  function ScriptFrames(messages: seq<seq<Part>>, after: seq<Ctl>): (r: seq<Frame>)
    ensures forall k :: 0 <= k < |r| ==> r[k].opcode < 16
  {
    if messages == [] then CtlFrames(after) else PartFrames(messages[0], true) + ScriptFrames(messages[1..], after)
  }

  function Originals(messages: seq<seq<Part>>): seq<Bytes> {
    seq(|messages|, i requires 0 <= i < |messages| => Joined(messages[i]))
  }

  predicate Between(s: Rx) {
    !s.closed && s.fragmentOpcode == 0 && s.fragment == []
  }

  /** What a ping or pong does: nothing to the messages. */
  ghost predicate PassesControls(handle: Handler) {
    forall s: Rx, f: Frame :: f.opcode == PING || f.opcode == PONG ==>
      var h := handle(s, f);
      h.Take? && Messages(h.effects) == [] && h.state
        == s.(frames := h.state.frames, pings := h.state.pings, pongs := h.state.pongs)
  }

  predicate FitsPart(s: Rx, f: Frame, first: bool) {
    && !s.closed && |s.fragment| + |f.payload| <= MAX_MESSAGE
    && if first then Between(s) && f.opcode == BINARY else s.fragmentOpcode == BINARY && f.opcode == CONTINUATION
  }

  /** What one part does at the start or in the middle of a message: it is kept, and the last completes it. */
  ghost predicate JoinsParts(handle: Handler) {
    forall s: Rx, f: Frame, first: bool :: FitsPart(s, f, first) ==>
      var h := handle(s, f);
      && h.Take? && !h.state.closed
      && if f.fin then Between(h.state) && Messages(h.effects) == [s.fragment + f.payload]
         else
           h.state.fragmentOpcode == BINARY && h.state.fragment == s.fragment + f.payload && Messages(h.effects) == []
  }

  lemma {:induction false} PlayControls(handle: Handler, s: Rx, cs: seq<Ctl>)
    requires PassesControls(handle)
    ensures var r := Play(handle, s, CtlFrames(cs));
            && r.Take? && Messages(r.effects) == []
            && r.state == s.(frames := r.state.frames, pings := r.state.pings, pongs := r.state.pongs)
    decreases |cs|
  {
    if cs != [] {
      var f := CtlFrames(cs)[0];
      assert CtlFrames(cs)[1..] == CtlFrames(cs[1..]);
      var h := handle(s, f);
      PlayControls(handle, h.state, cs[1..]);
      MessagesAppend(h.effects, Play(handle, h.state, CtlFrames(cs[1..])).effects);
    }
  }

  /** Playing the (remaining) parts of a message yields just that message. */
  lemma {:induction false} PlayParts(handle: Handler, s: Rx, parts: seq<Part>, first: bool)
    requires PassesControls(handle) && JoinsParts(handle)
    requires parts != [] && !s.closed && (if first then Between(s) else s.fragmentOpcode == BINARY)
    requires |s.fragment| + |Joined(parts)| <= MAX_MESSAGE
    ensures var r := Play(handle, s, PartFrames(parts, first));
            r.Take? && Messages(r.effects) == [s.fragment + Joined(parts)] && Between(r.state)
    decreases |parts|
  {
    var f := HeadFrame(parts, first);
    var rest := PartFrames(parts[1..], false);
    JoinedHead(s.fragment, parts);
    var t := PlayPart(handle, s, parts[0].before, f, first, rest);
    if |parts| > 1 {
      PlayParts(handle, t, parts[1..], false);
    }
  }

  function HeadFrame(parts: seq<Part>, first: bool): Frame
    requires parts != []
  {
    Frame(|parts| == 1, if first then BINARY else CONTINUATION, parts[0].mask, parts[0].bytes)
  }

  lemma JoinedHead(fragment: Bytes, parts: seq<Part>)
    requires parts != []
    ensures |Joined(parts)| == |parts[0].bytes| + |Joined(parts[1..])|
    ensures fragment + Joined(parts) == fragment + parts[0].bytes + Joined(parts[1..])
    ensures |parts| == 1 ==>
              PartFrames(parts[1..], false) == [] && fragment + Joined(parts) == fragment + parts[0].bytes
  {
    hide PartFrames;
    var rest := Joined(parts[1..]);
    assert Joined(parts) == parts[0].bytes + rest;
    FurtherJoined(fragment, parts[0].bytes, rest);
    if |parts| == 1 {
      assert parts[1..] == [] && rest == [];
      NoParts();
    }
  }

  lemma FurtherJoined(a: Bytes, b: Bytes, c: Bytes)
    ensures a + (b + c) == a + b + c
  {
  }

  lemma NoParts()
    ensures PartFrames([], false) == []
  {
  }

  /** Controls, then one part, then the rest of the message: the part is kept for the rest, or completes it. */
  lemma PlayPart(handle: Handler, s: Rx, before: seq<Ctl>, f: Frame, first: bool, rest: seq<Frame>) returns (t: Rx)
    requires PassesControls(handle) && JoinsParts(handle) && FitsPart(s, f, first) && (f.fin ==> rest == [])
    ensures var r := Play(handle, s, CtlFrames(before) + [f] + rest);
            if f.fin then r.Take? && Messages(r.effects) == [s.fragment + f.payload] && Between(r.state)
            else
              && !t.closed && t.fragmentOpcode == BINARY && t.fragment == s.fragment + f.payload
              && (Play(handle, t, rest).Take? ==>
                    r.Take? && Messages(r.effects) == Messages(Play(handle, t, rest).effects)
                      && r.state == Play(handle, t, rest).state)
  {
    PlayControls(handle, s, before);
    var mid := Play(handle, s, CtlFrames(before)).state;
    assert FitsPart(mid, f, first);
    t := handle(mid, f).state;
    PlayHead(handle, s, before, f, rest);
  }

  /** Controls, then a frame, then the rest. */
  lemma PlayHead(handle: Handler, s: Rx, before: seq<Ctl>, f: Frame, rest: seq<Frame>)
    requires PassesControls(handle)
    ensures var mid := Play(handle, s, CtlFrames(before));
            mid.Take? &&
            var h := handle(mid.state, f);
            h.Take? && Play(handle, h.state, rest).Take? ==>
              var r := Play(handle, s, CtlFrames(before) + [f] + rest);
              && r.Take? && r.state == Play(handle, h.state, rest).state
              && Messages(r.effects) == Messages(h.effects) + Messages(Play(handle, h.state, rest).effects)
  {
    PlayControls(handle, s, before);
    var mid := Play(handle, s, CtlFrames(before));
    var h := handle(mid.state, f);
    if h.Take? && Play(handle, h.state, rest).Take? {
      var r := Play(handle, h.state, rest);
      assert ([f] + rest)[1..] == rest;
      assert Play(handle, mid.state, [f] + rest) == Take(h.effects + r.effects, r.state);
      PlayAppend(handle, s, CtlFrames(before), [f] + rest);
      MessagesAppend(h.effects, r.effects);
      MessagesAppend(mid.effects, h.effects + r.effects);
      assert CtlFrames(before) + [f] + rest == CtlFrames(before) + ([f] + rest);
    }
  }

  lemma {:induction false} PlayScript(handle: Handler, s: Rx, messages: seq<seq<Part>>, after: seq<Ctl>)
    requires PassesControls(handle) && JoinsParts(handle)
    requires Between(s) && forall i :: 0 <= i < |messages| ==> messages[i] != [] && |Joined(messages[i])| <= MAX_MESSAGE
    ensures var r := Play(handle, s, ScriptFrames(messages, after));
            r.Take? && Messages(r.effects) == Originals(messages) && Between(r.state)
    decreases |messages|
  {
    hide PartFrames, CtlFrames, PassesControls, JoinsParts, Play, Joined;
    if messages == [] {
      PlayControls(handle, s, after);
    } else {
      PlayParts(handle, s, messages[0], true);
      var one := Play(handle, s, PartFrames(messages[0], true));
      PlayScript(handle, one.state, messages[1..], after);
      var rest := Play(handle, one.state, ScriptFrames(messages[1..], after));
      PlayAppend(handle, s, PartFrames(messages[0], true), ScriptFrames(messages[1..], after));
      MessagesAppend(one.effects, rest.effects);
      assert [] + Joined(messages[0]) == Joined(messages[0]);
      assert Originals(messages) == [Joined(messages[0])] + Originals(messages[1..]);
    }
  }

  function Handling(): Handler {
    (s, f) => Handle(s, f)
  }

  lemma HandlerPassesControls()
    ensures PassesControls(Handling())
  {
  }

  lemma HandlerJoinsParts()
    ensures JoinsParts(Handling())
  {
    forall s: Rx, f: Frame, first: bool | FitsPart(s, f, first) && first
      ensures s.fragment + f.payload == f.payload
    {
    }
  }

  lemma ParserReads(role: Role)
    ensures Reads(Frames(role), Handling(), role)
  {
    forall s: Rx, f: Frame, more: Bytes
      ensures ReadsOne(Frames(role), Handling(), role, s, f, more)
    {
      ParserReadsOne(role, s, f, more);
    }
  }

  lemma ParserReadsOne(role: Role, s: Rx, f: Frame, more: Bytes)
    ensures ReadsOne(Frames(role), Handling(), role, s, f, more)
  {
    if !s.closed && Readable(role, f) && f.opcode != CLOSE && Handle(s, f).Take? {
      PrintParse(role, f, more);
      FrontOfGot(role, s, Printed(f) + more, f, |Printed(f)|);
    }
  }

  lemma FrontOfGot(role: Role, s: Rx, b: Bytes, f: Frame, size: nat)
    requires !s.closed && ParseFrame(role, b) == Got(f, size) && f.opcode != CLOSE && Handle(s, f).Take?
    ensures FrontFrame(role, s, b) == Unit(Handle(s, f).effects, Handle(s, f).state, size)
    ensures !Handle(s, f).state.closed
  {
  }

  /** Reassembly: however messages are cut into frames, with whatever pings and pongs in between, however the bytes
      arrive in pieces, the messages that come out are those that went in; of an incomplete stream, a prefix of them. */
  lemma Reassembly(role: Role, messages: seq<seq<Part>>, after: seq<Ctl>, chunks: seq<Bytes>)
    requires forall i :: 0 <= i < |messages| ==> messages[i] != [] && |Joined(messages[i])| <= MAX_MESSAGE
    requires AllReadable(role, ScriptFrames(messages, after))
    requires Flatten(chunks) <= Wire(ScriptFrames(messages, after))
    ensures Stable(Frames(role))
    ensures var r := Feed(Frames(role), FRESH, [], chunks);
            && r.verdict.Accepted?
            && Messages(r.out) <= Originals(messages)
            && (Flatten(chunks) == Wire(ScriptFrames(messages, after)) ==>
                  Messages(r.out) == Originals(messages) && r.rest == [])
  {
    FramesStable(role);
    ParserReads(role);
    HandlerPassesControls();
    HandlerJoinsParts();
    var fs := ScriptFrames(messages, after);
    PlayScript(Handling(), FRESH, messages, after);
    DrainPlays(Frames(role), Handling(), role, FRESH, fs);
    ChunkIndependence(Frames(role), FRESH, [], chunks);
    assert [] + Flatten(chunks) == Flatten(chunks);
    PrefixYieldsPrefix(Frames(role), FRESH, Flatten(chunks), Wire(fs));
    MessagesPrefix(Drain(Frames(role), FRESH, Flatten(chunks)).out, Drain(Frames(role), FRESH, Wire(fs)).out);
  }
}
