/** What a decoder delivers was made by a holder of the key, whatever bytes arrive: a record is delivered exactly if its
    seal opens, or its tag checks, for all of its header and text, and then as what was sealed. */
module Authenticity {
  import opened Bytes
  import opened Incremental
  import opened RecordCodec
  import opened RecordTheorems

  type Decoder = (Counters, Bytes) -> Front<Counters, Delivered, Error>

  /** Whether a buffer starts with an authentic record that stands for this delivery. */
  type Check = (Bytes, Delivered) -> bool

  /** How long the record at the front of the buffer says it is. */
  function SizeAt(b: Bytes): nat
    requires |b| >= HEADER
  {
    HEADER + Number(b[6..8]) + TAG
  }

  // ---------------------------------------------------------------------- the sealed records

  /** The sealed text stands for a payload with these flags: it is the payload itself, or the payload behind its length
      and perhaps its flags, with at most 1024 bytes of padding behind it. */
  predicate Holds(outer: Byte, text: Bytes, flags: Byte, payload: Bytes) {
    if outer == ENVELOPE then
      var head := [flags] + BigEndian(2, |payload|) + payload;
      && head <= text && |text| - |head| <= 1024 && flags in {0, KEEPALIVE, PING, PONG}
      && (flags == 0 ==> |payload| >= 20) && (flags == KEEPALIVE ==> payload == [])
      && (flags == PING || flags == PONG ==> |payload| == 8)
    else if outer == PADDED then
      var head := BigEndian(2, |payload|) + payload;
      head <= text && |text| - |head| <= 1024 && flags == 0 && |payload| >= 20
    else flags == outer && payload == text
  }

  /** The buffer starts with a sealed record of which the key opens the seal, under the nonce of its number, over its
      whole header and text, and what was sealed is this delivery. */
  predicate SealChecks(g: Config, b: Bytes, d: Delivered) {
    && |b| >= HEADER && |b| >= SizeAt(b)
    && b[..5] == Magic(g.wire) && d.number == Number(b[8..16]) > 0
    && var text := g.crypto.open(g.key, Nonce(g.crypto, g.key, d.number, g.wire), b[..16], b[16..SizeAt(b)]);
    && text.Some? && |text.value| == Number(b[6..8])
    && Holds(b[5], text.value, d.flags, d.payload)
  }

  lemma TwoBytes(x: Byte, y: Byte)
    ensures BigEndian(2, 256 * (x as int) + y) == [x, y]
  {
    var n := 256 * (x as int) + y;
    assert BigEndian(2, n) == BigEndian(1, n / 256) + [n % 256];
    assert BigEndian(1, n / 256) == BigEndian(0, n / 256 / 256) + [n / 256 % 256];
  }

  /** Padding and envelope are undone exactly if the text holds something, and then to that. */
  lemma UnwrapHolds(outer: Byte, number: nat, text: Bytes, d: Delivered)
    requires |text| < TWO_16 && d.number == number
    requires (outer == ENVELOPE ==> |text| >= 3) && (outer == PADDED ==> |text| >= 2)
    ensures Unwrap(outer, number, text) == Ok(d) <==> Holds(outer, text, d.flags, d.payload)
  {
    if outer == ENVELOPE {
      UnwrapEnvelope(number, text, d);
    } else if outer == PADDED {
      UnwrapPadded(number, text, d);
    }
  }

  lemma UnwrapEnvelope(number: nat, text: Bytes, d: Delivered)
    requires 3 <= |text| < TWO_16 && d.number == number
    ensures Unwrap(ENVELOPE, number, text) == Ok(d) <==> Holds(ENVELOPE, text, d.flags, d.payload)
  {
    hide BigEndian, Number;
    var inner := 256 * (text[1] as int) + text[2];
    TwoBytes(text[1], text[2]);
    var head := [d.flags] + BigEndian(2, |d.payload|) + d.payload;
    if Holds(ENVELOPE, text, d.flags, d.payload) {
      LengthRead(text[1..3], |d.payload|) by {
        assert text[1..3] == head[1..3] == BigEndian(2, |d.payload|);
      }
      assert text[0] == head[0] && text[3..3 + inner] == head[3..];
    }
    if Unwrap(ENVELOPE, number, text) == Ok(d) {
      assert head == [text[0], text[1], text[2]] + text[3..3 + inner] == text[..3 + inner];
    }
  }

  lemma UnwrapPadded(number: nat, text: Bytes, d: Delivered)
    requires 2 <= |text| < TWO_16 && d.number == number
    ensures Unwrap(PADDED, number, text) == Ok(d) <==> Holds(PADDED, text, d.flags, d.payload)
  {
    hide BigEndian, Number;
    var inner := 256 * (text[0] as int) + text[1];
    TwoBytes(text[0], text[1]);
    var head := BigEndian(2, |d.payload|) + d.payload;
    if Holds(PADDED, text, d.flags, d.payload) {
      assert text[..2] == head[..2] == BigEndian(2, |d.payload|);
      LengthRead(text[..2], |d.payload|);
      assert text[2..2 + inner] == head[2..];
    }
    if Unwrap(PADDED, number, text) == Ok(d) {
      assert head == [text[0], text[1]] + text[2..2 + inner] == text[..2 + inner];
    }
  }

  lemma LengthRead(two: Bytes, n: nat)
    requires |two| == 2 && two == BigEndian(2, n) && n < TWO_16
    ensures 256 * (two[0] as int) + two[1] == n
  {
    FieldRoundTrip(n);
    Number2(two);
  }

  /** The decoder delivers a record exactly if it is well shaped, fits, is new and its seal checks; it delivers what was
      sealed. */
  lemma SealedExact(g: Config, c: Counters, b: Bytes, d: Delivered)
    requires |b| >= HEADER
    ensures Sealed(g)(c, b).Unit? && Sealed(g)(c, b).out == [d] <==>
              && SealChecks(g, b, d) && ShapeProblem(b[5], Number(b[6..8]), g.wire).None? && SizeAt(b) <= g.max
              && Fresh(c, d.number)
    ensures Sealed(g)(c, b).Unit? ==> AcceptedOne(c, Sealed(g)(c, b), SizeAt(b))
  {
    Number2(b[6..8]);
    if |b| >= SizeAt(b) && ShapeProblem(b[5], Number(b[6..8]), g.wire).None? && d.number == Number(b[8..16]) {
      var text := g.crypto.open(g.key, Nonce(g.crypto, g.key, d.number, g.wire), b[..16], b[16..SizeAt(b)]);
      if text.Some? && |text.value| == Number(b[6..8]) {
        UnwrapHolds(b[5], d.number, text.value, d);
      }
    }
  }

  /** One record of this size was taken off, and its number counted. */
  predicate AcceptedOne(c: Counters, u: Front<Counters, Delivered, Error>, size: nat) {
    u.Unit? && |u.out| == 1 && u.size == size && Fresh(c, u.out[0].number) && u.next == Accept(c, u.out[0].number)
  }

  /** A complete, well-shaped record whose seal does not open is refused as such, and nothing changes. */
  lemma ForgeryRefused(g: Config, c: Counters, b: Bytes)
    requires |b| >= HEADER && SizeAt(b) <= Min(|b|, g.max) && b[..5] == Magic(g.wire)
    requires ShapeProblem(b[5], Number(b[6..8]), g.wire).None? && Number(b[8..16]) > 0
    requires g.crypto.open(g.key, Nonce(g.crypto, g.key, Number(b[8..16]), g.wire), b[..16], b[16..SizeAt(b)]).None?
    ensures Sealed(g)(c, b) == Bad(Authentication, c)
  {
    Number2(b[6..8]);
  }

  // ---------------------------------------------------------------------- the records with a tag

  /** The buffer starts with a record whose tag is that of all before it under the key. */
  predicate TagChecks(m: MacConfig, b: Bytes, d: Delivered) {
    && |b| >= HEADER && |b| >= SizeAt(b)
    && b[..5] == MAGIC3 && d == Delivered(b[5], Number(b[8..16]), b[16..SizeAt(b) - 16])
    && b[SizeAt(b) - 16..SizeAt(b)] == Take16(m.crypto.mac(m.key, b[..SizeAt(b) - 16]))
  }

  /** Data of at least 20 bytes, an empty keepalive, or a ping or pong of eight; both bits together pass for one. */
  lemma MacShapes(flags: Byte, len: nat)
    ensures MacShapeProblem(flags, len).None? <==>
              || (flags == 0 && len >= 20) || (flags == KEEPALIVE && len == 0)
              || (flags in {PING, PONG, PING + PONG} && len == 8)
  {
  }

  lemma MacExact(m: MacConfig, c: Counters, b: Bytes, d: Delivered)
    requires |b| >= HEADER
    ensures Mac(m)(c, b).Unit? && Mac(m)(c, b).out == [d] <==>
              && TagChecks(m, b, d) && MacShapeProblem(b[5], Number(b[6..8])).None? && SizeAt(b) <= m.max
              && Fresh(c, d.number)
    ensures Mac(m)(c, b).Unit? ==> AcceptedOne(c, Mac(m)(c, b), SizeAt(b))
  {
    Number2(b[6..8]);
    assert b[..5][..4] == b[..4];
    assert b[..5] == b[..4] + [b[4]] && MAGIC3 == MAGIC3[..4] + [3];
  }

  lemma WrongTagRefused(m: MacConfig, c: Counters, b: Bytes)
    requires |b| >= HEADER && SizeAt(b) <= Min(|b|, m.max) && b[..5] == MAGIC3
    requires MacShapeProblem(b[5], Number(b[6..8])).None?
    requires b[SizeAt(b) - 16..SizeAt(b)] != Take16(m.crypto.mac(m.key, b[..SizeAt(b) - 16]))
    ensures Mac(m)(c, b) == Bad(Authentication, c)
  {
    Number2(b[6..8]);
  }

  // ---------------------------------------------------------------------- whole streams

  /** A decoder that delivers nothing but what checks. */
  ghost predicate ChecksAt(front: Decoder, check: Check, c: Counters, b: Bytes) {
    front(c, b).Unit? ==>
      && |b| >= HEADER && |front(c, b).out| == 1 && front(c, b).size == SizeAt(b)
      && check(b, front(c, b).out[0])
  }

  ghost predicate Checks(front: Decoder, check: Check) {
    forall c, b :: ChecksAt(front, check, c, b)
  }

  /** The buffer starts with authentic records, one behind the other, that stand for these deliveries. */
  predicate Authentic(check: Check, b: Bytes, out: seq<Delivered>)
    decreases |out|
  {
    out == [] || (|b| >= HEADER && check(b, out[0]) && |b| >= SizeAt(b) && Authentic(check, b[SizeAt(b)..], out[1..]))
  }

  lemma {:induction false} DrainAuthentic(front: Decoder, check: Check, c: Counters, b: Bytes)
    requires Stable(front) && Checks(front, check)
    ensures Authentic(check, b, Drain(front, c, b).out)
    decreases |b|
  {
    DrainOnce(front, c, b);
    assert ChecksAt(front, check, c, b);
    hide Checks, Stable, Drain;
    if front(c, b).Unit? {
      var u := front(c, b);
      DrainAuthentic(front, check, u.next, b[u.size..]);
      assert (u.out + Drain(front, u.next, b[u.size..]).out)[1..] == Drain(front, u.next, b[u.size..]).out;
    }
  }

  lemma {:induction false} AuthenticPart(check: Check, b: Bytes, out: seq<Delivered>, part: seq<Delivered>)
    requires Authentic(check, b, out) && part <= out
    ensures Authentic(check, b, part)
    decreases |out|
  {
    if part != [] {
      AuthenticPart(check, b[SizeAt(b)..], out[1..], part[1..]);
    }
  }

  /** Whatever bytes arrive and however they are cut, what a decoder delivers until it stops are the records the stream
      begins with, every one of them authentic. */
  lemma SessionAuthentic(front: Decoder, check: Check, max: nat, chunks: seq<Bytes>)
    requires Stable(front) && Checks(front, check) && front(FRESH, []).More?
    ensures Authentic(check, Flatten(chunks), Session(front, max, FRESH, [], chunks).out)
  {
    SessionOrNoRoom(front, max, FRESH, [], chunks);
    assert [] + Flatten(chunks) == Flatten(chunks);
    DrainAuthentic(front, check, FRESH, Flatten(chunks));
    var whole := Drain(front, FRESH, Flatten(chunks)).out;
    AuthenticPart(check, Flatten(chunks), whole, Session(front, max, FRESH, [], chunks).out);
  }

  // ---------------------------------------------------------------------- the two decoders

  /** Every stream, honest or not: the sealed decoder delivers nothing but records whose seal its key opens, under the
      nonce of their number, and the other nothing but records whose tag checks. */
  lemma DecodersAuthentic(g: Config, m: MacConfig, chunks: seq<Bytes>)
    ensures Stable(Sealed(g)) && Stable(Mac(m))
    ensures Authentic(SealCheck(g), Flatten(chunks), Session(Sealed(g), g.max, FRESH, [], chunks).out)
    ensures Authentic(TagCheck(m), Flatten(chunks), Session(Mac(m), m.max, FRESH, [], chunks).out)
  {
    SealedStable(g);
    MacStable(m);
    SealedChecks(g);
    MacChecks(m);
    SessionAuthentic(Sealed(g), SealCheck(g), g.max, chunks);
    SessionAuthentic(Mac(m), TagCheck(m), m.max, chunks);
  }

  function SealCheck(g: Config): Check {
    (b, d) => SealChecks(g, b, d)
  }

  function TagCheck(m: MacConfig): Check {
    (b, d) => TagChecks(m, b, d)
  }

  lemma SealedChecks(g: Config)
    ensures Checks(Sealed(g), SealCheck(g))
  {
    hide SealChecks;
    forall c, b
      ensures ChecksAt(Sealed(g), SealCheck(g), c, b)
    {
      if |b| >= HEADER && Sealed(g)(c, b).Unit? {
        SealedExact(g, c, b, Delivered(0, 0, []));
        SealedExact(g, c, b, Sealed(g)(c, b).out[0]);
      }
    }
  }

  lemma MacChecks(m: MacConfig)
    ensures Checks(Mac(m), TagCheck(m))
  {
    hide TagChecks;
    forall c, b
      ensures ChecksAt(Mac(m), TagCheck(m), c, b)
    {
      if |b| >= HEADER && Mac(m)(c, b).Unit? {
        MacExact(m, c, b, Delivered(0, 0, []));
        MacExact(m, c, b, Mac(m)(c, b).out[0]);
      }
    }
  }
}
