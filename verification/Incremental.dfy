/** An incremental parser: it appends whatever bytes arrive to a buffer and takes units off the
    front for as long as the front unit is complete. The PTT3 and PTT4/PTT5 record decoders and
    the WebSocket frame parser are all of this kind; what holds of the kind is proved here once. */
module Incremental {
  import opened Bytes

  /** What the bytes at the front of the buffer amount to in state s: an incomplete unit, a unit
      that must be refused, or a complete unit of `size` bytes that yields some output. */
  datatype Front<S, D, E> =
    | More
    | Bad(why: E, after: S)
    | Unit(out: seq<D>, next: S, size: nat)

  datatype Verdict<E> = Accepted | Refused(why: E)

  datatype Outcome<S, D, E> = Outcome(out: seq<D>, verdict: Verdict<E>, state: S, rest: Bytes)

  /** An empty buffer is incomplete, a unit is no larger than the buffer and not empty, and bytes that arrive behind a
      complete or refused unit do not change what it is. */
  ghost predicate Stable<S(!new), D(!new), E(!new)>(front: (S, Bytes) -> Front<S, D, E>) {
    && (forall s :: front(s, []).More?)
    && (forall s, b :: front(s, b).Unit? ==> 0 < front(s, b).size <= |b|)
    && (forall s, b, more :: Settled(front, s, b, more))
  }

  /** Once a unit is complete or refused, bytes behind it do not matter. */
  ghost predicate Settled<S, D, E>(front: (S, Bytes) -> Front<S, D, E>, s: S, b: Bytes, more: Bytes) {
    !front(s, b).More? ==> front(s, b + more) == front(s, b)
  }

  /** Takes units off the buffer until one is incomplete or refused. */
  ghost function Drain<S(!new), D(!new), E(!new)>(front: (S, Bytes) -> Front<S, D, E>, s: S, b: Bytes): Outcome<S, D, E>
    requires Stable(front)
    decreases |b|
  {
    match front(s, b)
    case More => Outcome([], Accepted, s, b)
    case Bad(why, after) => Outcome([], Refused(why), after, b)
    case Unit(out, next, size) =>
      var r := Drain(front, next, b[size..]);
      r.(out := out + r.out)
  }

  /** Feeding the chunks one after another, stopping at the first refusal. */
  ghost function Feed<S(!new), D(!new), E(!new)>(front: (S, Bytes) -> Front<S, D, E>, s: S, buffer: Bytes,
      chunks: seq<Bytes>): Outcome<S, D, E>
    requires Stable(front)
    decreases |chunks|
  {
    if chunks == [] then Outcome([], Accepted, s, buffer) else
      var first := Drain(front, s, buffer + chunks[0]);
      if first.verdict.Refused? then first else
        var r := Feed(front, first.state, first.rest, chunks[1..]);
        r.(out := first.out + r.out)
  }

  /** Two outcomes a user of the parser cannot tell apart: the same outputs in the same order, the
      same verdict, the same state and, unless refused, the same bytes still waiting. */
  ghost predicate SameOutcome<S, D, E>(a: Outcome<S, D, E>, b: Outcome<S, D, E>) {
    && a.out == b.out
    && a.verdict == b.verdict
    && a.state == b.state
    && (a.verdict.Accepted? ==> a.rest == b.rest)
  }

  /** Draining a buffer and then draining what was left together with later bytes is the same as
      draining everything at once. */
  lemma {:induction false} DrainResumes<S(!new), D(!new), E(!new)>(
      front: (S, Bytes) -> Front<S, D, E>, s: S, b: Bytes, more: Bytes)
    requires Stable(front)
    ensures var first := Drain(front, s, b);
            var whole := Drain(front, s, b + more);
            if first.verdict.Refused? then SameOutcome(first, whole)
            else var r := Drain(front, first.state, first.rest + more);
                 SameOutcome(r.(out := first.out + r.out), whole)
    decreases |b|
  {
    hide Stable, Drain;
    SettledAt(front, s, b, more);
    DrainOnce(front, s, b);
    DrainOnce(front, s, b + more);
    if front(s, b).Unit? {
      var u := front(s, b);
      assert (b + more)[u.size..] == b[u.size..] + more;
      DrainResumes(front, u.next, b[u.size..], more);
      var first := Drain(front, u.next, b[u.size..]);
      OutputsJoin(u.out, first.out, Drain(front, first.state, first.rest + more).out);
    }
  }

  lemma SettledAt<S(!new), D(!new), E(!new)>(front: (S, Bytes) -> Front<S, D, E>, s: S, b: Bytes, more: Bytes)
    requires Stable(front)
    ensures Settled(front, s, b, more)
  {
  }

  /** One turn of the loop. */
  lemma DrainOnce<S(!new), D(!new), E(!new)>(front: (S, Bytes) -> Front<S, D, E>, s: S, b: Bytes)
    requires Stable(front)
    ensures var u := front(s, b);
            && (u.More? ==> Drain(front, s, b) == Outcome([], Accepted, s, b))
            && (u.Bad? ==> Drain(front, s, b) == Outcome([], Refused(u.why), u.after, b))
            && (u.Unit? ==>
                  && 0 < u.size <= |b|
                  && var r := Drain(front, u.next, b[u.size..]);
                  Drain(front, s, b) == r.(out := u.out + r.out))
  {
  }

  lemma OutputsJoin<D>(a: seq<D>, b: seq<D>, c: seq<D>)
    ensures a + (b + c) == a + b + c
  {
  }

  /** What is left after a success is an incomplete unit. */
  lemma {:induction false} LeftoverIncomplete<S(!new), D(!new), E(!new)>(
      front: (S, Bytes) -> Front<S, D, E>, s: S, b: Bytes)
    requires Stable(front)
    ensures var r := Drain(front, s, b);
            r.verdict.Accepted? ==> front(r.state, r.rest).More?
    decreases |b|
  {
    match front(s, b)
    case More =>
    case Bad(_, _) =>
    case Unit(out, next, size) => LeftoverIncomplete(front, next, b[size..]);
  }

  /** Chunk independence: however a byte stream is cut, feeding the pieces gives the outcome of
      feeding it whole. */
  lemma {:induction false} ChunkIndependence<S(!new), D(!new), E(!new)>(
      front: (S, Bytes) -> Front<S, D, E>, s: S, buffer: Bytes, chunks: seq<Bytes>)
    requires Stable(front)
    requires front(s, buffer).More?
    ensures SameOutcome(Feed(front, s, buffer, chunks), Drain(front, s, buffer + Flatten(chunks)))
    decreases |chunks|
  {
    if chunks == [] {
      assert buffer + Flatten(chunks) == buffer;
    } else {
      var b := buffer + chunks[0];
      var first := Drain(front, s, b);
      assert buffer + Flatten(chunks) == b + Flatten(chunks[1..]);
      DrainResumes(front, s, b, Flatten(chunks[1..]));
      if first.verdict.Accepted? {
        LeftoverIncomplete(front, s, b);
        ChunkIndependence(front, first.state, first.rest, chunks[1..]);
      }
    }
  }

  /** Outputs only ever grow: what a prefix of the stream yields is a prefix of what the stream
      yields, and a stream that is accepted has no refused prefix. */
  lemma PrefixYieldsPrefix<S(!new), D(!new), E(!new)>(front: (S, Bytes) -> Front<S, D, E>, s: S, part: Bytes,
      whole: Bytes)
    requires Stable(front) && part <= whole
    ensures Drain(front, s, part).out <= Drain(front, s, whole).out
    ensures Drain(front, s, whole).verdict.Accepted? ==> Drain(front, s, part).verdict.Accepted?
  {
    assert whole == part + whole[|part|..];
    DrainResumes(front, s, part, whole[|part|..]);
  }
}
