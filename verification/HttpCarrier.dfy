/** The server end of the HTTP carrier: sessions opened by signed requests, and uploads written to each
    session's backend connection in order. Requests run concurrently; what is one event here is what runs
    under a lock, or one write on a connection. Times are in nanoseconds. */
module HttpCarrier {
  import opened Bytes

  const SECOND := 1_000_000_000
  const IDLE := 75 * SECOND
  const LIFETIME := 7200 * SECOND
  const MEMORY := 65 * SECOND
  const WINDOW := 30
  const MAX_SEEN := 4096

  /** The longest a create request may take from the check of its signature to the hub's lock for its nonce to be sure
      to be remembered: to the nanosecond, as `OneSessionPerCreate` and `SlowCreateTwice` show. */
  const MAX_DELAY := 4 * SECOND + 1

  /** An upload in progress: the request holding the write lock, and how much of its body has been written. */
  datatype Writer = Writer(body: Bytes, done: nat)

  datatype Upload = Upload(number: nat, body: Bytes)

  /** Whether a session is one that clients use, or only keeps room for one until its create is finished. */
  datatype Stage = Placeholder | Spent | Usable

  /** A session. `backend` is everything written to its connection; `accepted` the uploads acknowledged,
      `failed` an upload that was broken off and `tail` what it had written, kept only to say what `backend` is.
      `origin` is the place in the log of the create it comes from. */
  datatype Session = Session(
    stage: Stage, origin: nat, next: nat, closed: bool, writer: Option<Writer>, last: nat, born: nat,
    backend: Bytes, accepted: seq<Upload>, failed: Option<Upload>, tail: Bytes)

  /** A signed create request: its nonce and time stamp are under the signature. */
  datatype Create = Create(nonce: Bytes, stamp: int)

  datatype Admission = Admission(request: Create, authAt: nat, at: nat)

  /** The hub. Sessions are known by their place in `objects`, so that a request can go on holding one that is
      no longer in the map; `admitted` logs the creates that were let in. */
  datatype Hub = Hub(objects: seq<Session>, sessions: map<Bytes, nat>, seen: map<Bytes, nat>, admitted: seq<Admission>)

  const EMPTY := Hub([], map[], map[], [])

  function Fresh(stage: Stage, origin: nat, now: nat): Session {
    Session(stage, origin, 0, false, None, now, now, [], [], None, [])
  }

  datatype Event =
    | BeginCreate(request: Create, authAt: nat, at: nat, id: Bytes)
    | EndCreate(id: Bytes, placeholder: nat, ok: bool, at: nat)
    | BeginPost(session: nat, number: nat, body: Bytes)
    | Write(session: nat, count: nat)
    | FailPost(id: Bytes, session: nat, count: nat)
    | FinishPost(session: nat, at: nat)
    | Remove(id: Bytes, session: nat)
    | Close(session: nat)
    | Cleanup(all: bool, at: nat)

  /** The signature check's time window, in whole seconds. */
  predicate Timely(request: Create, authAt: nat) {
    var seconds := authAt / SECOND;
    seconds - WINDOW <= request.stamp <= seconds + WINDOW
  }

  function Locked(h: Hub, i: nat): Option<Writer> {
    if i < |h.objects| then h.objects[i].writer else None
  }

  /** What can happen in a given state: a request writes only while it holds the lock, has bytes left, and the
      connection is open; it finishes only when all are written. */
  predicate Enabled(h: Hub, e: Event) {
    match e
    case BeginCreate(request, authAt, at, _) => Timely(request, authAt) && authAt <= at
    case EndCreate(_, placeholder, _, _) => placeholder < |h.objects| && h.objects[placeholder].stage.Placeholder?
    case BeginPost(i, _, _) => i < |h.objects|
    case Write(i, n) => Locked(h, i).Some? && !h.objects[i].closed
      && 0 < n <= |Locked(h, i).value.body| - Locked(h, i).value.done
    case FailPost(_, i, n) =>
      && Locked(h, i).Some? && Locked(h, i).value.done < |Locked(h, i).value.body|
      && (if h.objects[i].closed then n == 0 else n <= |Locked(h, i).value.body| - Locked(h, i).value.done)
    case FinishPost(i, _) => Locked(h, i).Some? && Locked(h, i).value.done == |Locked(h, i).value.body|
    case Remove(_, i) => i < |h.objects|
    case Close(i) => i < |h.objects|
    case Cleanup(_, _) => true
  }

  function Put(h: Hub, i: nat, s: Session): Hub
    requires i < |h.objects|
  {
    h.(objects := h.objects[i := s])
  }

  /** Forget the session under its id, if it is still there, and close its connection. */
  function Drop(h: Hub, id: Bytes, i: nat): Hub
    requires i < |h.objects|
  {
    var sessions := if id in h.sessions && h.sessions[id] == i then h.sessions - {id} else h.sessions;
    Put(h, i, h.objects[i].(closed := true)).(sessions := sessions)
  }

  predicate Stale(s: Session, all: bool, now: nat) {
    all || (now >= s.last && now - s.last > IDLE) || (now >= s.born && now - s.born > LIFETIME)
  }

  /** The ids of the sessions a cleanup removes. */
  function Gone(h: Hub, all: bool, now: nat): set<Bytes> {
    set id | id in h.sessions && h.sessions[id] < |h.objects| && Stale(h.objects[h.sessions[id]], all, now)
  }

  /** Session i, closed if one of the ids is its. */
  function Shut(h: Hub, ids: set<Bytes>, i: nat): Session
    requires i < |h.objects|
  {
    if exists id <- ids :: id in h.sessions && h.sessions[id] == i then h.objects[i].(closed := true) else h.objects[i]
  }

  lemma OneFewer(gone: set<Bytes>, left: set<Bytes>, id: Bytes)
    requires id in left
    ensures gone - (left - {id}) == if id in gone then gone - left + {id} else gone - left
  {
  }

  lemma NothingShut(h: Hub)
    ensures forall i :: 0 <= i < |h.objects| ==> Shut(h, {}, i) == h.objects[i]
  {
  }

  lemma ShutOneMore(h: Hub, ids: set<Bytes>, id: Bytes)
    requires id in h.sessions
    ensures forall i :: 0 <= i < |h.objects| ==>
              Shut(h, ids + {id}, i) == if h.sessions[id] == i then Shut(h, ids, i).(closed := true)
                else Shut(h, ids, i)
  {
    forall i | 0 <= i < |h.objects|
      ensures Shut(h, ids + {id}, i) == if h.sessions[id] == i then Shut(h, ids, i).(closed := true)
              else Shut(h, ids, i)
    {
      if h.sessions[id] == i {
        assert id in ids + {id};
      } else if x :| x in ids && x in h.sessions && h.sessions[x] == i {
        assert x in ids + {id};
      }
    }
  }

  function Swept(h: Hub, all: bool, now: nat): Hub {
    var gone := Gone(h, all, now);
    Hub(seq(|h.objects|, i requires 0 <= i < |h.objects| => Shut(h, gone, i)),
        h.sessions - gone,
        map n | n in h.seen && !(now >= h.seen[n] && now - h.seen[n] > MEMORY) :: h.seen[n],
        h.admitted)
  }

  /** The session after its upload failed, n bytes later. */
  function BrokenOff(s: Session, n: nat): Session
    requires s.writer.Some? && s.writer.value.done + n <= |s.writer.value.body|
  {
    var w := s.writer.value;
    s.(writer := None, backend := s.backend + w.body[w.done..w.done + n], tail := s.tail + w.body[..w.done + n],
       failed := if s.tail == [] then Some(Upload(s.next, w.body)) else s.failed)
  }

  predicate Admits(h: Hub, limit: nat, request: Create) {
    request.nonce !in h.seen && |h.sessions| < limit && |h.seen| < MAX_SEEN
  }

  function Step(limit: nat, h: Hub, e: Event): Hub
    requires Enabled(h, e)
  {
    match e
    case BeginCreate(request, authAt, at, id) =>
      if !Admits(h, limit, request) then h
      else Hub(h.objects + [Fresh(Placeholder, |h.admitted|, at)], h.sessions[id := |h.objects|],
        h.seen[request.nonce := at], h.admitted + [Admission(request, authAt, at)])
    case EndCreate(id, p, ok, at) =>
      var spent := Put(h, p, h.objects[p].(stage := Spent));
      if !ok then Drop(spent, id, p)
      else if id in h.sessions && h.sessions[id] == p then
        spent.(objects := spent.objects + [Fresh(Usable, h.objects[p].origin, at)],
          sessions := h.sessions[id := |h.objects|])
      else spent
    case BeginPost(i, number, body) =>
      var s := h.objects[i];
      if body == [] || s.writer.Some? || number != s.next then h
      else Put(h, i, s.(writer := Some(Writer(body, 0))))
    case Write(i, n) =>
      var s := h.objects[i];
      var w := s.writer.value;
      Put(h, i, s.(writer := Some(Writer(w.body, w.done + n)), backend := s.backend + w.body[w.done..w.done + n]))
    case FailPost(id, i, n) => Drop(Put(h, i, BrokenOff(h.objects[i], n)), id, i)
    case FinishPost(i, at) =>
      var s := h.objects[i];
      Put(h, i, s.(writer := None, next := s.next + 1, last := at,
        accepted := s.accepted + [Upload(s.next, s.writer.value.body)]))
    case Remove(id, i) => Drop(h, id, i)
    case Close(i) => Put(h, i, h.objects[i].(closed := true))
    case Cleanup(all, now) => Swept(h, all, now)
  }

  // ---------------------------------------------------------------------- uploads

  function Bodies(us: seq<Upload>): Bytes {
    if us == [] then [] else Bodies(us[..|us| - 1]) + us[|us| - 1].body
  }

  predicate InNumber(us: seq<Upload>) {
    forall k :: 0 <= k < |us| ==> us[k].number == k && us[k].body != []
  }

  /** The backend has got the acknowledged bodies, numbered from 0, in order and once each, then what a failed
      upload managed to write, then what the present one has. A failed upload has closed the session. */
  predicate InOrder(s: Session) {
    && s.backend == Bodies(s.accepted) + s.tail + (if s.writer.Some? && s.writer.value.done <= |s.writer.value.body|
                                                   then s.writer.value.body[..s.writer.value.done] else [])
    && |s.accepted| == s.next
    && InNumber(s.accepted)
    && (s.writer.Some? ==> s.writer.value.done <= |s.writer.value.body| && s.writer.value.body != [])
    && (s.tail != [] ==> s.closed && (s.writer.Some? ==> s.writer.value.done == 0))
    && (s.tail != [] ==> s.failed.Some? && s.failed.value.number == s.next && s.tail <= s.failed.value.body)
  }

  /** The map knows only sessions that exist, and no more than the limit. */
  predicate Valid(limit: nat, h: Hub) {
    && |h.sessions| <= limit
    && (forall id <- h.sessions :: h.sessions[id] < |h.objects|)
    && (forall i :: 0 <= i < |h.objects| ==> InOrder(h.objects[i]))
  }

  lemma PutValid(limit: nat, h: Hub, i: nat, s: Session)
    requires Valid(limit, h) && i < |h.objects| && InOrder(s)
    ensures Valid(limit, Put(h, i, s))
  {
  }

  lemma DropValid(limit: nat, h: Hub, id: Bytes, i: nat)
    requires Valid(limit, h) && i < |h.objects|
    ensures Valid(limit, Drop(h, id, i))
  {
    PutValid(limit, h, i, h.objects[i].(closed := true));
    SmallerMap(h.sessions, h.sessions - {id});
  }

  lemma SmallerMap<V>(a: map<Bytes, V>, b: map<Bytes, V>)
    requires b.Keys <= a.Keys
    ensures |b| <= |a|
  {
    assert a.Keys == b.Keys + (a.Keys - b.Keys);
  }

  lemma BiggerMap<V>(a: map<Bytes, V>, id: Bytes, v: V)
    ensures |a[id := v]| <= |a| + 1
    ensures id in a ==> |a[id := v]| == |a|
  {
    assert a[id := v].Keys == a.Keys + {id};
  }

  lemma WriteInOrder(s: Session, n: nat)
    requires InOrder(s) && s.writer.Some? && !s.closed && n <= |s.writer.value.body| - s.writer.value.done
    ensures var w := s.writer.value;
            InOrder(s.(writer := Some(Writer(w.body, w.done + n)), backend := s.backend + w.body[w.done..w.done + n]))
  {
    hide Bodies, InNumber;
    var w := s.writer.value;
    BodyGrows(w.body, w.done, n);
    TailGrows(Bodies(s.accepted), s.tail, w.body[..w.done], w.body[w.done..w.done + n]);
  }

  lemma TailGrows(bodies: Bytes, tail: Bytes, begun: Bytes, more: Bytes)
    ensures (bodies + tail + begun) + more == bodies + (tail + (begun + more)) + []
    ensures (bodies + tail + begun) + more == bodies + tail + (begun + more)
  {
  }

  lemma BodyGrows(body: Bytes, done: nat, n: nat)
    requires done + n <= |body|
    ensures body[..done + n] == body[..done] + body[done..done + n]
  {
  }

  lemma FailInOrder(s: Session, n: nat)
    requires InOrder(s) && s.writer.Some? && n <= |s.writer.value.body| - s.writer.value.done && (s.closed ==> n == 0)
    ensures InOrder(BrokenOff(s, n).(closed := true))
  {
    if s.tail == [] {
      FailFirst(s, n);
    } else {
      FailLater(s);
    }
  }

  /** The first upload that fails leaves what it wrote. */
  lemma FailFirst(s: Session, n: nat)
    requires InOrder(s) && s.writer.Some? && n <= |s.writer.value.body| - s.writer.value.done && s.tail == []
    ensures InOrder(BrokenOff(s, n).(closed := true))
  {
    hide Bodies, InNumber;
    var w := s.writer.value;
    BodyGrows(w.body, w.done, n);
    TailGrows(Bodies(s.accepted), [], w.body[..w.done], w.body[w.done..w.done + n]);
  }

  /** Any later one finds the connection closed and leaves nothing. */
  lemma FailLater(s: Session)
    requires InOrder(s) && s.writer.Some? && s.tail != []
    ensures InOrder(BrokenOff(s, 0).(closed := true))
  {
    hide Bodies, InNumber;
    var w := s.writer.value;
    assert w.body[..0] == [] && w.body[0..0] == [] && s.tail + [] == s.tail && s.backend + [] == s.backend;
  }

  lemma FinishInOrder(s: Session, at: nat)
    requires InOrder(s) && s.writer.Some? && s.writer.value.done == |s.writer.value.body|
    ensures InOrder(s.(writer := None, next := s.next + 1, last := at,
            accepted := s.accepted + [Upload(s.next, s.writer.value.body)]))
  {
    var w, us := s.writer.value, s.accepted + [Upload(s.next, s.writer.value.body)];
    assert us[..|us| - 1] == s.accepted && w.body[..w.done] == w.body;
    assert s.backend == Bodies(us) + [] + [];
  }

  lemma FreshInOrder()
    ensures forall stage, origin, at :: InOrder(Fresh(stage, origin, at))
    ensures forall s, stage :: InOrder(s) ==> InOrder(s.(stage := stage))
  {
  }

  lemma CreateValid(limit: nat, h: Hub, e: Event)
    requires Valid(limit, h) && Enabled(h, e) && (e.BeginCreate? || e.EndCreate?)
    ensures Valid(limit, Step(limit, h, e))
  {
    hide InOrder;
    FreshInOrder();
    BiggerMap(h.sessions, e.id, |h.objects|);
    if e.EndCreate? {
      PutValid(limit, h, e.placeholder, h.objects[e.placeholder].(stage := Spent));
      if !e.ok {
        DropValid(limit, Put(h, e.placeholder, h.objects[e.placeholder].(stage := Spent)), e.id, e.placeholder);
      }
    }
  }

  lemma BeginInOrder(s: Session, body: Bytes)
    requires InOrder(s) && s.writer.None? && body != []
    ensures InOrder(s.(writer := Some(Writer(body, 0))))
  {
    hide Bodies;
    assert s.backend + [] == s.backend && body[..0] == [];
  }

  lemma UploadValid(limit: nat, h: Hub, e: Event)
    requires Valid(limit, h) && Enabled(h, e) && (e.BeginPost? || e.Write? || e.FinishPost?)
    ensures Valid(limit, Step(limit, h, e))
  {
    hide InOrder;
    var i := e.session;
    var s := h.objects[i];
    assert InOrder(s);
    match e
    case BeginPost(_, number, body) =>
      if body != [] && s.writer.None? && number == s.next {
        BeginInOrder(s, body);
      }
    case Write(_, n) => WriteInOrder(s, n);
    case FinishPost(_, at) => FinishInOrder(s, at);
  }

  lemma StepValid(limit: nat, h: Hub, e: Event)
    requires Valid(limit, h) && Enabled(h, e)
    ensures Valid(limit, Step(limit, h, e))
  {
    match e
    case BeginCreate(_, _, _, _) => CreateValid(limit, h, e);
    case EndCreate(_, _, _, _) => CreateValid(limit, h, e);
    case BeginPost(_, _, _) => UploadValid(limit, h, e);
    case Write(_, _) => UploadValid(limit, h, e);
    case FinishPost(_, _) => UploadValid(limit, h, e);
    case FailPost(id, i, n) => FailValid(limit, h, id, i, n);
    case Remove(id, i) => DropValid(limit, h, id, i);
    case Close(i) => PutValid(limit, h, i, h.objects[i].(closed := true));
    case Cleanup(all, now) => SweptValid(limit, h, all, now);
  }

  lemma FailValid(limit: nat, h: Hub, id: Bytes, i: nat, n: nat)
    requires Valid(limit, h) && Enabled(h, FailPost(id, i, n))
    ensures Valid(limit, Step(limit, h, FailPost(id, i, n)))
  {
    hide InOrder, BrokenOff;
    var s := h.objects[i];
    FailInOrder(s, n);
    PutValid(limit, h, i, BrokenOff(s, n).(closed := true));
    SmallerMap(h.sessions, h.sessions - {id});
    var r := Step(limit, h, FailPost(id, i, n));
    assert r.objects == h.objects[i := BrokenOff(s, n).(closed := true)];
  }

  /** With a clock that does not go back, a cleanup removes exactly the sessions that have been idle for more than 75
      seconds or are older than two hours, or all, and closes those and no others. */
  lemma SweptExact(h: Hub, all: bool, now: nat, id: Bytes)
    requires id in h.sessions && h.sessions[id] < |h.objects|
    requires h.objects[h.sessions[id]].last <= now && h.objects[h.sessions[id]].born <= now
    ensures var s := h.objects[h.sessions[id]];
            id !in Swept(h, all, now).sessions <==> all || now - s.last > 75 * SECOND || now - s.born > 7200 * SECOND
    ensures var r := Swept(h, all, now);
            && (id !in r.sessions ==> r.objects[h.sessions[id]].closed)
            && (id in r.sessions ==> r.sessions[id] == h.sessions[id])
  {
    if id in Gone(h, all, now) {
      assert Shut(h, Gone(h, all, now), h.sessions[id]).closed;
    }
  }

  lemma SweptValid(limit: nat, h: Hub, all: bool, now: nat)
    requires Valid(limit, h)
    ensures Valid(limit, Swept(h, all, now))
  {
    var r := Swept(h, all, now);
    SmallerMap(h.sessions, r.sessions);
    forall i | 0 <= i < |r.objects|
      ensures InOrder(r.objects[i])
    {
      assert InOrder(h.objects[i]);
    }
  }

  predicate Allowed(limit: nat, h: Hub, es: seq<Event>)
    decreases |es|
  {
    es != [] ==> Enabled(h, es[0]) && Allowed(limit, Step(limit, h, es[0]), es[1..])
  }

  function Run(limit: nat, h: Hub, es: seq<Event>): Hub
    requires Allowed(limit, h, es)
    decreases |es|
  {
    if es == [] then h else Run(limit, Step(limit, h, es[0]), es[1..])
  }

  lemma {:induction false} RunValid(limit: nat, h: Hub, es: seq<Event>)
    requires Valid(limit, h) && Allowed(limit, h, es)
    ensures Valid(limit, Run(limit, h, es))
    decreases |es|
  {
    if es != [] {
      StepValid(limit, h, es[0]);
      RunValid(limit, Step(limit, h, es[0]), es[1..]);
    }
  }

  /** Everything the session knows of uploads came with a request for it, under its number. */
  ghost predicate FromRequests(past: seq<Event>, i: nat, s: Session) {
    && (forall k :: 0 <= k < |s.accepted| ==> BeginPost(i, s.accepted[k].number, s.accepted[k].body) in past)
    && (s.writer.Some? ==> BeginPost(i, s.next, s.writer.value.body) in past)
    && (s.failed.Some? ==> BeginPost(i, s.failed.value.number, s.failed.value.body) in past)
  }

  ghost predicate AllFromRequests(past: seq<Event>, h: Hub) {
    forall i: nat :: i < |h.objects| ==> FromRequests(past, i, h.objects[i])
  }

  /** The session has the same uploads as before. */
  predicate SameUploads(s: Session, r: Session) {
    r.next == s.next && r.accepted == s.accepted && r.failed == s.failed &&
    (r.writer.Some? ==> s.writer.Some? && r.writer.value.body == s.writer.value.body)
  }

  lemma SameRequests(past: seq<Event>, e: Event, i: nat, s: Session, r: Session)
    requires FromRequests(past, i, s) && SameUploads(s, r)
    ensures FromRequests(past + [e], i, r)
  {
  }

  /** The event is about an upload to this session. */
  predicate Concerns(e: Event, i: nat) {
    (e.BeginPost? || e.FailPost? || e.FinishPost?) && e.session == i
  }

  lemma Unconcerned(limit: nat, h: Hub, e: Event, i: nat)
    requires Enabled(h, e) && i < |h.objects| && !Concerns(e, i)
    ensures i < |Step(limit, h, e).objects| && SameUploads(h.objects[i], Step(limit, h, e).objects[i])
  {
    hide Timely, Admits, Gone;
    if e.Cleanup? {
      assert Step(limit, h, e).objects[i] == Shut(h, Gone(h, e.all, e.at), i);
    }
  }

  lemma Concerned(limit: nat, past: seq<Event>, h: Hub, e: Event, i: nat)
    requires Enabled(h, e) && i < |h.objects| && Concerns(e, i) && FromRequests(past, i, h.objects[i])
    ensures i < |Step(limit, h, e).objects| && FromRequests(past + [e], i, Step(limit, h, e).objects[i])
  {
    var s := h.objects[i];
    match e
    case BeginPost(_, number, body) =>
      if body == [] || s.writer.Some? || number != s.next {
        SameRequests(past, e, i, s, s);
      }
    case FailPost(_, _, n) =>
      SameRequests(past, e, i, s, s.(writer := None));
      assert Step(limit, h, e).objects[i] == BrokenOff(s, n).(closed := true);
    case FinishPost(_, _) =>
      SameRequests(past, e, i, s, s.(writer := None));
  }

  /** A session that is not there yet has no uploads. */
  lemma NewSession(limit: nat, h: Hub, e: Event, i: nat)
    requires Enabled(h, e) && |h.objects| <= i < |Step(limit, h, e).objects|
    ensures var r := Step(limit, h, e).objects[i]; r.accepted == [] && r.writer.None? && r.failed.None?
  {
    hide Timely, Gone, Shut, Admits;
  }

  /** What one step does to one session's uploads. */
  lemma StepUploads(limit: nat, past: seq<Event>, h: Hub, e: Event, i: nat)
    requires Enabled(h, e) && AllFromRequests(past, h) && i < |Step(limit, h, e).objects|
    ensures FromRequests(past + [e], i, Step(limit, h, e).objects[i])
  {
    hide Enabled, Step;
    if i >= |h.objects| {
      NewSession(limit, h, e, i);
    } else if Concerns(e, i) {
      Concerned(limit, past, h, e, i);
    } else {
      Unconcerned(limit, h, e, i);
      SameRequests(past, e, i, h.objects[i], Step(limit, h, e).objects[i]);
    }
  }

  lemma {:induction false} RunUploads(limit: nat, past: seq<Event>, h: Hub, es: seq<Event>)
    requires Allowed(limit, h, es) && AllFromRequests(past, h)
    ensures AllFromRequests(past + es, Run(limit, h, es))
    decreases |es|
  {
    hide FromRequests, Enabled, Step;
    if es == [] {
      assert past + es == past;
    } else {
      var next := Step(limit, h, es[0]);
      forall i: nat | i < |next.objects|
        ensures FromRequests(past + [es[0]], i, next.objects[i])
      {
        StepUploads(limit, past, h, es[0], i);
      }
      RunUploads(limit, past + [es[0]], next, es[1..]);
      assert past + [es[0]] + es[1..] == past + es;
    }
  }

  /** What the backend has got behind the acknowledged bodies. */
  function Begun(s: Session): Bytes {
    if s.writer.Some? && s.tail == [] && s.writer.value.done <= |s.writer.value.body|
    then s.writer.value.body[..s.writer.value.done] else s.tail
  }

  /** Some request for the session, with this number, has a body that starts like this. */
  ghost predicate BeginsUpload(es: seq<Event>, i: nat, number: nat, part: Bytes) {
    exists body :: BeginPost(i, number, body) in es && part <= body
  }

  /** Whatever requests come, however they interleave: sessions never exceed the limit, and every session's backend
      holds bodies of requests for it numbered 0, 1, 2, ... in order, once each, and then at most a prefix of the body
      of one request with the next number; if that request no longer holds the lock, the session is closed. */
  lemma UploadsInOrder(limit: nat, es: seq<Event>, i: nat)
    requires Allowed(limit, EMPTY, es) && i < |Run(limit, EMPTY, es).objects|
    ensures |Run(limit, EMPTY, es).sessions| <= limit
    ensures var s := Run(limit, EMPTY, es).objects[i];
            && s.backend == Bodies(s.accepted) + Begun(s)
            && |s.accepted| == s.next
            && (forall k :: 0 <= k < s.next ==>
                  s.accepted[k].number == k && BeginPost(i, k, s.accepted[k].body) in es)
            && (Begun(s) != [] ==> BeginsUpload(es, i, s.next, Begun(s)))
            && (Begun(s) != [] && s.writer.None? ==> s.closed)
  {
    hide Bodies, Allowed, Run;
    RunValid(limit, EMPTY, es);
    RunUploads(limit, [], EMPTY, es);
    assert [] + es == es;
    var s := Run(limit, EMPTY, es).objects[i];
    assert InOrder(s) && FromRequests(es, i, s);
    if s.tail == [] && s.writer.Some? {
      assert s.writer.value.body[..s.writer.value.done] <= s.writer.value.body;
      assert Bodies(s.accepted) + [] + Begun(s) == Bodies(s.accepted) + Begun(s);
    } else {
      assert s.writer.Some? ==> s.writer.value.body[..0] == [];
      assert Bodies(s.accepted) + s.tail + [] == Bodies(s.accepted) + s.tail;
    }
  }

  /** A closed session stays closed, and nothing more is written to its backend. */
  lemma {:induction false} ClosedStaysSilent(limit: nat, h: Hub, es: seq<Event>, i: nat)
    requires Allowed(limit, h, es) && i < |h.objects| && h.objects[i].closed
    ensures var r := Run(limit, h, es);
            i < |r.objects| && r.objects[i].closed && r.objects[i].backend == h.objects[i].backend
    decreases |es|
  {
    if es != [] {
      ClosedStep(limit, h, es[0], i);
      ClosedStaysSilent(limit, Step(limit, h, es[0]), es[1..], i);
    }
  }

  predicate Silent(before: Session, after: Session) {
    after.closed && after.backend == before.backend
  }

  lemma ClosedStep(limit: nat, h: Hub, e: Event, i: nat)
    requires Enabled(h, e) && i < |h.objects| && h.objects[i].closed
    ensures var r := Step(limit, h, e); i < |r.objects| && Silent(h.objects[i], r.objects[i])
  {
    match e
    case FailPost(id, j, n) => ClosedFail(limit, h, e, i);
    case Cleanup(all, now) => assert Step(limit, h, e).objects[i] == Shut(h, Gone(h, all, now), i);
    case BeginCreate(_, _, _, _) =>
    case EndCreate(_, _, _, _) =>
    case BeginPost(_, _, _) =>
    case Write(_, _) =>
    case FinishPost(_, _) =>
    case Remove(_, _) =>
    case Close(_) =>
  }

  lemma ClosedFail(limit: nat, h: Hub, e: Event, i: nat)
    requires e.FailPost? && Enabled(h, e) && i < |h.objects| && h.objects[i].closed
    ensures var r := Step(limit, h, e); i < |r.objects| && Silent(h.objects[i], r.objects[i])
  {
    if e.session == i {
      var w := h.objects[i].writer.value;
      assert h.objects[i].backend + w.body[w.done..w.done] == h.objects[i].backend;
    }
  }

  // ---------------------------------------------------------------------- creates

  predicate Clocked(from: nat, es: seq<Event>)
    decreases |es|
  {
    if es == [] then true
    else match es[0]
      case BeginCreate(_, _, at, _) => from <= at && Clocked(at, es[1..])
      case Cleanup(_, at) => from <= at && Clocked(at, es[1..])
      case _ => Clocked(from, es[1..])
  }

  /** A create that was let in is remembered, or it is too late for its signature to pass again. */
  ghost predicate Remembered(h: Hub, now: nat) {
    forall k :: 0 <= k < |h.admitted| ==> RememberedOne(h, h.admitted[k], now)
  }

  predicate RememberedOne(h: Hub, o: Admission, now: nat) {
    && o.authAt <= o.at <= now && Timely(o.request, o.authAt)
    && ((o.request.nonce in h.seen && h.seen[o.request.nonce] >= o.at) || now > o.at + MEMORY)
  }

  ghost predicate OnceEach(admitted: seq<Admission>) {
    forall j, k :: 0 <= j < k < |admitted| ==> admitted[j].request != admitted[k].request
  }

  /** The creates reach the hub's lock in time. */
  predicate Prompt(delay: nat, es: seq<Event>) {
    forall k :: 0 <= k < |es| && es[k].BeginCreate? ==> es[k].at <= es[k].authAt + delay
  }

  /** Two checks of one signature are less than 61 seconds apart, and taking the lock adds at most four and a
      nanosecond: the 65 seconds of memory are just enough. */
  lemma SignatureOutlived(request: Create, first: nat, locked: nat, second: nat, at: nat)
    requires Timely(request, first) && Timely(request, second)
    requires first <= locked && second <= at <= second + MAX_DELAY
    ensures at <= locked + MEMORY
  {
    assert second / SECOND <= first / SECOND + 2 * WINDOW;
    assert second < (second / SECOND + 1) * SECOND;
    assert (first / SECOND) * SECOND <= first;
  }

  lemma CreateRemembers(limit: nat, h: Hub, e: Event, now: nat)
    requires e.BeginCreate? && Enabled(h, e) && e.at <= e.authAt + MAX_DELAY
    requires now <= e.at && Remembered(h, now) && OnceEach(h.admitted)
    ensures Remembered(Step(limit, h, e), e.at) && OnceEach(Step(limit, h, e).admitted)
  {
    var r := Step(limit, h, e);
    forall k | 0 <= k < |r.admitted|
      ensures RememberedOne(r, r.admitted[k], e.at)
      ensures Admits(h, limit, e.request) && k < |h.admitted| ==> h.admitted[k].request != e.request
    {
      if k < |h.admitted| {
        var o := h.admitted[k];
        assert RememberedOne(h, o, now);
        if o.request == e.request {
          SignatureOutlived(e.request, o.authAt, o.at, e.authAt, e.at);
        }
      }
    }
  }

  lemma {:induction false} CreatesOnce(limit: nat, h: Hub, es: seq<Event>, now: nat)
    requires Allowed(limit, h, es) && Clocked(now, es) && Prompt(MAX_DELAY, es)
    requires Remembered(h, now) && OnceEach(h.admitted)
    ensures OnceEach(Run(limit, h, es).admitted)
    decreases |es|
  {
    if es != [] {
      var e, r := es[0], Step(limit, h, es[0]);
      var later := if e.BeginCreate? || e.Cleanup? then e.at else now;
      if e.BeginCreate? {
        CreateRemembers(limit, h, e, now);
      } else {
        assert r.admitted == h.admitted;
        forall k | 0 <= k < |r.admitted|
          ensures RememberedOne(r, r.admitted[k], later)
        {
          assert RememberedOne(h, h.admitted[k], now);
        }
      }
      CreatesOnce(limit, r, es[1..], later);
    }
  }

  /** Sessions that are usable, or may still become so, come from different creates in the log. */
  ghost predicate Origins(h: Hub) {
    forall j, k :: 0 <= j < k < |h.objects| ==> OriginsDiffer(h, j, k)
  }

  predicate OriginsDiffer(h: Hub, j: nat, k: nat)
    requires j < k < |h.objects|
  {
    var a, b := h.objects[j], h.objects[k];
    !a.stage.Spent? && !b.stage.Spent? ==> a.origin != b.origin
  }

  ghost predicate Logged(h: Hub) {
    forall k :: 0 <= k < |h.objects| ==> h.objects[k].origin < |h.admitted|
  }

  /** All steps but the two halves of a create leave stages and origins alone. */
  lemma StagesKept(limit: nat, h: Hub, e: Event)
    requires Enabled(h, e) && !e.BeginCreate? && !e.EndCreate?
    ensures var r := Step(limit, h, e);
            && |r.objects| == |h.objects| && r.admitted == h.admitted
            && forall k :: 0 <= k < |h.objects|
                 ==> r.objects[k].stage == h.objects[k].stage && r.objects[k].origin == h.objects[k].origin
  {
  }

  lemma StepOrigins(limit: nat, h: Hub, e: Event)
    requires Enabled(h, e) && Origins(h) && Logged(h)
    ensures Origins(Step(limit, h, e)) && Logged(Step(limit, h, e))
  {
    if e.BeginCreate? || e.EndCreate? {
      CreateOrigins(limit, h, e);
    } else {
      StagesKept(limit, h, e);
      SameOrigins(h, Step(limit, h, e));
    }
  }

  lemma SameOrigins(h: Hub, r: Hub)
    requires Origins(h) && Logged(h) && |r.objects| == |h.objects| && r.admitted == h.admitted
    requires forall k :: 0 <= k < |h.objects| ==>
               r.objects[k].stage == h.objects[k].stage && r.objects[k].origin == h.objects[k].origin
    ensures Origins(r) && Logged(r)
  {
    forall j, k | 0 <= j < k < |r.objects|
      ensures OriginsDiffer(r, j, k)
    {
      assert OriginsDiffer(h, j, k);
    }
  }

  lemma CreateOrigins(limit: nat, h: Hub, e: Event)
    requires Enabled(h, e) && Origins(h) && Logged(h) && (e.BeginCreate? || e.EndCreate?)
    ensures Origins(Step(limit, h, e)) && Logged(Step(limit, h, e))
  {
    if e.BeginCreate? {
      BeginOrigins(limit, h, e);
    } else {
      EndOrigins(limit, h, e);
    }
  }

  lemma BeginOrigins(limit: nat, h: Hub, e: Event)
    requires Enabled(h, e) && Origins(h) && Logged(h) && e.BeginCreate?
    ensures Origins(Step(limit, h, e)) && Logged(Step(limit, h, e))
  {
    var r := Step(limit, h, e);
    forall j, k | 0 <= j < k < |r.objects|
      ensures OriginsDiffer(r, j, k)
    {
      if k < |h.objects| {
        assert OriginsDiffer(h, j, k);
      }
    }
  }

  lemma EndOrigins(limit: nat, h: Hub, e: Event)
    requires Enabled(h, e) && Origins(h) && Logged(h) && e.EndCreate?
    ensures Origins(Step(limit, h, e)) && Logged(Step(limit, h, e))
  {
    var r := Step(limit, h, e);
    forall j, k | 0 <= j < k < |r.objects|
      ensures OriginsDiffer(r, j, k)
    {
      if k < |h.objects| {
        assert OriginsDiffer(h, j, k);
      } else if j != e.placeholder {
        assert if j < e.placeholder then OriginsDiffer(h, j, e.placeholder) else OriginsDiffer(h, e.placeholder, j);
      }
    }
  }

  lemma {:induction false} RunOrigins(limit: nat, h: Hub, es: seq<Event>)
    requires Allowed(limit, h, es) && Origins(h) && Logged(h)
    ensures Origins(Run(limit, h, es)) && Logged(Run(limit, h, es))
    decreases |es|
  {
    if es != [] {
      StepOrigins(limit, h, es[0]);
      RunOrigins(limit, Step(limit, h, es[0]), es[1..]);
    }
  }

  /** Different usable sessions come of different signed requests. */
  ghost predicate SessionsDiffer(h: Hub)
    requires Logged(h)
  {
    forall j, k :: 0 <= j < k < |h.objects| && h.objects[j].stage.Usable? && h.objects[k].stage.Usable? ==>
      h.admitted[h.objects[j].origin].request != h.admitted[h.objects[k].origin].request
  }

  lemma RunLogged(limit: nat, es: seq<Event>)
    requires Allowed(limit, EMPTY, es)
    ensures Logged(Run(limit, EMPTY, es))
  {
    RunOrigins(limit, EMPTY, es);
  }

  /** In every run in which creates reach the lock in time, however often a signed create request is replayed, it is let
      in at most once and at most one session comes of it. */
  lemma OneSessionPerCreate(limit: nat, es: seq<Event>)
    requires Allowed(limit, EMPTY, es) && Clocked(0, es) && Prompt(MAX_DELAY, es)
    ensures OnceEach(Run(limit, EMPTY, es).admitted)
    ensures Logged(Run(limit, EMPTY, es)) && SessionsDiffer(Run(limit, EMPTY, es))
  {
    CreatesOnce(limit, EMPTY, es, 0);
    RunOrigins(limit, EMPTY, es);
    var h := Run(limit, EMPTY, es);
    forall j, k | 0 <= j < k < |h.objects| && h.objects[j].stage.Usable? && h.objects[k].stage.Usable?
      ensures h.admitted[h.objects[j].origin].request != h.admitted[h.objects[k].origin].request
    {
      assert OriginsDiffer(h, j, k);
    }
  }

  /** One create at time 0. */
  function FirstTime(nonce: Bytes): seq<Event> {
    [BeginCreate(Create(nonce, WINDOW), 0, 0, [0]), EndCreate([0], 0, true, 0)]
  }

  /** The last moment at which the check of that create's signature can still pass. */
  const LAST_CHECK := 2 * WINDOW * SECOND + SECOND - 1

  /** A cleanup that forgets the nonce, and the same create again, checked as late as its time stamp allows and then
      held up for so long. */
  function SecondTime(nonce: Bytes, delay: nat): seq<Event> {
    var late := LAST_CHECK + delay;
    [Cleanup(false, late), BeginCreate(Create(nonce, WINDOW), LAST_CHECK, late, [1]), EndCreate([1], 2, true, late)]
  }

  function SlowReplay(nonce: Bytes, delay: nat): seq<Event> {
    FirstTime(nonce) + SecondTime(nonce, delay)
  }

  /** The same, with the first session deleted in between. */
  function SlowReplayAfterDelete(nonce: Bytes, delay: nat): seq<Event> {
    FirstTime(nonce) + [Remove([0], 1)] + SecondTime(nonce, delay)
  }

  lemma OneEvent(limit: nat, h: Hub, e: Event)
    requires Enabled(h, e)
    ensures Allowed(limit, h, [e]) && Run(limit, h, [e]) == Step(limit, h, e)
  {
    hide Enabled, Step;
    assert [e][1..] == [];
    assert Run(limit, Step(limit, h, e), []) == Step(limit, h, e);
  }

  lemma {:induction false} RunOn(limit: nat, h: Hub, a: seq<Event>, b: seq<Event>)
    requires Allowed(limit, h, a) && Allowed(limit, Run(limit, h, a), b)
    ensures Allowed(limit, h, a + b) && Run(limit, h, a + b) == Run(limit, Run(limit, h, a), b)
    decreases |a|
  {
    hide Enabled, Step;
    if a == [] {
      assert a + b == b;
    } else {
      assert (a + b)[0] == a[0] && (a + b)[1..] == a[1..] + b;
      RunOn(limit, Step(limit, h, a[0]), a[1..], b);
    }
  }

  /** A hub after its first create. */
  function Opened(nonce: Bytes): Hub {
    Hub([Fresh(Placeholder, 0, 0).(stage := Spent), Fresh(Usable, 0, 0)], map[[0 as Byte] := 1], map[nonce := 0],
        [Admission(Create(nonce, WINDOW), 0, 0)])
  }

  lemma FirstCreate(limit: nat, nonce: Bytes)
    requires limit >= 1
    ensures Allowed(limit, EMPTY, FirstTime(nonce)) && Run(limit, EMPTY, FirstTime(nonce)) == Opened(nonce)
  {
    var es := FirstTime(nonce);
    var h := Step(limit, EMPTY, es[0]);
    FirstHalf(limit, nonce);
    SecondHalf(limit, nonce);
    hide Step, Enabled;
    OneEvent(limit, EMPTY, es[0]);
    OneEvent(limit, h, es[1]);
    RunOn(limit, EMPTY, [es[0]], [es[1]]);
    assert es == [es[0]] + [es[1]];
  }

  function Halfway(nonce: Bytes): Hub {
    Hub([Fresh(Placeholder, 0, 0)], map[[0 as Byte] := 0], map[nonce := 0], [Admission(Create(nonce, WINDOW), 0, 0)])
  }

  lemma FirstHalf(limit: nat, nonce: Bytes)
    requires limit >= 1
    ensures var e := FirstTime(nonce)[0]; Enabled(EMPTY, e) && Step(limit, EMPTY, e) == Halfway(nonce)
  {
  }

  lemma SecondHalf(limit: nat, nonce: Bytes)
    ensures var e := FirstTime(nonce)[1]; Enabled(Halfway(nonce), e) && Step(limit, Halfway(nonce), e) == Opened(nonce)
  {
    assert map[[0 as Byte] := 0][[0 as Byte] := 1] == map[[0 as Byte] := 1];
    assert [Fresh(Placeholder, 0, 0)][0 := Fresh(Placeholder, 0, 0).(stage := Spent)]
           == [Fresh(Placeholder, 0, 0).(stage := Spent)];
  }

  /** A hub that remembers one create and has nothing but its two objects. */
  predicate Remembers(h: Hub, nonce: Bytes) {
    && |h.objects| == 2 && h.objects[1].stage.Usable? && h.objects[1].origin == 0
    && h.seen == map[nonce := 0] && h.admitted == [Admission(Create(nonce, WINDOW), 0, 0)]
  }

  lemma OpenedRemembers(nonce: Bytes, now: nat)
    ensures var h := Opened(nonce);
            && Remembers(h, nonce) && |h.sessions| == 1 && !h.objects[1].closed
            && (now <= IDLE ==> !Stale(h.objects[1], false, now))
  {
  }

  /** A cleanup late enough forgets the nonce, and keeps what the create made. */
  lemma SweptLater(h: Hub, nonce: Bytes, now: nat)
    requires Remembers(h, nonce) && now > MEMORY
    ensures var r := Swept(h, false, now);
            && r.seen == map[] && |r.sessions| <= |h.sessions| && r.admitted == h.admitted && |r.objects| == 2
            && r.objects[1].stage.Usable? && r.objects[1].origin == 0
            && (r.objects[1].closed ==> h.objects[1].closed || Stale(h.objects[1], false, now))
  {
    var r := Swept(h, false, now);
    hide Gone, Shut, Stale;
    assert r.seen == map[];
    SmallerMap(h.sessions, h.sessions - Gone(h, false, now));
    ShutKeeps(h, false, now, 1);
  }

  lemma ShutKeeps(h: Hub, all: bool, now: nat, i: nat)
    requires i < |h.objects|
    ensures var r := Shut(h, Gone(h, all, now), i);
            && r.stage == h.objects[i].stage && r.origin == h.objects[i].origin
            && (r.closed ==> h.objects[i].closed || Stale(h.objects[i], all, now))
  {
  }

  /** What a create let in twice leaves: two sessions of the same request. */
  ghost predicate OpenedTwice(h: Hub) {
    && Logged(h) && !SessionsDiffer(h) && !OnceEach(h.admitted)
    && |h.objects| == 4 && !h.objects[3].closed
  }

  /** The second create, in a hub that has forgotten the first. */
  lemma AdmittedAgain(limit: nat, h: Hub, nonce: Bytes, late: nat)
    requires |h.objects| == 2 && h.seen == map[] && |h.sessions| < limit && |h.admitted| == 1 && LAST_CHECK <= late
    ensures var begin, end := BeginCreate(Create(nonce, WINDOW), LAST_CHECK, late, [1]), EndCreate([1], 2, true, late);
            && Enabled(h, begin)
            && var half := Step(limit, h, begin);
            && Enabled(half, end)
            && var r := Step(limit, half, end);
            && |r.objects| == 4 && r.objects[1] == h.objects[1] && r.objects[3] == Fresh(Usable, 1, late)
            && r.admitted == h.admitted + [Admission(Create(nonce, WINDOW), LAST_CHECK, late)]
  {
  }

  lemma Cleaned(limit: nat, h: Hub, now: nat)
    ensures Enabled(h, Cleanup(false, now)) && Step(limit, h, Cleanup(false, now)) == Swept(h, false, now)
  {
  }

  /** The two halves of the second create. */
  lemma Reopened(limit: nat, h: Hub, nonce: Bytes, late: nat)
    requires |h.objects| == 2 && h.seen == map[] && |h.sessions| < limit && |h.admitted| == 1 && LAST_CHECK <= late
    ensures var es := [BeginCreate(Create(nonce, WINDOW), LAST_CHECK, late, [1]), EndCreate([1], 2, true, late)];
            && Allowed(limit, h, es)
            && var r := Run(limit, h, es);
            && |r.objects| == 4 && r.objects[1] == h.objects[1] && r.objects[3] == Fresh(Usable, 1, late)
            && r.admitted == h.admitted + [Admission(Create(nonce, WINDOW), LAST_CHECK, late)]
  {
    AdmittedAgain(limit, h, nonce, late);
    hide Step, Enabled, Allowed, Run;
    var begin, end := BeginCreate(Create(nonce, WINDOW), LAST_CHECK, late, [1]), EndCreate([1], 2, true, late);
    OneEvent(limit, h, begin);
    OneEvent(limit, Step(limit, h, begin), end);
    RunOn(limit, h, [begin], [end]);
    assert [begin, end] == [begin] + [end];
  }

  lemma SecondCreate(limit: nat, h: Hub, nonce: Bytes, delay: nat)
    requires Remembers(h, nonce) && |h.sessions| < limit && delay > MAX_DELAY
    ensures Allowed(limit, h, SecondTime(nonce, delay))
    ensures var r := Run(limit, h, SecondTime(nonce, delay));
            && |r.objects| == 4 && r.objects[1].stage.Usable? && r.objects[1].origin == 0
            && r.objects[3] == Fresh(Usable, 1, LAST_CHECK + delay)
            && |r.admitted| == 2 && r.admitted[0].request == r.admitted[1].request
            && (r.objects[1].closed ==> h.objects[1].closed || Stale(h.objects[1], false, LAST_CHECK + delay))
  {
    hide Step, Enabled, Swept, Stale, Allowed, Run;
    var late := LAST_CHECK + delay;
    var clean, swept := Cleanup(false, late), Swept(h, false, late);
    Cleaned(limit, h, late);
    SweptLater(h, nonce, late);
    Reopened(limit, swept, nonce, late);
    OneEvent(limit, h, clean);
    var later := [BeginCreate(Create(nonce, WINDOW), LAST_CHECK, late, [1]), EndCreate([1], 2, true, late)];
    RunOn(limit, h, [clean], later);
    assert SecondTime(nonce, delay) == [clean] + later;
  }

  lemma FirstClocked(nonce: Bytes, later: seq<Event>)
    requires Clocked(0, later)
    ensures Clocked(0, FirstTime(nonce) + later)
  {
    var es := FirstTime(nonce) + later;
    assert es[1..][0] == FirstTime(nonce)[1] && es[1..][1..] == later;
    assert Clocked(0, es[1..]);
  }

  lemma FirstPrompt(nonce: Bytes, later: seq<Event>, delay: nat)
    ensures Prompt(delay, later) ==> Prompt(delay, FirstTime(nonce) + later)
  {
  }

  lemma SecondClocked(nonce: Bytes, delay: nat)
    ensures Clocked(0, SecondTime(nonce, delay)) && Prompt(delay, SecondTime(nonce, delay))
    ensures var es := [Remove([0], 1)] + SecondTime(nonce, delay); Clocked(0, es) && Prompt(delay, es)
  {
    var es, late := SecondTime(nonce, delay), LAST_CHECK + delay;
    assert es[2..][1..] == [] && es[1..][1..] == es[2..];
    assert Clocked(late, es[2..]);
    assert Clocked(late, es[1..]);
    assert ([Remove([0], 1)] + es)[1..] == es;
  }

  /** Where these runs end. */
  lemma EndsTwice(limit: nat, es: seq<Event>)
    requires Allowed(limit, EMPTY, es)
    requires var h := Run(limit, EMPTY, es);
             && |h.objects| == 4 && h.objects[1].stage.Usable? && h.objects[1].origin == 0
             && h.objects[3].stage.Usable? && h.objects[3].origin == 1 && !h.objects[3].closed
             && |h.admitted| == 2 && h.admitted[0].request == h.admitted[1].request
    ensures OpenedTwice(Run(limit, EMPTY, es))
  {
    RunLogged(limit, es);
    hide Run, Allowed;
    var h := Run(limit, EMPTY, es);
    assert h.objects[1].stage.Usable? && h.objects[3].stage.Usable?;
  }

  /** The bound is exact: with any longer delay, in a hub with room for two sessions, one signed create can open two.
      Both are open at once if the delay is at most 14 seconds and a nanosecond, else the first may have been idle for
      too long. */
  lemma SlowCreateTwice(limit: nat, nonce: Bytes, delay: nat)
    requires limit >= 2 && delay > MAX_DELAY
    ensures var es := SlowReplay(nonce, delay);
            && Clocked(0, es) && Prompt(delay, es) && Allowed(limit, EMPTY, es)
            && var h := Run(limit, EMPTY, es);
            OpenedTwice(h) && (LAST_CHECK + delay <= IDLE ==> !h.objects[1].closed)
  {
    OpenedRemembers(nonce, LAST_CHECK + delay);
    FirstPrompt(nonce, SecondTime(nonce, delay), delay);
    hide Allowed, Run, Clocked, Prompt, FirstTime, SecondTime, Opened, Remembers, Stale;
    FirstCreate(limit, nonce);
    SecondCreate(limit, Opened(nonce), nonce, delay);
    SecondClocked(nonce, delay);
    FirstClocked(nonce, SecondTime(nonce, delay));
    RunOn(limit, EMPTY, FirstTime(nonce), SecondTime(nonce, delay));
    EndsTwice(limit, SlowReplay(nonce, delay));
  }

  /** So it is in a hub with room for one session only, if the first is deleted before: one create opens two, one after
      the other. */
  lemma SlowCreateAgain(limit: nat, nonce: Bytes, delay: nat)
    requires limit >= 1 && delay > MAX_DELAY
    ensures var es := SlowReplayAfterDelete(nonce, delay);
            && Clocked(0, es) && Prompt(delay, es) && Allowed(limit, EMPTY, es)
            && OpenedTwice(Run(limit, EMPTY, es))
  {
    FirstPrompt(nonce, [Remove([0], 1)] + SecondTime(nonce, delay), delay);
    hide Allowed, Run, Clocked, Prompt, FirstTime, SecondTime, Step, Enabled, Opened, Remembers, Stale, OpenedTwice;
    var front, later := FirstTime(nonce) + [Remove([0], 1)], SecondTime(nonce, delay);
    FirstDeleted(limit, nonce);
    SecondCreate(limit, Run(limit, EMPTY, front), nonce, delay);
    SecondClocked(nonce, delay);
    FirstClocked(nonce, [Remove([0], 1)] + later);
    RunOn(limit, EMPTY, front, later);
    assert front + later == FirstTime(nonce) + ([Remove([0], 1)] + later);
    EndsTwice(limit, front + later);
  }

  lemma FirstDeleted(limit: nat, nonce: Bytes)
    requires limit >= 1
    ensures var es := FirstTime(nonce) + [Remove([0], 1)];
            && Allowed(limit, EMPTY, es)
            && Run(limit, EMPTY, es).sessions == map[] && Remembers(Run(limit, EMPTY, es), nonce)
  {
    hide Allowed, Run, FirstTime, Step, Enabled, Opened, Remembers;
    FirstCreate(limit, nonce);
    Deleted(limit, nonce);
    OneEvent(limit, Opened(nonce), Remove([0], 1));
    RunOn(limit, EMPTY, FirstTime(nonce), [Remove([0], 1)]);
  }

  lemma Deleted(limit: nat, nonce: Bytes)
    ensures Enabled(Opened(nonce), Remove([0], 1))
    ensures var r := Step(limit, Opened(nonce), Remove([0], 1)); r.sessions == map[] && Remembers(r, nonce)
  {
  }

  // ---------------------------------------------------------------------- the code

  datatype Reply = Wrote(n: nat) | Failed(n: nat)

  /** Writes the body piece by piece; the connection decides how much each write takes. */
  method WriteFull(body: Bytes, replies: seq<Reply>) returns (written: Bytes, ok: bool)
    ensures written <= body
    ensures ok <==> Succeeds(|body|, replies)
    ensures ok ==> written == body
    ensures replies == [] ==> written == []
  {
    hide Succeeds;
    var left := body;
    written := [];
    var i := 0;
    EnoughReplies(|left|, replies, i);
    assert replies[0..] == replies;
    while |left| > 0
      invariant i <= |replies| && body == written + left && (i == 0 ==> written == [])
      invariant Succeeds(|body|, replies) == Succeeds(|left|, replies[i..])
      decreases |left|
    {
      EnoughReplies(|left|, replies, i);
      if i == |replies| {
        return written, false;
      }
      var n := Min(replies[i].n, |left|);
      written := written + left[..n];
      if replies[i].Failed? || n == 0 {
        return written, false;
      }
      left := left[n..];
      i := i + 1;
    }
    EnoughReplies(|left|, replies, i);
    ok := true;
  }

  /** One reply of the connection. */
  lemma EnoughReplies(n: nat, replies: seq<Reply>, i: nat)
    requires i <= |replies|
    ensures n == 0 ==> Succeeds(n, replies[i..])
    ensures n > 0 && i == |replies| ==> !Succeeds(n, replies[i..])
    ensures n > 0 && i < |replies| ==>
              Succeeds(n, replies[i..])
              == (replies[i].Wrote? && replies[i].n > 0 && Succeeds(n - Min(replies[i].n, n), replies[i + 1..]))
  {
    if i < |replies| {
      assert replies[i..][0] == replies[i] && replies[i..][1..] == replies[i + 1..];
    }
  }

  /** The connection takes n bytes without an error or an empty write. */
  predicate Succeeds(n: nat, replies: seq<Reply>) {
    n == 0 || (replies != [] && replies[0].Wrote? && replies[0].n > 0
      && Succeeds(n - Min(replies[0].n, n), replies[1..]))
  }

  class HttpHub {
    const limit: nat
    var objects: seq<Session>
    var sessions: map<Bytes, nat>
    var seen: map<Bytes, nat>
    var admitted: seq<Admission>

    constructor (limit: nat)
      ensures this.limit == limit && Model() == EMPTY
    {
      this.limit := limit;
      objects, sessions, seen, admitted := [], map[], map[], [];
    }

    function Model(): Hub
      reads this
    {
      Hub(objects, sessions, seen, admitted)
    }

    /** The first half of a create, under the hub's lock: a placeholder takes up the room. */
    method OpenPlaceholder(request: Create, authAt: nat, at: nat, id: Bytes) returns (placeholder: Option<nat>)
      requires Valid(limit, Model()) && Enabled(Model(), BeginCreate(request, authAt, at, id))
      modifies this
      ensures Valid(limit, Model()) && Model() == Step(limit, old(Model()), BeginCreate(request, authAt, at, id))
      ensures placeholder == if Admits(old(Model()), limit, request) then Some(|old(objects)|) else None
    {
      hide Valid;
      StepValid(limit, Model(), BeginCreate(request, authAt, at, id));
      if request.nonce in seen {
        return None;
      }
      if |sessions| >= limit || |seen| >= MAX_SEEN {
        return None;
      }
      seen := seen[request.nonce := at];
      objects := objects + [Fresh(Placeholder, |admitted|, at)];
      sessions := sessions[id := |objects| - 1];
      admitted := admitted + [Admission(request, authAt, at)];
      placeholder := Some(|objects| - 1);
    }

    /** The second half: the dialled connection replaces the placeholder unless that is gone. */
    method FinishCreate(id: Bytes, placeholder: nat, dialled: bool, at: nat) returns (created: bool)
      requires Valid(limit, Model()) && placeholder < |objects| && objects[placeholder].stage.Placeholder?
      modifies this
      ensures Valid(limit, Model()) && Model() == Step(limit, old(Model()), EndCreate(id, placeholder, dialled, at))
      ensures created <==> dialled && id in old(sessions) && old(sessions)[id] == placeholder
    {
      hide Valid;
      StepValid(limit, Model(), EndCreate(id, placeholder, dialled, at));
      objects := objects[placeholder := objects[placeholder].(stage := Spent)];
      if !dialled {
        Discard(id, placeholder);
        return false;
      }
      if id !in sessions || sessions[id] != placeholder {
        return false;
      }
      objects := objects + [Fresh(Usable, objects[placeholder].origin, at)];
      sessions := sessions[id := |objects| - 1];
      created := true;
    }

    method Discard(id: Bytes, i: nat)
      requires i < |objects|
      modifies this
      ensures Model() == Drop(old(Model()), id, i)
    {
      if id in sessions && sessions[id] == i {
        sessions := sessions - {id};
      }
      objects := objects[i := objects[i].(closed := true)];
    }

    /** An upload takes the session's write lock if it is free and the number is the one due. */
    method StartUpload(i: nat, number: nat, body: Bytes) returns (started: bool)
      requires Valid(limit, Model()) && i < |objects|
      modifies this
      ensures Valid(limit, Model()) && Model() == Step(limit, old(Model()), BeginPost(i, number, body))
      ensures started <==> body != [] && old(objects)[i].writer.None? && number == old(objects)[i].next
      ensures !started ==> Model() == old(Model())
      ensures started ==>
                && sessions == old(sessions)
                && objects == old(objects)[i := old(objects)[i].(writer := Some(Writer(body, 0)))]
    {
      StepValid(limit, Model(), BeginPost(i, number, body));
      if |body| == 0 || objects[i].writer.Some? {
        return false;
      }
      if number != objects[i].next {
        return false;
      }
      objects := objects[i := objects[i].(writer := Some(Writer(body, 0)))];
      started := true;
    }

    /** A whole upload request with nothing else touching the session meanwhile: 409 if the lock is taken or the
        number is not the one due, 204 with exactly the body written, or 503 with a prefix of it, the session
        closed and forgotten. */
    method Post(id: Bytes, i: nat, number: nat, body: Bytes, replies: seq<Reply>, at: nat) returns (status: nat)
      requires Valid(limit, Model()) && i < |objects|
      modifies this
      ensures Valid(limit, Model()) && |objects| == |old(objects)|
      ensures status == 409 <==> body == [] || old(objects)[i].writer.Some? || number != old(objects)[i].next
      ensures status == 409 ==> Model() == old(Model())
      ensures status == 204 ==>
                && !old(objects)[i].closed && sessions == old(sessions)
                && objects[i] == old(objects)[i].(next := number + 1, last := at,
                     backend := old(objects)[i].backend + body,
                     accepted := old(objects)[i].accepted + [Upload(number, body)])
      ensures status == 503 ==>
                && objects[i].closed && objects[i].next == number && (id in sessions ==> sessions[id] != i)
                && exists n: nat :: n <= |body| && objects[i].backend == old(objects)[i].backend + body[..n]
      ensures status in {204, 409, 503}
    {
      hide InOrder, Valid, Step;
      ghost var s := objects[i];
      var started := StartUpload(i, number, body);
      if !started {
        return 409;
      }
      var written, ok := WriteFull(body, if objects[i].closed then [] else replies);
      if !ok {
        FailUpload(id, i, |written|);
        assert objects[i].backend == s.backend + body[..|written|];
        return 503;
      }
      WriteAll(i, at);
      status := 204;
    }

    /** All of the body goes out and the upload counts. */
    method WriteAll(i: nat, at: nat)
      requires Valid(limit, Model()) && i < |objects| && !objects[i].closed
      requires objects[i].writer.Some? && objects[i].writer.value.done == 0
      modifies this
      ensures Valid(limit, Model()) && sessions == old(sessions) && |objects| == |old(objects)|
      ensures var s := old(objects)[i];
              var body := s.writer.value.body;
              objects[i] == s.(writer := None, next := s.next + 1, last := at, backend := s.backend + body,
                               accepted := s.accepted + [Upload(s.next, body)])
    {
      var body := objects[i].writer.value.body;
      assert InOrder(objects[i]) && body != [];
      hide Valid, Step, InOrder;
      WriteSome(i, |body|);
      FinishUpload(i, at);
      assert body[0..|body|] == body;
    }

    /** One write on the connection by the request that holds the lock. */
    method WriteSome(i: nat, n: nat)
      requires Valid(limit, Model()) && Enabled(Model(), Write(i, n))
      modifies this
      ensures Valid(limit, Model()) && Model() == Step(limit, old(Model()), Write(i, n))
      ensures sessions == old(sessions) && |objects| == |old(objects)|
      ensures var s := old(objects)[i];
              var w := s.writer.value;
              objects[i] == s.(writer := Some(Writer(w.body, w.done + n)),
                               backend := s.backend + w.body[w.done..w.done + n])
    {
      hide InOrder;
      UploadValid(limit, Model(), Write(i, n));
      var w := objects[i].writer.value;
      objects := objects[i := objects[i].(writer := Some(Writer(w.body, w.done + n)),
        backend := objects[i].backend + w.body[w.done..w.done + n])];
    }

    /** The last bytes went out: the upload counts, then the lock is given back. */
    method FinishUpload(i: nat, at: nat)
      requires Valid(limit, Model()) && Enabled(Model(), FinishPost(i, at))
      modifies this
      ensures Valid(limit, Model()) && Model() == Step(limit, old(Model()), FinishPost(i, at))
      ensures sessions == old(sessions) && |objects| == |old(objects)|
      ensures var s := old(objects)[i];
              objects[i] == s.(writer := None, next := s.next + 1, last := at,
                               accepted := s.accepted + [Upload(s.next, s.writer.value.body)])
    {
      UploadValid(limit, Model(), FinishPost(i, at));
      var s := objects[i];
      objects := objects[i := s.(writer := None, next := s.next + 1, last := at,
        accepted := s.accepted + [Upload(s.next, s.writer.value.body)])];
    }

    /** A write failed after n more bytes: the session is closed before the lock is given back. */
    method FailUpload(id: Bytes, i: nat, n: nat)
      requires Valid(limit, Model()) && Enabled(Model(), FailPost(id, i, n))
      modifies this
      ensures Valid(limit, Model()) && Model() == Step(limit, old(Model()), FailPost(id, i, n))
      ensures objects == old(objects)[i := BrokenOff(old(objects)[i], n).(closed := true)]
      ensures id in sessions ==> sessions[id] != i
    {
      hide InOrder;
      FailValid(limit, Model(), id, i, n);
      objects := objects[i := BrokenOff(objects[i], n)];
      Discard(id, i);
    }

    /** Sessions idle or old are closed and forgotten, and so are nonces past remembering. */
    method Sweep(all: bool, now: nat)
      requires Valid(limit, Model())
      modifies this
      ensures Valid(limit, Model()) && Model() == Swept(old(Model()), all, now)
    {
      hide InOrder, Shut, Gone;
      ghost var before := Model();
      SweptValid(limit, before, all, now);
      SweepSessions(all, now);
      SweepNonces(now);
      assert Model() == Swept(before, all, now);
    }

    /** The objects and the map once the sessions of these ids are closed and forgotten. */
    ghost predicate Without(h: Hub, ids: set<Bytes>)
      reads this
    {
      && |objects| == |h.objects| && sessions == h.sessions - ids && seen == h.seen && admitted == h.admitted
      && forall i :: 0 <= i < |objects| ==> objects[i] == Shut(h, ids, i)
    }

    method SweepOne(all: bool, now: nat, ghost h: Hub, ghost ids: set<Bytes>, id: Bytes)
      requires Without(h, ids) && id in sessions && sessions[id] < |objects|
      modifies this
      ensures Without(h, if id in Gone(h, all, now) then ids + {id} else ids)
    {
      var i := sessions[id];
      assert objects[i] == Shut(h, ids, i);
      if Stale(objects[i], all, now) {
        ShutOneMore(h, ids, id);
        objects := objects[i := objects[i].(closed := true)];
        sessions := sessions - {id};
      }
    }

    method SweepSessions(all: bool, now: nat)
      requires forall id <- sessions :: sessions[id] < |objects|
      modifies this
      ensures Without(old(Model()), Gone(old(Model()), all, now))
    {
      ghost var h := Model();
      ghost var gone := Gone(h, all, now);
      var left := sessions.Keys;
      NothingShut(h);
      assert gone - left == {};
      while left != {}
        invariant left <= sessions.Keys && Without(h, gone - left)
        decreases |left|
      {
        var id :| id in left;
        SweepOne(all, now, h, gone - left, id);
        OneFewer(gone, left, id);
        left := left - {id};
      }
      assert gone - left == gone;
    }

    method SweepNonces(now: nat)
      modifies this`seen
      ensures seen == map n | n in old(seen) && !(now >= old(seen)[n] && now - old(seen)[n] > MEMORY) :: old(seen)[n]
    {
      var left := seen.Keys;
      while left != {}
        invariant left <= old(seen).Keys
        invariant forall n :: n in seen <==>
                    n in old(seen) && (n in left || !(now >= old(seen)[n] && now - old(seen)[n] > MEMORY))
        invariant forall n <- seen :: seen[n] == old(seen)[n]
        decreases |left|
      {
        var n :| n in left;
        if now >= seen[n] && now - seen[n] > MEMORY {
          seen := seen - {n};
        }
        left := left - {n};
      }
    }
  }
}
