/** The burst scheduler: packets are grouped into flows and taken out turn by turn. */
module BatchScheduler {
  import opened Bytes
  import opened PacketFlow
  import opened RoundRobin

  datatype Pick<T> = Pick(flow: nat, item: T)

  /** The flows after the front item of flow i was taken. */
  function Serve<T>(flows: seq<Flow<T>>, i: nat): seq<Flow<T>>
    requires i < |flows| && |flows[i].items| > 0
  {
    flows[i := flows[i].(items := flows[i].items[1..])]
  }

  /** All turns until nothing waits. */
  function Picks<T>(flows: seq<Flow<T>>, t: Turn): seq<Pick<T>>
    requires TurnOk(flows, t)
    decreases Total(flows)
  {
    SelectServes(flows, t);
    var c := Select(flows, t);
    if c.index == |flows| then []
    else
      TotalUpdate(flows, c.index, flows[c.index].(items := flows[c.index].items[1..]));
      [Pick(c.index, flows[c.index].items[0])] + Picks(Serve(flows, c.index), c.turn)
  }

  /** The items taken from flow f, in order. */
  function Of<T>(picks: seq<Pick<T>>, f: nat): seq<T> {
    if picks == [] then []
    else (if picks[0].flow == f then [picks[0].item] else []) + Of(picks[1..], f)
  }

  lemma {:induction false} PicksCount<T>(flows: seq<Flow<T>>, t: Turn)
    requires TurnOk(flows, t)
    ensures |Picks(flows, t)| == Total(flows)
    decreases Total(flows)
  {
    SelectServes(flows, t);
    TotalZero(flows);
    var c := Select(flows, t);
    if c.index < |flows| {
      TotalUpdate(flows, c.index, flows[c.index].(items := flows[c.index].items[1..]));
      PicksCount(Serve(flows, c.index), c.turn);
    }
  }

  lemma {:induction false} PickInRange<T>(flows: seq<Flow<T>>, t: Turn, k: nat)
    requires TurnOk(flows, t) && k < |Picks(flows, t)|
    ensures Picks(flows, t)[k].flow < |flows|
    decreases k
  {
    SelectServes(flows, t);
    if k > 0 {
      var c := Select(flows, t);
      PickInRange(Serve(flows, c.index), c.turn, k - 1);
    }
  }

  /** Every flow gets all its items taken, in order. */
  lemma {:induction false} PicksOf<T>(flows: seq<Flow<T>>, t: Turn, f: nat)
    requires TurnOk(flows, t) && f < |flows|
    ensures Of(Picks(flows, t), f) == flows[f].items
    decreases Total(flows)
  {
    hide Next, Total;
    SelectServes(flows, t);
    var c := Select(flows, t);
    if c.index == |flows| {
      assert !Ready(flows, f, true) && !Ready(flows, f, false);
    } else {
      var later := Serve(flows, c.index);
      TotalUpdate(flows, c.index, flows[c.index].(items := flows[c.index].items[1..]));
      PicksOf(later, c.turn, f);
      OfFirst(Pick(c.index, flows[c.index].items[0]), Picks(later, c.turn), f);
      hide Of, Select;
      assert flows[c.index].items == [flows[c.index].items[0]] + flows[c.index].items[1..];
    }
  }

  lemma OfFirst<T>(p: Pick<T>, picks: seq<Pick<T>>, f: nat)
    ensures Of([p] + picks, f) == (if p.flow == f then [p.item] else []) + Of(picks, f)
  {
    assert ([p] + picks)[1..] == picks;
  }

  lemma {:induction false} OfMember<T>(picks: seq<Pick<T>>, k: nat)
    requires k < |picks|
    ensures picks[k].item in Of(picks, picks[k].flow)
    decreases k
  {
    if k > 0 {
      assert picks[1..][k - 1] == picks[k];
      OfMember(picks[1..], k - 1);
    }
  }

  /** Only flows of a waiting class are served. */
  lemma NothingOfIdleClass<T>(flows: seq<Flow<T>>, t: Turn, kind: bool, k: nat)
    requires TurnOk(flows, t) && !Waiting(flows, kind) && k < |Picks(flows, t)|
    ensures var f := Picks(flows, t)[k].flow; f < |flows| && flows[f].interactive != kind
  {
    PickInRange(flows, t, k);
    OfMember(Picks(flows, t), k);
    var f := Picks(flows, t)[k].flow;
    PicksOf(flows, t, f);
    assert !Ready(flows, f, kind);
  }

  predicate SameFlows<T>(a: seq<Flow<T>>, b: seq<Flow<T>>) {
    |a| == |b| && forall i :: 0 <= i < |a| ==> a[i].key == b[i].key && a[i].interactive == b[i].interactive
  }

  /** The state after k turns. */
  lemma {:induction false} StateAt<T>(flows: seq<Flow<T>>, t: Turn, k: nat) returns (later: seq<Flow<T>>, turn: Turn)
    requires TurnOk(flows, t) && k <= |Picks(flows, t)|
    ensures SameFlows(flows, later) && TurnOk(later, turn)
    ensures Picks(later, turn) == Picks(flows, t)[k..]
    decreases k
  {
    if k == 0 {
      later, turn := flows, t;
    } else {
      SelectServes(flows, t);
      var c := Select(flows, t);
      assert Picks(flows, t)[1..] == Picks(Serve(flows, c.index), c.turn);
      later, turn := StateAt(Serve(flows, c.index), c.turn, k - 1);
      assert Picks(flows, t)[1..][k - 1..] == Picks(flows, t)[k..];
    }
  }

  function Kind<T>(flows: seq<Flow<T>>, p: Pick<T>): bool {
    p.flow < |flows| && flows[p.flow].interactive
  }

  /** If interactive flows use up all the turns they may take while bulk waits, and one more, then
      no bulk waited. */
  lemma {:induction false} InteractiveRun<T>(flows: seq<Flow<T>>, t: Turn)
    requires TurnOk(flows, t) && |Picks(flows, t)| >= 3 - t.interactiveTurns
    requires forall i :: 0 <= i < 3 - t.interactiveTurns ==> Kind(flows, Picks(flows, t)[i])
    ensures !Waiting(flows, false)
    decreases 2 - t.interactiveTurns
  {
    SelectServes(flows, t);
    var c := Select(flows, t);
    assert Picks(flows, t)[0].flow == c.index;
    assert Kind(flows, Picks(flows, t)[0]);
    if Waiting(flows, false) {
      var rest := Serve(flows, c.index);
      var i :| 0 <= i < |flows| && Ready(flows, i, false);
      assert Ready(rest, i, false);
      forall j | 0 <= j < 3 - c.turn.interactiveTurns
        ensures Kind(rest, Picks(rest, c.turn)[j])
      {
        assert Picks(rest, c.turn)[j] == Picks(flows, t)[j + 1];
        assert Kind(flows, Picks(flows, t)[j + 1]);
      }
      InteractiveRun(rest, c.turn);
    }
  }

  /** After three interactive turns in a row no bulk turn is left. */
  lemma ThreeInteractive<T>(flows: seq<Flow<T>>, t: Turn, k: nat, m: nat)
    requires TurnOk(flows, t)
    requires var p := Picks(flows, t);
             k + 2 < m < |p| && Kind(flows, p[k]) && Kind(flows, p[k + 1]) && Kind(flows, p[k + 2])
    ensures Kind(flows, Picks(flows, t)[m])
  {
    var later, turn := StateAt(flows, t, k);
    var p := Picks(flows, t);
    assert p[k..][0] == p[k] && p[k..][1] == p[k + 1] && p[k..][2] == p[k + 2];
    InteractiveRun(later, turn);
    assert p[k..][m - k] == p[m];
    NothingOfIdleClass(later, turn, false, m - k);
  }

  lemma KindSame<T>(flows: seq<Flow<T>>, later: seq<Flow<T>>, p: Pick<T>)
    requires SameFlows(flows, later)
    ensures Kind(flows, p) == Kind(later, p)
  {
  }

  /** A second bulk turn in a row means that no interactive flow waits. */
  lemma TwoBulkFirst<T>(flows: seq<Flow<T>>, t: Turn, p: seq<Pick<T>>, m: nat)
    requires TurnOk(flows, t) && p == Picks(flows, t) && 1 < m < |p| && !Kind(flows, p[0]) && !Kind(flows, p[1])
    ensures !Kind(flows, p[m])
  {
    PickInRange(flows, t, 0);
    PickInRange(flows, t, 1);
    SelectServes(flows, t);
    var c := Select(flows, t);
    var next := Serve(flows, c.index);
    assert p[1..] == Picks(next, c.turn);
    SelectServes(next, c.turn);
    NothingOfIdleClass(next, c.turn, true, m - 1);
  }

  /** After two bulk turns in a row no interactive turn is left. */
  lemma TwoBulk<T>(flows: seq<Flow<T>>, t: Turn, p: seq<Pick<T>>, k: nat, m: nat)
    requires TurnOk(flows, t) && p == Picks(flows, t)
    requires k + 1 < m < |p| && !Kind(flows, p[k]) && !Kind(flows, p[k + 1])
    ensures !Kind(flows, p[m])
  {
    hide Picks, Select;
    var later, turn := StateAt(flows, t, k);
    var q := p[k..];
    assert q[0] == p[k] && q[1] == p[k + 1] && q[m - k] == p[m];
    KindSame(flows, later, p[k]);
    KindSame(flows, later, p[k + 1]);
    KindSame(flows, later, p[m]);
    TwoBulkFirst(later, turn, q, m - k);
  }

  /** Among the first b picks, those of one class go to places not passed yet, and to each at most once. */
  ghost predicate Orderly<T>(flows: seq<Flow<T>>, p: seq<Pick<T>>, b: nat, f: nat, cursor: nat, kind: bool)
    requires b <= |p|
  {
    && (forall i :: 0 <= i < b ==> p[i].flow < |flows| && (Kind(flows, p[i]) == kind ==> !Passed(f, cursor, p[i].flow)))
    && (forall i, j :: 0 <= i < j < b && Kind(flows, p[i]) == kind ==> p[i].flow != p[j].flow)
  }

  lemma OrderlyPrepend<T>(flows: seq<Flow<T>>, p: seq<Pick<T>>, b: nat, f: nat, cursor: nat, next: nat, kind: bool)
    requires 0 < b <= |p| && Orderly(flows, p[1..], b - 1, f, next, kind) && p[0].flow < |flows|
    requires if Kind(flows, p[0]) == kind then
               && !Passed(f, cursor, p[0].flow) && Passed(f, next, p[0].flow)
               && forall x :: 0 <= x < |flows| && Passed(f, cursor, x) ==> Passed(f, next, x)
             else next == cursor
    ensures Orderly(flows, p, b, f, cursor, kind)
  {
    forall i | 0 <= i < b
      ensures p[i].flow < |flows| && (Kind(flows, p[i]) == kind ==> !Passed(f, cursor, p[i].flow))
    {
      if i > 0 {
        assert p[i] == p[1..][i - 1];
      }
    }
    forall i, j | 0 <= i < j < b && Kind(flows, p[i]) == kind
      ensures p[i].flow != p[j].flow
    {
      assert p[j] == p[1..][j - 1];
      if i > 0 {
        assert p[i] == p[1..][i - 1];
      }
    }
  }

  lemma OrderlySame<T>(flows: seq<Flow<T>>, later: seq<Flow<T>>, p: seq<Pick<T>>, b: nat, f: nat, cursor: nat,
      kind: bool)
    requires b <= |p| && SameFlows(flows, later) && Orderly(later, p, b, f, cursor, kind)
    ensures Orderly(flows, p, b, f, cursor, kind)
  {
    forall i | 0 <= i < b
      ensures Kind(flows, p[i]) == Kind(later, p[i])
    {
    }
  }

  /** While f waits and is not served, no flow of its class is served twice. */
  lemma {:induction false} BetweenTurns<T>(flows: seq<Flow<T>>, t: Turn, f: nat, b: nat)
    requires TurnOk(flows, t) && f < |flows| && |flows[f].items| > 0
    requires b <= |Picks(flows, t)| && forall i :: 0 <= i < b ==> Picks(flows, t)[i].flow != f
    ensures Orderly(flows, Picks(flows, t), b, f, Cursor(t, flows[f].interactive), flows[f].interactive)
    decreases b
  {
    if b > 0 {
      SelectServes(flows, t);
      FirstPicked(flows, t);
      hide Next, Total, Picks;
      var c := Select(flows, t);
      var rest := Serve(flows, c.index);
      var p := Picks(flows, t);
      forall i | 0 <= i < b - 1
        ensures Picks(rest, c.turn)[i].flow != f
      {
        assert Picks(rest, c.turn)[i] == p[i + 1];
      }
      var kind := flows[f].interactive;
      BetweenTurns(rest, c.turn, f, b - 1);
      OrderlySame(flows, rest, p[1..], b - 1, f, Cursor(c.turn, kind), kind);
      TurnsPass(flows, t, f);
      OrderlyPrepend(flows, p, b, f, Cursor(t, kind), Cursor(c.turn, kind), kind);
    }
  }

  lemma FirstPicked<T>(flows: seq<Flow<T>>, t: Turn)
    requires TurnOk(flows, t) && Picks(flows, t) != []
    ensures var c, p := Select(flows, t), Picks(flows, t);
            && c.index < |flows| && |flows[c.index].items| > 0 && TurnOk(flows, c.turn)
            && TurnOk(Serve(flows, c.index), c.turn)
            && p[0].flow == c.index && p[1..] == Picks(Serve(flows, c.index), c.turn)
  {
    hide Next;
    SelectServes(flows, t);
  }

  /** A flow that is picked some time has something waiting. */
  lemma PickedWaits<T>(flows: seq<Flow<T>>, t: Turn, k: nat)
    requires TurnOk(flows, t) && k < |Picks(flows, t)|
    ensures var f := Picks(flows, t)[k].flow; f < |flows| && |flows[f].items| > 0
  {
    PickInRange(flows, t, k);
    OfMember(Picks(flows, t), k);
    PicksOf(flows, t, Picks(flows, t)[k].flow);
  }

  /** The picks up to the next one of flow f, which waits meanwhile. */
  lemma UntilNext<T>(flows: seq<Flow<T>>, t: Turn, q: seq<Pick<T>>, n: nat)
    requires TurnOk(flows, t) && q == Picks(flows, t) && n < |q| && forall i :: 0 <= i < n ==> q[i].flow != q[n].flow
    ensures q[n].flow < |flows|
    ensures var f := q[n].flow; Orderly(flows, q, n, f, Cursor(t, flows[f].interactive), flows[f].interactive)
  {
    PickedWaits(flows, t, n);
    BetweenTurns(flows, t, q[n].flow, n);
  }

  lemma TurnsBetween<T>(flows: seq<Flow<T>>, t: Turn, p: seq<Pick<T>>, a: nat, b: nat, c: nat, d: nat)
    requires TurnOk(flows, t) && p == Picks(flows, t) && a < c < d < b < |p|
    requires p[a].flow == p[b].flow && (forall x :: a < x < b ==> p[x].flow != p[a].flow)
    requires Kind(flows, p[c]) == Kind(flows, p[a])
    ensures p[c].flow != p[d].flow
  {
    hide Picks, Select;
    var later, turn := StateAt(flows, t, a + 1);
    var q, n := p[a + 1..], b - a - 1;
    assert q[n] == p[b] && q[c - a - 1] == p[c] && q[d - a - 1] == p[d];
    assert forall i :: 0 <= i < n ==> q[i] == p[a + 1 + i];
    UntilNext(later, turn, q, n);
    KindSame(flows, later, p[c]);
    KindSame(flows, later, p[b]);
  }

  // ---------------------------------------------------------------------- grouping

  /** All that the scheduler sees of a packet. */
  datatype Seen = Seen(key: Bytes, small: bool)

  function LookAt(packet: Bytes): Seen {
    Seen(FlowKey(packet), |packet| <= INTERACTIVE_BYTES)
  }

  function Look(packets: seq<Bytes>): (r: seq<Seen>)
    ensures |r| == |packets|
  {
    seq(|packets|, i requires 0 <= i < |packets| => LookAt(packets[i]))
  }

  /** The positions before n of the packets with the key, in arrival order. */
  function Positions(packets: seq<Seen>, n: nat, key: Bytes): (r: seq<nat>)
    requires n <= |packets|
    ensures forall k :: 0 <= k < |r| ==> r[k] < n && packets[r[k]].key == key
  {
    if n == 0 then []
    else Positions(packets, n - 1, key) + (if packets[n - 1].key == key then [n - 1] else [])
  }

  lemma {:induction false} PositionsComplete(packets: seq<Seen>, n: nat, i: nat)
    requires i < n <= |packets|
    ensures i in Positions(packets, n, packets[i].key)
    decreases n
  {
    if i < n - 1 {
      PositionsComplete(packets, n - 1, i);
    }
  }

  /** A flow is interactive if its first packet is small. */
  predicate Interactive(packets: seq<Seen>, n: nat, key: Bytes)
    requires n <= |packets|
  {
    var r := Positions(packets, n, key);
    r != [] && packets[r[0]].small
  }

  /** The first packet of a flow in the burst. */
  predicate Opens(packets: seq<Bytes>, i: nat, key: Bytes) {
    i < |packets| && FlowKey(packets[i]) == key && forall j :: 0 <= j < i ==> FlowKey(packets[j]) != key
  }

  /** A flow of the burst is interactive exactly if its first packet has at most 256 bytes. */
  lemma FirstDecides(packets: seq<Bytes>, i: nat)
    requires i < |packets| && Opens(packets, i, FlowKey(packets[i]))
    ensures Interactive(Look(packets), |packets|, FlowKey(packets[i])) <==> |packets[i]| <= 256
  {
    hide FlowKey;
    var key := FlowKey(packets[i]);
    FirstPosition(Look(packets), |packets|, i);
  }

  lemma {:induction false} FirstPosition(packets: seq<Seen>, n: nat, i: nat)
    requires i < n <= |packets| && forall j :: 0 <= j < i ==> packets[j].key != packets[i].key
    ensures var r := Positions(packets, n, packets[i].key); r != [] && r[0] == i
    decreases n
  {
    hide Positions;
    var key := packets[i].key;
    NextPosition(packets, n, key);
    if i < n - 1 {
      FirstPosition(packets, n - 1, i);
    } else {
      NoPosition(packets, i, key);
    }
  }

  lemma NextPosition(packets: seq<Seen>, n: nat, key: Bytes)
    requires 0 < n <= |packets|
    ensures Positions(packets, n, key)
            == Positions(packets, n - 1, key) + (if packets[n - 1].key == key then [n - 1] else [])
  {
  }

  lemma {:induction false} NoPosition(packets: seq<Seen>, n: nat, key: Bytes)
    requires n <= |packets| && forall j :: 0 <= j < n ==> packets[j].key != key
    ensures Positions(packets, n, key) == []
    decreases n
  {
    if n > 0 {
      NoPosition(packets, n - 1, key);
    }
  }

  function Group(packets: seq<Seen>, n: nat): seq<Flow<nat>>
    requires n <= |packets|
  {
    if n == 0 then []
    else Insert(Group(packets, n - 1), packets[n - 1].key, n - 1, packets[n - 1].small)
  }

  lemma GroupNext(packets: seq<Seen>, n: nat)
    requires n < |packets|
    ensures Group(packets, n + 1) == Insert(Group(packets, n), packets[n].key, n, packets[n].small)
  {
  }

  lemma {:induction false} GroupCounts(packets: seq<Seen>, n: nat)
    requires n <= |packets|
    ensures DistinctKeys(Group(packets, n)) && Total(Group(packets, n)) == n
  {
    hide DistinctKeys, Total, Insert, Group;
    if n == 0 {
      NothingGrouped(packets, []);
    } else {
      var before, last := Group(packets, n - 1), packets[n - 1];
      GroupCounts(packets, n - 1);
      GroupNext(packets, n - 1);
      InsertTotal(before, last.key, n - 1, last.small);
      InsertDistinct(before, last.key, n - 1, last.small);
    }
  }

  /** What the grouping holds under a key. */
  ghost predicate Holds(packets: seq<Seen>, n: nat, key: Bytes)
    requires n <= |packets|
  {
    var flows := Group(packets, n);
    var f := Find(flows, key);
    if f == |flows| then Positions(packets, n, key) == []
    else
      && flows[f].items == Positions(packets, n, key) != []
      && flows[f].interactive == Interactive(packets, n, key)
  }

  lemma NothingGrouped(packets: seq<Seen>, key: Bytes)
    ensures DistinctKeys(Group(packets, 0)) && Total(Group(packets, 0)) == 0 && Holds(packets, 0, key)
  {
  }

  lemma {:induction false} GroupMeaning(packets: seq<Seen>, n: nat, key: Bytes)
    requires n <= |packets|
    ensures Holds(packets, n, key)
  {
    hide Holds, Group;
    if n == 0 {
      NothingGrouped(packets, key);
    } else {
      GroupMeaning(packets, n - 1, key);
      GroupNext(packets, n - 1);
      HoldsNext(packets, n - 1, key);
    }
  }

  lemma HoldsNext(packets: seq<Seen>, n: nat, key: Bytes)
    requires n < |packets| && Holds(packets, n, key)
    ensures Holds(packets, n + 1, key)
  {
    var before, last := Group(packets, n), packets[n];
    GroupNext(packets, n);
    FindInsert(before, last.key, n, last.small, key);
    hide Group, Insert, Find;
    var was, is_ := Positions(packets, n, key), Positions(packets, n + 1, key);
    assert is_ == was + (if last.key == key then [n] else []);
    hide Positions;
    assert was != [] ==> is_[0] == was[0];
  }

  // ---------------------------------------------------------------------- what an order must be

  predicate InRange(packets: seq<Seen>, order: seq<nat>) {
    forall k :: 0 <= k < |order| ==> order[k] < |packets|
  }

  function KeyAt(packets: seq<Seen>, order: seq<nat>, k: nat): Bytes
    requires InRange(packets, order) && k < |order|
  {
    packets[order[k]].key
  }

  predicate KindAt(packets: seq<Seen>, order: seq<nat>, k: nat)
    requires InRange(packets, order) && k < |order|
  {
    Interactive(packets, |packets|, KeyAt(packets, order, k))
  }

  /** The part of the order that concerns one flow. */
  function Restrict(packets: seq<Seen>, order: seq<nat>, key: Bytes): seq<nat>
    requires InRange(packets, order)
  {
    if order == [] then []
    else (if packets[order[0]].key == key then [order[0]] else []) + Restrict(packets, order[1..], key)
  }

  /** Every packet occurs, and there are as many places as packets, so each occurs exactly once; and each
      flow's packets come in arrival order. */
  ghost predicate IsSchedule(packets: seq<Seen>, order: seq<nat>) {
    && InRange(packets, order)
    && |order| == |packets|
    && (forall i :: 0 <= i < |packets| ==> i in order)
    && (forall key :: Restrict(packets, order, key) == Positions(packets, |packets|, key))
  }

  predicate ThreeInteractiveAt(packets: seq<Seen>, order: seq<nat>, k: nat)
    requires InRange(packets, order)
  {
    k + 2 < |order| && KindAt(packets, order, k) && KindAt(packets, order, k + 1) && KindAt(packets, order, k + 2)
  }

  predicate TwoBulkAt(packets: seq<Seen>, order: seq<nat>, k: nat)
    requires InRange(packets, order)
  {
    k + 1 < |order| && !KindAt(packets, order, k) && !KindAt(packets, order, k + 1)
  }

  /** Three interactive packets in a row only when no bulk is left, two bulk packets in a row only when no
      interactive is left. */
  ghost predicate ClassesAlternate(packets: seq<Seen>, order: seq<nat>)
    requires InRange(packets, order)
  {
    && (forall k: nat, m: nat :: ThreeInteractiveAt(packets, order, k) && k + 2 < m < |order| ==>
          KindAt(packets, order, m))
    && (forall k: nat, m: nat :: TwoBulkAt(packets, order, k) && k + 1 < m < |order| ==> !KindAt(packets, order, m))
  }

  /** Places a and b hold consecutive packets of one flow. */
  predicate Consecutive(packets: seq<Seen>, order: seq<nat>, a: nat, b: nat)
    requires InRange(packets, order)
  {
    && a < b < |order|
    && KeyAt(packets, order, a) == KeyAt(packets, order, b)
    && forall x :: a < x < b ==> KeyAt(packets, order, x) != KeyAt(packets, order, a)
  }

  /** Between two consecutive packets of one flow, any other flow of its class sends at most one. */
  ghost predicate FlowsAlternate(packets: seq<Seen>, order: seq<nat>)
    requires InRange(packets, order)
  {
    forall a: nat, b: nat, c: nat, d: nat :: Consecutive(packets, order, a, b) && a < c < d < b
      && KindAt(packets, order, c) == KindAt(packets, order, a)
      ==> KeyAt(packets, order, c) != KeyAt(packets, order, d)
  }

  // ---------------------------------------------------------------------- the schedule is one

  function Items<T>(picks: seq<Pick<T>>): seq<T> {
    seq(|picks|, i requires 0 <= i < |picks| => picks[i].item)
  }

  /** A pick stands for the packet it took: same key, same class. */
  predicate Reads(packets: seq<Seen>, flows: seq<Flow<nat>>, p: Pick<nat>) {
    && p.flow < |flows| && p.item < |packets|
    && packets[p.item].key == flows[p.flow].key
    && flows[p.flow].interactive == Interactive(packets, |packets|, flows[p.flow].key)
  }

  lemma PickReads(packets: seq<Seen>, k: nat)
    requires k < |Picks(Group(packets, |packets|), START)|
    ensures Reads(packets, Group(packets, |packets|), Picks(Group(packets, |packets|), START)[k])
  {
    var flows := Group(packets, |packets|);
    var p := Picks(flows, START)[k];
    PickInRange(flows, START, k);
    OfMember(Picks(flows, START), k);
    PicksOf(flows, START, p.flow);
    GroupCounts(packets, |packets|);
    assert Find(flows, flows[p.flow].key) == p.flow;
    GroupMeaning(packets, |packets|, flows[p.flow].key);
  }

  lemma {:induction false} RestrictIsOf(packets: seq<Seen>, flows: seq<Flow<nat>>, picks: seq<Pick<nat>>, key: Bytes)
    requires DistinctKeys(flows)
    requires forall k :: 0 <= k < |picks| ==> Reads(packets, flows, picks[k])
    ensures InRange(packets, Items(picks))
    ensures Restrict(packets, Items(picks), key) == (if Find(flows, key) == |flows| then []
            else Of(picks, Find(flows, key)))
    decreases |picks|
  {
    if picks != [] {
      hide DistinctKeys, Find, Reads, Of, Items, Restrict;
      assert Reads(packets, flows, picks[0]);
      RestrictIsOf(packets, flows, picks[1..], key);
      FirstPick(packets, flows, picks, key);
    }
  }

  lemma FirstPick(packets: seq<Seen>, flows: seq<Flow<nat>>, picks: seq<Pick<nat>>, key: Bytes)
    requires picks != [] && DistinctKeys(flows) && Reads(packets, flows, picks[0])
    requires InRange(packets, Items(picks[1..]))
    ensures var f, item := Find(flows, key), picks[0].item;
            && InRange(packets, Items(picks))
            && Restrict(packets, Items(picks), key)
               == (if picks[0].flow == f then [item] else []) + Restrict(packets, Items(picks[1..]), key)
            && Of(picks, f) == (if picks[0].flow == f then [item] else []) + Of(picks[1..], f)
            && (f == |flows| ==> picks[0].flow != f)
  {
    hide Interactive;
    OneFlow(flows, picks[0].flow, key);
    assert Items(picks)[0] == picks[0].item && Items(picks)[1..] == Items(picks[1..]);
    assert forall k :: 0 < k < |picks| ==> Items(picks)[k] == Items(picks[1..])[k - 1];
    hide DistinctKeys, Find;
  }

  lemma {:induction false} RestrictMember(packets: seq<Seen>, order: seq<nat>, key: Bytes, i: nat)
    requires InRange(packets, order) && i in Restrict(packets, order, key)
    ensures i in order
    decreases |order|
  {
    if order != [] && order[0] != i {
      RestrictMember(packets, order[1..], key, i);
    }
  }

  function Scheduled(packets: seq<Seen>): seq<nat> {
    Items(Picks(Group(packets, |packets|), START))
  }

  lemma ScheduleReads(packets: seq<Seen>)
    ensures |Scheduled(packets)| == |packets| && InRange(packets, Scheduled(packets))
    ensures forall k :: 0 <= k < |packets| ==> Reads(packets, Group(packets, |packets|),
            Picks(Group(packets, |packets|), START)[k])
    ensures DistinctKeys(Group(packets, |packets|))
  {
    GroupCounts(packets, |packets|);
    var flows := Group(packets, |packets|);
    PicksCount(flows, START);
    forall k | 0 <= k < |packets|
      ensures Reads(packets, flows, Picks(flows, START)[k])
    {
      PickReads(packets, k);
    }
  }

  lemma ScheduleComplete(packets: seq<Seen>)
    ensures IsSchedule(packets, Scheduled(packets))
  {
    ScheduleReads(packets);
    var flows := Group(packets, |packets|);
    forall key
      ensures Restrict(packets, Scheduled(packets), key) == Positions(packets, |packets|, key)
    {
      RestrictIsOf(packets, flows, Picks(flows, START), key);
      GroupMeaning(packets, |packets|, key);
      if Find(flows, key) < |flows| {
        PicksOf(flows, START, Find(flows, key));
      }
    }
    forall i | 0 <= i < |packets|
      ensures i in Scheduled(packets)
    {
      PositionsComplete(packets, |packets|, i);
      RestrictMember(packets, Scheduled(packets), packets[i].key, i);
    }
  }

  lemma ScheduleAlternatesClasses(packets: seq<Seen>)
    ensures InRange(packets, Scheduled(packets)) && ClassesAlternate(packets, Scheduled(packets))
  {
    ScheduleReads(packets);
    var flows, order := Group(packets, |packets|), Scheduled(packets);
    var picks := Picks(flows, START);
    forall k | 0 <= k < |packets|
      ensures KindAt(packets, order, k) == Kind(flows, picks[k])
    {
      assert Reads(packets, flows, picks[k]);
    }
    forall k: nat, m: nat | ThreeInteractiveAt(packets, order, k) && k + 2 < m < |order|
      ensures KindAt(packets, order, m)
    {
      ThreeInteractive(flows, START, k, m);
    }
    forall k: nat, m: nat | TwoBulkAt(packets, order, k) && k + 1 < m < |order|
      ensures !KindAt(packets, order, m)
    {
      TwoBulk(flows, START, picks, k, m);
    }
  }

  lemma ScheduleAlternatesFlows(packets: seq<Seen>)
    ensures InRange(packets, Scheduled(packets)) && FlowsAlternate(packets, Scheduled(packets))
  {
    ScheduleReads(packets);
    var order := Scheduled(packets);
    forall a: nat, b: nat, c: nat, d: nat | Consecutive(packets, order, a, b) && a < c < d < b
      && KindAt(packets, order, c) == KindAt(packets, order, a)
      ensures KeyAt(packets, order, c) != KeyAt(packets, order, d)
    {
      FlowsAlternateAt(packets, Group(packets, |packets|), Picks(Group(packets, |packets|), START), a, b, c, d);
    }
  }

  lemma FlowsAlternateAt(packets: seq<Seen>, flows: seq<Flow<nat>>, picks: seq<Pick<nat>>, a: nat, b: nat, c: nat,
      d: nat)
    requires picks == Picks(flows, START) && DistinctKeys(flows)
    requires forall k :: 0 <= k < |picks| ==> Reads(packets, flows, picks[k])
    requires InRange(packets, Items(picks)) && Consecutive(packets, Items(picks), a, b) && a < c < d < b
    requires KindAt(packets, Items(picks), c) == KindAt(packets, Items(picks), a)
    ensures KeyAt(packets, Items(picks), c) != KeyAt(packets, Items(picks), d)
  {
    var order := Items(picks);
    assert Reads(packets, flows, picks[a]) && Reads(packets, flows, picks[b]);
    assert Reads(packets, flows, picks[c]) && Reads(packets, flows, picks[d]);
    forall x | a < x < b
      ensures picks[x].flow != picks[a].flow
    {
      assert Reads(packets, flows, picks[x]);
      assert KeyAt(packets, order, x) != KeyAt(packets, order, a);
    }
    TurnsBetween(flows, START, picks, a, b, c, d);
  }

  /** The scheduler: a permutation that keeps each flow in order, alternates between the classes and goes
      round the flows of each; the arrival order if disabled. */
  method SchedulePacketBatch(packets: seq<Bytes>, enabled: bool) returns (order: seq<nat>)
    ensures IsSchedule(Look(packets), order)
    ensures !enabled || |packets| < 2 ==> forall i :: 0 <= i < |packets| ==> order[i] == i
    ensures enabled ==> ClassesAlternate(Look(packets), order) && FlowsAlternate(Look(packets), order)
  {
    ghost var seen := Look(packets);
    if !enabled || |packets| < 2 {
      order := InArrivalOrder(|packets|, seen);
      if |packets| < 2 {
        FewAlternate(seen, order);
      }
      return;
    }
    var flows := GroupPackets(packets);
    GroupCounts(seen, |packets|);
    order := TakeTurns(flows, |packets|);
    ScheduleComplete(seen);
    ScheduleAlternatesClasses(seen);
    ScheduleAlternatesFlows(seen);
  }

  lemma FewAlternate(packets: seq<Seen>, order: seq<nat>)
    requires IsSchedule(packets, order) && |packets| < 2
    ensures ClassesAlternate(packets, order) && FlowsAlternate(packets, order)
  {
  }

  method GroupPackets(packets: seq<Bytes>) returns (flows: seq<Flow<nat>>)
    ensures flows == Group(Look(packets), |packets|)
  {
    hide LookAt, Insert, Find;
    flows := [];
    ghost var seen := Look(packets);
    var i := 0;
    while i < |packets|
      invariant i <= |packets| && flows == Group(seen, i)
    {
      var packet := LookAt(packets[i]);
      flows := PutIn(flows, packet.key, i, packet.small);
      GroupNext(seen, i);
      i := i + 1;
    }
  }

  /** A packet joins its flow, or opens one. */
  method PutIn(flows: seq<Flow<nat>>, key: Bytes, item: nat, small: bool) returns (later: seq<Flow<nat>>)
    ensures later == Insert(flows, key, item, small)
  {
    var found := Lookup(flows, key);
    if found == |flows| {
      later := flows + [Flow(key, [item], small)];
    } else {
      later := flows[found := flows[found].(items := flows[found].items + [item])];
    }
  }

  /** The first pick is what is chosen now. */
  lemma NextPick(flows: seq<Flow<nat>>, turn: Turn, index: nat, next: Turn, left: seq<Pick<nat>>)
    requires TurnOk(flows, turn) && Choice(index, next) == Select(flows, turn) && left == Picks(flows, turn)
             && left != []
    ensures index < |flows| && |flows[index].items| > 0 && TurnOk(flows, next) && TurnOk(Serve(flows, index), next)
    ensures left[0] == Pick(index, flows[index].items[0]) && left[1..] == Picks(Serve(flows, index), next)
    ensures Items(left) == [flows[index].items[0]] + Items(left[1..])
  {
    SelectServes(flows, turn);
  }

  lemma NoTurnYet(flows: seq<Flow<nat>>)
    ensures TurnOk(flows, START)
  {
  }

  lemma NothingLeft(left: seq<Pick<nat>>)
    requires left == []
    ensures Items(left) == []
  {
  }

  /** The taking loop. The source also leaves it when nothing could be taken; something always can. */
  method TakeTurns(grouped: seq<Flow<nat>>, total: nat) returns (order: seq<nat>)
    requires total == Total(grouped)
    ensures order == Items(Picks(grouped, START))
  {
    hide Picks, TurnOk, Select, Items;
    var flows, turn := grouped, START;
    order := [];
    NoTurnYet(flows);
    ghost var left := Picks(flows, turn);
    assert [] + Items(left) == Items(left);
    PicksCount(flows, turn);
    while |order| < total
      invariant TurnOk(flows, turn) && left == Picks(flows, turn)
      invariant Items(Picks(grouped, START)) == order + Items(left)
      invariant |order| + |left| == total
    {
      var index, next := Choose(flows, turn);
      NextPick(flows, turn, index, next, left);
      var item := flows[index].items[0];
      order := order + [item];
      flows := flows[index := flows[index].(items := flows[index].items[1..])];
      turn := next;
      left := left[1..];
    }
    NothingLeft(left);
  }

  method InArrivalOrder(count: nat, ghost packets: seq<Seen>) returns (order: seq<nat>)
    requires count == |packets|
    ensures IsSchedule(packets, order)
    ensures forall i :: 0 <= i < count ==> order[i] == i
  {
    order := [];
    var i := 0;
    while i < count
      invariant i == |order| <= count
      invariant forall j :: 0 <= j < i ==> order[j] == j
      invariant forall key :: Restrict(packets, order, key) == Positions(packets, i, key)
    {
      forall key
        ensures Restrict(packets, order + [i], key) == Positions(packets, i + 1, key)
      {
        RestrictAppend(packets, order, i, key);
      }
      order := order + [i];
      i := i + 1;
    }
    forall j | 0 <= j < count
      ensures j in order
    {
      assert order[j] == j;
    }
  }

  lemma {:induction false} RestrictAppend(packets: seq<Seen>, order: seq<nat>, i: nat, key: Bytes)
    requires InRange(packets, order) && i < |packets|
    ensures InRange(packets, order + [i])
    ensures Restrict(packets, order + [i], key) ==
            Restrict(packets, order, key) + (if packets[i].key == key then [i] else [])
    decreases |order|
  {
    var all := order + [i];
    InRangeParts(packets, order, i);
    RestrictFirst(packets, all, key);
    if order == [] {
      assert all == [i] && all[1..] == [];
    } else {
      RestrictFirst(packets, order, key);
      hide InRange, Restrict;
      RestrictAppend(packets, order[1..], i, key);
      assert all[0] == order[0] && all[1..] == order[1..] + [i];
    }
  }

  lemma RestrictFirst(packets: seq<Seen>, order: seq<nat>, key: Bytes)
    requires InRange(packets, order) && order != []
    ensures InRange(packets, order[1..]) && order[0] < |packets|
    ensures Restrict(packets, order, key) ==
            (if packets[order[0]].key == key then [order[0]] else []) + Restrict(packets, order[1..], key)
  {
  }

  lemma InRangeParts(packets: seq<Seen>, order: seq<nat>, i: nat)
    requires InRange(packets, order) && i < |packets|
    ensures InRange(packets, order + [i]) && (order != [] ==> InRange(packets, order[1..]))
  {
  }
}
