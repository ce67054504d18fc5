/** The client's pool of lanes: dialling, attaching, replacing a lane before it is given up, draining. */
module LanePool {
  import opened Bytes
  import PoolAffinity

  datatype Lane = Lane(id: nat, draining: bool)

  /** `replacing` is the id of the lane to be replaced, 0 if none is. */
  datatype Pool = Pool(lanes: seq<Lane>, nextId: nat, dialing: bool, replacing: nat)

  const INITIAL := Pool([], 1, false, 0)

  /** The things that happen to the pool, in any order the loop's conditions allow. */
  datatype Event =
    | Attached
    | DialFailed
    | Replace(lane: nat)
    | Dial
    | Detached(lane: nat)

  predicate Enabled(max: nat, p: Pool, e: Event) {
    match e
    case Attached => p.dialing
    case DialFailed => p.dialing
    case Replace(i) => !p.dialing && |p.lanes| == max && (forall l <- p.lanes :: !l.draining) && i < |p.lanes|
    case Dial => (|p.lanes| < max || p.replacing != 0) && !p.dialing
    case Detached(i) => i < |p.lanes|
  }

  /** The lanes with the one of this id set draining. */
  function Retire(lanes: seq<Lane>, id: nat): seq<Lane> {
    seq(|lanes|, i requires 0 <= i < |lanes| => if lanes[i].id == id then lanes[i].(draining := true) else lanes[i])
  }

  function Step(p: Pool, e: Event): Pool {
    match e
    case Attached =>
      var lanes := p.lanes + [Lane(p.nextId, false)];
      Pool(if p.replacing != 0 then Retire(lanes, p.replacing) else lanes, p.nextId + 1, false, 0)
    case DialFailed => p.(dialing := false, replacing := 0)
    case Replace(i) => if i < |p.lanes| then p.(replacing := p.lanes[i].id) else p
    case Dial => p.(dialing := true)
    case Detached(i) => if i < |p.lanes| then p.(lanes := p.lanes[..i] + p.lanes[i + 1..]) else p
  }

  // ---------------------------------------------------------------------- what always holds

  /** Ids are handed out once, in order, and are not zero. */
  predicate IdsOk(p: Pool) {
    && p.nextId > 0
    && (forall i :: 0 <= i < |p.lanes| ==> 0 < p.lanes[i].id < p.nextId)
    && (forall i, j :: 0 <= i < j < |p.lanes| ==> p.lanes[i].id < p.lanes[j].id)
    && p.replacing < p.nextId
  }

  predicate Draining(p: Pool, i: nat) {
    i < |p.lanes| && p.lanes[i].draining
  }

  /** At most one lane drains; one more lane than configured only while one drains. */
  ghost predicate Bounded(max: nat, p: Pool) {
    && |p.lanes| <= max + 1
    && (forall i: nat, j: nat :: Draining(p, i) && Draining(p, j) ==> i == j)
    && (|p.lanes| == max + 1 ==> exists i: nat :: Draining(p, i))
  }

  predicate Has(p: Pool, id: nat) {
    exists i :: 0 <= i < |p.lanes| && p.lanes[i].id == id
  }

  /** What the pool must keep for that: no lane drains while one is to be replaced; a full pool with a lane to be
      replaced still has it; a dial under way finds room or a lane to replace. */
  ghost predicate Valid(max: nat, p: Pool) {
    && IdsOk(p) && Bounded(max, p)
    && (p.replacing != 0 ==> |p.lanes| <= max && forall i: nat :: !Draining(p, i))
    && (p.replacing != 0 && |p.lanes| == max ==> Has(p, p.replacing))
    && (p.dialing && p.replacing == 0 ==> |p.lanes| < max)
  }

  lemma AttachedValid(max: nat, p: Pool)
    requires Valid(max, p) && p.dialing
    ensures Valid(max, Step(p, Attached))
  {
    var q := Step(p, Attached);
    if p.replacing == 0 {
      assert forall i: nat :: Draining(q, i) ==> Draining(p, i);
    } else {
      forall i: nat | Draining(q, i)
        ensures i < |p.lanes| && p.lanes[i].id == p.replacing
      {
        assert !Draining(p, i);
      }
      if |p.lanes| == max {
        var i :| 0 <= i < |p.lanes| && p.lanes[i].id == p.replacing;
        assert Draining(q, i);
      }
    }
  }

  lemma DetachedValid(max: nat, p: Pool, i: nat)
    requires Valid(max, p) && i < |p.lanes|
    ensures Valid(max, Step(p, Detached(i)))
  {
    var q := Step(p, Detached(i));
    forall j: nat | j < |q.lanes|
      ensures q.lanes[j] == p.lanes[if j < i then j else j + 1]
      ensures Draining(q, j) == Draining(p, if j < i then j else j + 1)
    {
    }
  }

  /** Exactly the lane that ended goes. */
  lemma DetachedExact(max: nat, p: Pool, i: nat, l: Lane)
    requires Valid(max, p) && i < |p.lanes|
    ensures l in Step(p, Detached(i)).lanes <==> l in p.lanes && l.id != p.lanes[i].id
  {
    var q := Step(p, Detached(i));
    forall j | 0 <= j < |q.lanes|
      ensures q.lanes[j] == p.lanes[if j < i then j else j + 1]
    {
    }
    if l in p.lanes && l.id != p.lanes[i].id {
      var j :| 0 <= j < |p.lanes| && p.lanes[j] == l;
      assert q.lanes[if j < i then j else j - 1] == l;
    }
  }

  lemma StepValid(max: nat, p: Pool, e: Event)
    requires Valid(max, p) && Enabled(max, p, e)
    ensures Valid(max, Step(p, e))
  {
    match e
    case Attached => AttachedValid(max, p);
    case DialFailed =>
      assert forall i: nat :: Draining(Step(p, e), i) == Draining(p, i);
    case Replace(i) =>
      var q := Step(p, e);
      assert forall j: nat :: Draining(q, j) == Draining(p, j);
      assert forall j: nat :: Draining(p, j) ==> p.lanes[j] in p.lanes;
      assert q.lanes[i].id == q.replacing;
    case Dial =>
      var q := Step(p, e);
      assert forall i: nat :: Draining(q, i) == Draining(p, i);
      assert Has(p, p.replacing) ==> Has(q, q.replacing);
    case Detached(i) => DetachedValid(max, p, i);
  }

  predicate Allowed(max: nat, p: Pool, es: seq<Event>)
    decreases |es|
  {
    es != [] ==> Enabled(max, p, es[0]) && Allowed(max, Step(p, es[0]), es[1..])
  }

  function Run(p: Pool, es: seq<Event>): Pool
    decreases |es|
  {
    if es == [] then p else Run(Step(p, es[0]), es[1..])
  }

  lemma {:induction false} RunValid(max: nat, p: Pool, es: seq<Event>)
    requires Valid(max, p) && Allowed(max, p, es)
    ensures Valid(max, Run(p, es))
    decreases |es|
  {
    if es != [] {
      StepValid(max, p, es[0]);
      RunValid(max, Step(p, es[0]), es[1..]);
    }
  }

  /** In every run of the client, the lanes are bounded, at most one drains, and ids are distinct and not zero. */
  lemma Lifecycle(max: nat, es: seq<Event>)
    requires Allowed(max, INITIAL, es)
    ensures var p := Run(INITIAL, es);
            && Bounded(max, p)
            && (forall i :: 0 <= i < |p.lanes| ==> p.lanes[i].id != 0)
            && (forall i, j :: 0 <= i < j < |p.lanes| ==> p.lanes[i].id != p.lanes[j].id)
  {
    RunValid(max, INITIAL, es);
  }

  function Active(lanes: seq<Lane>): nat {
    if lanes == [] then 0 else (if lanes[0].draining then 0 else 1) + Active(lanes[1..])
  }

  lemma {:induction false} ActiveAppend(lanes: seq<Lane>, l: Lane)
    ensures Active(lanes + [l]) == Active(lanes) + (if l.draining then 0 else 1)
    decreases |lanes|
  {
    if lanes == [] {
      assert lanes + [l] == [l];
      assert Active([l][1..]) == 0;
    } else {
      assert (lanes + [l])[1..] == lanes[1..] + [l];
      ActiveAppend(lanes[1..], l);
    }
  }

  lemma {:induction false} RetireAtMostOne(lanes: seq<Lane>, id: nat)
    requires forall i, j :: 0 <= i < j < |lanes| ==> lanes[i].id != lanes[j].id
    ensures Active(Retire(lanes, id)) + (if exists i :: 0 <= i < |lanes| && lanes[i].id == id then 1 else 0)
            >= Active(lanes)
    decreases |lanes|
  {
    if lanes != [] {
      assert Retire(lanes, id)[1..] == Retire(lanes[1..], id);
      RetireAtMostOne(lanes[1..], id);
      forall i | 0 <= i < |lanes[1..]|
        ensures lanes[1..][i] == lanes[i + 1]
      {
      }
      if exists i :: 0 <= i < |lanes[1..]| && lanes[1..][i].id == id {
        var i :| 0 <= i < |lanes[1..]| && lanes[1..][i].id == id;
        assert lanes[i + 1].id == id;
      }
    }
  }

  lemma NewlyDraining(max: nat, p: Pool)
    requires Valid(max, p)
    ensures var q := Step(p, Attached);
            && Lane(p.nextId, false) in q.lanes && !Has(p, p.nextId)
            && forall l <- q.lanes :: l.draining && l !in p.lanes ==>
                 l.id == p.replacing && Lane(l.id, false) in p.lanes
  {
    var q := Step(p, Attached);
    assert q.lanes[|p.lanes|] == Lane(p.nextId, false);
    forall l | l in q.lanes && l.draining && l !in p.lanes
      ensures l.id == p.replacing && Lane(l.id, false) in p.lanes
    {
      var i :| 0 <= i < |q.lanes| && q.lanes[i] == l;
      if i < |p.lanes| {
        assert p.lanes[i] in p.lanes;
      }
    }
  }

  lemma StillThere(p: Pool, i: nat)
    ensures forall l <- Step(p, Detached(i)).lanes :: l in p.lanes
  {
    var q := Step(p, Detached(i));
    forall l | l in q.lanes
      ensures l in p.lanes
    {
      var j :| 0 <= j < |q.lanes| && q.lanes[j] == l;
      assert l == p.lanes[if j < i then j else if i < |p.lanes| then j + 1 else j];
    }
  }

  /** Make before break: a lane begins to drain only in the step that attaches a fresh lane in its place, it is
      the lane to be replaced, and no step but a lane's own end leaves fewer lanes that are not draining. */
  lemma MakeBeforeBreak(max: nat, p: Pool, e: Event)
    requires Valid(max, p) && Enabled(max, p, e)
    ensures var q := Step(p, e);
            && (!e.Detached? ==> Active(q.lanes) >= Active(p.lanes))
            && (forall l <- q.lanes :: l.draining && l !in p.lanes ==>
                  && e.Attached? && l.id == p.replacing && Lane(l.id, false) in p.lanes
                  && Lane(p.nextId, false) in q.lanes && !Has(p, p.nextId))
  {
    match e
    case Attached =>
      ActiveAppend(p.lanes, Lane(p.nextId, false));
      RetireAtMostOne(p.lanes + [Lane(p.nextId, false)], p.replacing);
      NewlyDraining(max, p);
    case Detached(i) => StillThere(p, i);
    case _ =>
  }

  // ---------------------------------------------------------------------- placing flows

  function Ids(lanes: seq<Lane>): seq<nat> {
    seq(|lanes|, i requires 0 <= i < |lanes| => lanes[i].id)
  }

  /** The lane a packet prefers: the first of the lanes not draining with the lowest score; 0 if all drain. A
      score is a lane's round trip time and backlog, and is below the largest number there is. */
  method Preferred(lanes: seq<Lane>, scores: seq<real>, largest: real) returns (preferred: nat)
    requires |scores| == |lanes| && forall i :: 0 <= i < |scores| ==> scores[i] < largest
    requires forall i :: 0 <= i < |lanes| ==> lanes[i].id != 0
    ensures if exists i :: 0 <= i < |lanes| && !lanes[i].draining then
              exists i :: 0 <= i < |lanes| && lanes[i] == Lane(preferred, false)
                && (forall j :: 0 <= j < |lanes| && !lanes[j].draining ==> scores[i] <= scores[j])
            else preferred == 0
  {
    preferred := 0;
    var best := largest;
    ghost var at := 0;
    var i := 0;
    while i < |lanes|
      invariant i <= |lanes|
      invariant preferred == 0 ==> best == largest && forall j :: 0 <= j < i ==> lanes[j].draining
      invariant preferred != 0 ==> 0 <= at < i && lanes[at] == Lane(preferred, false) && best == scores[at]
      invariant forall j :: 0 <= j < i && !lanes[j].draining ==> best <= scores[j]
    {
      if !lanes[i].draining && scores[i] < best {
        best, preferred, at := scores[i], lanes[i].id, i;
      }
      i := i + 1;
    }
  }

  /** A flow that is placed anew goes to a lane that is not draining, if there is one. */
  lemma PlacementAvoidsDraining(max: nat, p: Pool, preferred: nat, hash: Bytes -> nat, t: PoolAffinity.Table,
      key: Bytes, now: nat, after: PoolAffinity.Table, lane: nat)
    requires Valid(max, p) && Lane(preferred, false) in p.lanes
    requires PoolAffinity.Chosen(hash, t, key, Ids(p.lanes), now, preferred, after, lane)
    requires key !in t || t[key].lane !in Ids(p.lanes)
    ensures lane == preferred && forall l <- p.lanes :: l.id == lane ==> !l.draining
  {
    var i :| 0 <= i < |p.lanes| && p.lanes[i] == Lane(preferred, false);
    assert Ids(p.lanes)[i] == preferred;
    forall l | l in p.lanes && l.id == preferred
      ensures !l.draining
    {
      var j :| 0 <= j < |p.lanes| && p.lanes[j] == l;
    }
  }

  // ---------------------------------------------------------------------- the loop's state

  class ClientPool {
    const max: nat
    var lanes: seq<Lane>
    var nextId: nat
    var dialing: bool
    var replacing: nat

    constructor (max: nat)
      ensures this.max == max && Model() == INITIAL && Valid(max, Model())
    {
      this.max := max;
      lanes, nextId, dialing, replacing := [], 1, false, 0;
    }

    function Model(): Pool
      reads this
    {
      Pool(lanes, nextId, dialing, replacing)
    }

    /** A finished dial: the new lane is attached, then the lane it replaces, if it is still there, set draining. */
    method DialFinished(ok: bool)
      requires Valid(max, Model()) && dialing
      modifies this
      ensures Valid(max, Model())
      ensures Model() == Step(old(Model()), if ok then Attached else DialFailed)
      ensures !dialing && replacing == 0 && (!ok ==> lanes == old(lanes))
    {
      StepValid(max, Model(), if ok then Attached else DialFailed);
      dialing := false;
      if ok {
        lanes := lanes + [Lane(nextId, false)];
        nextId := nextId + 1;
        if replacing != 0 {
          ghost var start := lanes;
          var i := 0;
          while i < |lanes|
            invariant i <= |lanes| == |start|
            invariant forall j :: 0 <= j < |lanes| ==>
                        lanes[j] == if j < i then Retire(start, replacing)[j] else start[j]
            invariant nextId == old(nextId) + 1 && !dialing && replacing == old(replacing)
          {
            if lanes[i].id == replacing {
              lanes := lanes[i := lanes[i].(draining := true)];
            }
            i := i + 1;
          }
          assert lanes == Retire(start, replacing);
        }
      }
      replacing := 0;
      assert Model() == Step(old(Model()), if ok then Attached else DialFailed);
    }

    /** Picks the first lane that wants replacing, when the pool is complete and quiet and the waits between two
        replacements and before the next dial are over. */
    method ConsiderReplacement(due: bool, wanted: seq<bool>)
      requires Valid(max, Model()) && |wanted| == |lanes|
      modifies this
      ensures Valid(max, Model())
      ensures var quiet := due && !old(dialing) && |old(lanes)| == max && forall l <- old(lanes) :: !l.draining;
              if quiet && true in wanted then
                exists i :: 0 <= i < |wanted| && wanted[i] && (forall j :: 0 <= j < i ==> !wanted[j])
                  && Model() == Step(old(Model()), Replace(i))
              else Model() == old(Model())
    {
      if !due || dialing || |lanes| != max || exists l <- lanes :: l.draining {
        return;
      }
      var i := 0;
      while i < |lanes|
        invariant i <= |lanes| && Model() == old(Model())
        invariant forall j :: 0 <= j < i ==> !wanted[j]
      {
        if wanted[i] {
          StepValid(max, Model(), Replace(i));
          replacing := lanes[i].id;
          assert Model() == Step(old(Model()), Replace(i));
          return;
        }
        i := i + 1;
      }
    }

    /** Starts a dial if a lane is missing or to be replaced, none is under way and the wait before the next is over. */
    method MaybeDial(due: bool) returns (started: bool)
      requires Valid(max, Model())
      modifies this
      ensures Valid(max, Model())
      ensures started == (due && Enabled(max, old(Model()), Dial))
      ensures Model() == if started then Step(old(Model()), Dial) else old(Model())
    {
      started := (|lanes| < max || replacing != 0) && !dialing && due;
      if started {
        StepValid(max, Model(), Dial);
        dialing := true;
      }
    }

    method Detach(i: nat)
      requires Valid(max, Model())
      modifies this
      ensures Valid(max, Model())
      ensures Model() == Step(old(Model()), Detached(i))
    {
      if i >= |lanes| {
        return;
      }
      StepValid(max, Model(), Detached(i));
      lanes := lanes[..i] + lanes[i + 1..];
    }
  }
}
