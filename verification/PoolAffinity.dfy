/** Which lane a flow is sent on: a bounded table of the flows seen lately, least recently used out first. */
module PoolAffinity {
  import opened Bytes

  const CAP := 4096
  const IDLE := 180_000_000

  datatype Entry = Entry(lane: nat, last: nat)

  type Table = map<Bytes, Entry>

  predicate Idle(e: Entry, now: nat) {
    now >= e.last && now - e.last > IDLE
  }

  function Pruned(t: Table, now: nat): Table {
    map k | k in t && !Idle(t[k], now) :: t[k]
  }

  /** The lane of a flow without one: the preferred lane if it is live, else one the key's hash picks. */
  function Fallback(hash: Bytes -> nat, key: Bytes, live: seq<nat>, preferred: nat): nat
    requires live != []
  {
    if preferred != 0 && preferred in live then preferred else live[hash(key) % |live|]
  }

  /** No flow of the table was used longer ago. */
  predicate Oldest(t: Table, v: Bytes) {
    v in t && forall k <- t :: t[v].last <= t[k].last
  }

  /** A full table is pruned, and if that does not help loses an oldest flow; which one, if several are
      oldest, is up to the hash table. */
  ghost predicate MakesRoom(t: Table, now: nat, room: Table) {
    if |t| < CAP then room == t
    else
      var p := Pruned(t, now);
      if |p| < CAP then room == p
      else exists v :: Oldest(p, v) && room == p - {v}
  }

  /** What a choice does to the table and which lane it gives. */
  ghost predicate Chosen(hash: Bytes -> nat, t: Table, key: Bytes, live: seq<nat>, now: nat, preferred: nat,
      after: Table, lane: nat) {
    if live == [] then after == t && lane == 0
    else if key in t && t[key].lane in live then
      lane == t[key].lane && after == t[key := Entry(lane, now)]
    else
      && lane == Fallback(hash, key, live, preferred)
      && if key in t then after == t[key := Entry(lane, now)]
         else exists room :: MakesRoom(t, now, room) && after == room[key := Entry(lane, now)]
  }

  class PoolAffinity {
    var flows: Table
    const hash: Bytes -> nat

    constructor (hash: Bytes -> nat)
      ensures flows == map[] && this.hash == hash
    {
      flows, this.hash := map[], hash;
    }

    method Prune(now: nat)
      modifies this
      ensures flows == Pruned(old(flows), now)
    {
      var left := flows.Keys;
      while left != {}
        invariant left <= old(flows).Keys
        invariant forall k :: k in flows <==> k in old(flows) && (k in left || !Idle(old(flows)[k], now))
        invariant forall k <- flows :: flows[k] == old(flows)[k]
        decreases |left|
      {
        var k :| k in left;
        if Idle(flows[k], now) {
          flows := flows - {k};
        }
        left := left - {k};
      }
    }

    method FindOldest() returns (oldest: Bytes)
      requires |flows| > 0
      ensures Oldest(flows, oldest)
    {
      assert flows.Keys != {};
      var left := flows.Keys;
      oldest :| oldest in left;
      while left != {}
        invariant left <= flows.Keys && oldest in flows
        invariant forall k <- flows :: k in left || flows[oldest].last <= flows[k].last
        decreases |left|
      {
        var k :| k in left;
        if flows[k].last < flows[oldest].last {
          oldest := k;
        }
        left := left - {k};
      }
    }

    /** Chooses a live lane for the flow; 0 if there is none. */
    method Choose(key: Bytes, live: seq<nat>, now: nat, preferred: nat) returns (lane: nat)
      requires |flows| <= CAP
      modifies this
      ensures |flows| <= CAP
      ensures live == [] ==> lane == 0
      ensures live != [] ==> lane in live
      ensures Chosen(hash, old(flows), key, live, now, preferred, flows, lane)
    {
      if live == [] {
        return 0;
      }
      if key in flows && flows[key].lane in live {
        lane := flows[key].lane;
        flows := flows[key := Entry(lane, now)];
        SameKeys(old(flows), key, Entry(lane, now));
        return;
      }
      lane := if preferred != 0 && preferred in live then preferred else live[hash(key) % |live|];
      if key in flows {
        flows := flows[key := Entry(lane, now)];
        SameKeys(old(flows), key, Entry(lane, now));
        return;
      }
      if |flows| >= CAP {
        Prune(now);
        PrunedSmaller(old(flows), now);
        if |flows| >= CAP {
          var v := FindOldest();
          OneLess(flows, v);
          flows := flows - {v};
        }
      }
      assert MakesRoom(old(flows), now, flows);
      flows := flows[key := Entry(lane, now)];
    }
  }

  lemma SameKeys(t: Table, key: Bytes, e: Entry)
    requires key in t
    ensures |t[key := e]| == |t|
  {
    assert t[key := e].Keys == t.Keys;
  }

  lemma PrunedSmaller(t: Table, now: nat)
    ensures |Pruned(t, now)| <= |t|
  {
    SubsetSize(Pruned(t, now).Keys, t.Keys);
  }

  lemma OneLess(t: Table, v: Bytes)
    requires v in t
    ensures |t - {v}| == |t| - 1
  {
    assert (t - {v}).Keys == t.Keys - {v};
  }

  lemma SubsetSize<T>(a: set<T>, b: set<T>)
    requires a <= b
    ensures |a| <= |b|
  {
    assert b == a + (b - a);
  }

  // ---------------------------------------------------------------------- runs

  datatype Act = Use(key: Bytes, live: seq<nat>, now: nat, preferred: nat) | Sweep(now: nat)

  ghost predicate Acts(hash: Bytes -> nat, t: Table, a: Act, after: Table, lane: nat) {
    match a
    case Use(key, live, now, preferred) => Chosen(hash, t, key, live, now, preferred, after, lane)
    case Sweep(now) => after == Pruned(t, now)
  }

  /** A run: the tables before and after each act, and the lanes chosen. */
  ghost predicate Run(hash: Bytes -> nat, ts: seq<Table>, acts: seq<Act>, lanes: seq<nat>) {
    && |ts| == |acts| + 1 && |lanes| == |acts|
    && forall i :: 0 <= i < |acts| ==> Acts(hash, ts[i], acts[i], ts[i + 1], lanes[i])
  }

  /** Time moves on between any two acts. */
  predicate Increasing(acts: seq<Act>) {
    forall i, j :: 0 <= i < j < |acts| ==> acts[i].now < acts[j].now
  }

  lemma RoomBounded(t: Table, now: nat, room: Table)
    requires MakesRoom(t, now, room) && |t| <= CAP
    ensures |room| < CAP && forall k <- room :: k in t && room[k] == t[k]
  {
    PrunedSmaller(t, now);
    var p := Pruned(t, now);
    if |t| >= CAP && |p| >= CAP {
      var v :| Oldest(p, v) && room == p - {v};
      OneLess(p, v);
    }
  }

  /** One act keeps the table within its bound and adds no entry but the one it stamps. */
  lemma ActBounded(hash: Bytes -> nat, t: Table, a: Act, after: Table, lane: nat)
    requires Acts(hash, t, a, after, lane) && |t| <= CAP
    ensures |after| <= CAP
    ensures forall k <- after :: (k in t && after[k] == t[k]) || (a.Use? && k == a.key && after[k].last == a.now)
  {
    match a
    case Sweep(now) => PrunedSmaller(t, now);
    case Use(key, live, now, preferred) =>
      if key in t {
        SameKeys(t, key, Entry(lane, now));
      } else if live != [] {
        var room :| MakesRoom(t, now, room) && after == room[key := Entry(lane, now)];
        RoomBounded(t, now, room);
      }
  }

  /** In every run from an empty table, whatever the times, the table is within its bound. */
  lemma {:induction false} RunBounded(hash: Bytes -> nat, ts: seq<Table>, acts: seq<Act>, lanes: seq<nat>, i: nat)
    requires Run(hash, ts, acts, lanes) && ts[0] == map[] && i <= |acts|
    ensures |ts[i]| <= CAP
    decreases i
  {
    hide Acts;
    if i > 0 {
      RunBounded(hash, ts, acts, lanes, i - 1);
      ActBounded(hash, ts[i - 1], acts[i - 1], ts[i], lanes[i - 1]);
    }
  }

  /** The time is that of one of the first i acts. */
  predicate Passed(acts: seq<Act>, i: nat, time: nat) {
    exists j :: 0 <= j < i && j < |acts| && time == acts[j].now
  }

  lemma PassedStays(acts: seq<Act>, i: nat, time: nat)
    requires Passed(acts, i, time)
    ensures Passed(acts, i + 1, time)
  {
  }

  /** Every stamp in the table is the time of an act before. */
  lemma {:induction false} StampsPast(hash: Bytes -> nat, ts: seq<Table>, acts: seq<Act>, lanes: seq<nat>, i: nat)
    requires Run(hash, ts, acts, lanes) && ts[0] == map[] && i <= |acts|
    ensures forall k <- ts[i] :: Passed(acts, i, ts[i][k].last)
    decreases i
  {
    hide Acts, Passed;
    if i > 0 {
      StampsPast(hash, ts, acts, lanes, i - 1);
      RunBounded(hash, ts, acts, lanes, i - 1);
      var t, after := ts[i - 1], ts[i];
      ActBounded(hash, t, acts[i - 1], after, lanes[i - 1]);
      forall k | k in after
        ensures Passed(acts, i, after[k].last)
      {
        if k in t && after[k] == t[k] {
          PassedStays(acts, i - 1, after[k].last);
        } else {
          PassedNow(acts, i - 1);
        }
      }
    }
  }

  lemma PassedNow(acts: seq<Act>, i: nat)
    requires i < |acts|
    ensures Passed(acts, i + 1, acts[i].now)
  {
  }

  function KeysUsed(acts: seq<Act>, from: nat, to: nat): set<Bytes>
    requires from <= to <= |acts|
  {
    set i | from <= i < to && acts[i].Use? :: acts[i].key
  }

  /** The flow's entry is as its last use left it, and whatever was stamped since belongs to a flow used since. */
  ghost predicate Held(ts: seq<Table>, acts: seq<Act>, i: nat, j: nat, key: Bytes, lane: nat)
    requires i < j < |ts| && j <= |acts|
  {
    && key in ts[j] && ts[j][key] == Entry(lane, acts[i].now)
    && forall k <- ts[j] :: k != key && ts[j][k].last >= acts[i].now ==> k in KeysUsed(acts, i + 1, j)
  }

  /** A flow used at step i and not again before step n: nothing else was used under its key, and the others
      used in between are fewer than the table holds. */
  ghost predicate Quiet(acts: seq<Act>, i: nat, n: nat, key: Bytes)
    requires i < n < |acts|
  {
    && acts[n].now - acts[i].now <= IDLE
    && key !in KeysUsed(acts, i + 1, n)
    && |KeysUsed(acts, i + 1, n)| < CAP
  }

  lemma NotPruned(ts: seq<Table>, acts: seq<Act>, i: nat, j: nat, n: nat, key: Bytes, lane: nat)
    requires Increasing(acts) && i < j < n < |acts| && j < |ts| && Quiet(acts, i, n, key)
             && Held(ts, acts, i, j, key, lane)
    ensures key in Pruned(ts[j], acts[j].now) && Pruned(ts[j], acts[j].now)[key] == ts[j][key]
  {
    assert acts[j].now < acts[n].now;
  }

  /** The table need not evict the flow: if its entry were an oldest one, all the others would be of flows used
      since, and they are too few. */
  lemma NotEvicted(ts: seq<Table>, acts: seq<Act>, i: nat, j: nat, n: nat, key: Bytes, lane: nat)
    requires Increasing(acts) && i < j < n < |acts| && j < |ts| && Quiet(acts, i, n, key)
             && Held(ts, acts, i, j, key, lane)
    requires acts[j].Use? && acts[j].key !in ts[j]
    requires |Pruned(ts[j], acts[j].now)| >= CAP
    ensures !Oldest(Pruned(ts[j], acts[j].now), key)
  {
    var p := Pruned(ts[j], acts[j].now);
    if Oldest(p, key) {
      forall k | k in p && k != key
        ensures k in KeysUsed(acts, i + 1, n)
      {
        UsedSince(ts, acts, i, j, n, key, lane, k);
      }
      TooMany(p, key, acts[j].key, KeysUsed(acts, i + 1, n));
      assert false;
    }
  }

  lemma TooMany(p: Table, key: Bytes, other: Bytes, used: set<Bytes>)
    requires key in p && other !in p && other in used && forall k <- p :: k != key ==> k in used
    ensures |p| <= |used|
  {
    assert |p.Keys - {key}| == |p| - 1;
    SubsetSize(p.Keys - {key} + {other}, used);
  }

  /** Beside an oldest entry that still stands, all entries are of flows used since. */
  lemma UsedSince(ts: seq<Table>, acts: seq<Act>, i: nat, j: nat, n: nat, key: Bytes, lane: nat, k: Bytes)
    requires i < j < n < |acts| && j < |ts| && Held(ts, acts, i, j, key, lane)
    requires Oldest(Pruned(ts[j], acts[j].now), key) && k in Pruned(ts[j], acts[j].now) && k != key
    ensures k in KeysUsed(acts, i + 1, n)
  {
    assert k in KeysUsed(acts, i + 1, j);
    var x :| i + 1 <= x < j && acts[x].Use? && acts[x].key == k;
  }

  lemma HeldStep(hash: Bytes -> nat, ts: seq<Table>, acts: seq<Act>, lanes: seq<nat>, i: nat, j: nat, n: nat,
      key: Bytes, lane: nat)
    requires Run(hash, ts, acts, lanes) && Increasing(acts) && i < j < n < |acts|
    requires Quiet(acts, i, n, key) && Held(ts, acts, i, j, key, lane) && |ts[j]| <= CAP
    ensures Held(ts, acts, i, j + 1, key, lane)
  {
    var t, after, a := ts[j], ts[j + 1], acts[j];
    assert Acts(hash, t, a, after, lanes[j]);
    ActBounded(hash, t, a, after, lanes[j]);
    NotPruned(ts, acts, i, j, n, key, lane);
    assert KeysUsed(acts, i + 1, j) <= KeysUsed(acts, i + 1, j + 1);
    if a.Use? {
      assert a.key in KeysUsed(acts, i + 1, n) && a.key in KeysUsed(acts, i + 1, j + 1);
      if a.live != [] && a.key !in t {
        var room :| MakesRoom(t, a.now, room) && after == room[a.key := Entry(lanes[j], a.now)];
        var p := Pruned(t, a.now);
        if |t| >= CAP && |p| >= CAP {
          NotEvicted(ts, acts, i, j, n, key, lane);
          var v :| Oldest(p, v) && room == p - {v};
        }
        assert key in room && room[key] == t[key];
      }
    }
  }

  lemma HeldAtFirst(hash: Bytes -> nat, ts: seq<Table>, acts: seq<Act>, lanes: seq<nat>, i: nat, key: Bytes)
    requires Run(hash, ts, acts, lanes) && ts[0] == map[] && Increasing(acts) && i < |acts|
    requires acts[i].Use? && acts[i].key == key && acts[i].live != []
    ensures Held(ts, acts, i, i + 1, key, lanes[i])
  {
    RunBounded(hash, ts, acts, lanes, i);
    StampsPast(hash, ts, acts, lanes, i);
    assert Acts(hash, ts[i], acts[i], ts[i + 1], lanes[i]);
    ActBounded(hash, ts[i], acts[i], ts[i + 1], lanes[i]);
    var after := ts[i + 1];
    forall k | k in after && k != key
      ensures after[k].last < acts[i].now
    {
      assert Passed(acts, i, ts[i][k].last);
    }
  }

  lemma {:induction false} HeldThrough(hash: Bytes -> nat, ts: seq<Table>, acts: seq<Act>, lanes: seq<nat>, i: nat,
      j: nat, n: nat, key: Bytes)
    requires Run(hash, ts, acts, lanes) && ts[0] == map[] && Increasing(acts) && i < j <= n < |acts|
    requires acts[i].Use? && acts[i].key == key && acts[i].live != [] && Quiet(acts, i, n, key)
    ensures Held(ts, acts, i, j, key, lanes[i])
    decreases j
  {
    hide Held, Quiet, Acts;
    if j == i + 1 {
      HeldAtFirst(hash, ts, acts, lanes, i, key);
    } else {
      RunBounded(hash, ts, acts, lanes, j - 1);
      HeldThrough(hash, ts, acts, lanes, i, j - 1, n, key);
      HeldStep(hash, ts, acts, lanes, i, j - 1, n, key, lanes[i]);
    }
  }

  /** Stickiness: in every run from an empty table in which time moves on, a flow that is used again within 180
      seconds, and before 4096 other flows were, keeps its lane if that lane is still live. */
  lemma Sticky(hash: Bytes -> nat, ts: seq<Table>, acts: seq<Act>, lanes: seq<nat>, i: nat, n: nat)
    requires Run(hash, ts, acts, lanes) && ts[0] == map[] && Increasing(acts) && i < n < |acts|
    requires acts[i].Use? && acts[n].Use? && acts[n].key == acts[i].key && acts[i].live != []
    requires Quiet(acts, i, n, acts[i].key) && lanes[i] in acts[n].live
    ensures lanes[n] == lanes[i]
  {
    HeldThrough(hash, ts, acts, lanes, i, n, n, acts[i].key);
    assert Acts(hash, ts[n], acts[n], ts[n + 1], lanes[n]);
  }

  /** In every run, whatever the clock does, the table is bounded, and a lane is chosen from the live ones whenever
      there are any. */
  lemma AlwaysLive(hash: Bytes -> nat, ts: seq<Table>, acts: seq<Act>, lanes: seq<nat>, i: nat)
    requires Run(hash, ts, acts, lanes) && ts[0] == map[] && i < |acts|
    ensures |ts[i]| <= CAP && |ts[i + 1]| <= CAP
    ensures acts[i].Use? ==> if acts[i].live == [] then lanes[i] == 0 else lanes[i] in acts[i].live
  {
    RunBounded(hash, ts, acts, lanes, i);
    RunBounded(hash, ts, acts, lanes, i + 1);
    assert Acts(hash, ts[i], acts[i], ts[i + 1], lanes[i]);
  }
}
