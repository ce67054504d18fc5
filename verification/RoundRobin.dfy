/** The turn taking that the batch scheduler and the flow queue share: flows of two classes, a cursor
    for each class, and at most two interactive turns in a row while bulk traffic waits. */
module RoundRobin {
  import opened Bytes

  datatype Flow<T> = Flow(key: Bytes, items: seq<T>, interactive: bool)

  datatype Turn = Turn(interactiveCursor: nat, bulkCursor: nat, interactiveTurns: nat)

  const START := Turn(0, 0, 0)

  predicate Ready<T>(flows: seq<Flow<T>>, i: nat, interactive: bool)
    requires i < |flows|
  {
    flows[i].interactive == interactive && |flows[i].items| > 0
  }

  /** Some flow of the class has something waiting. */
  predicate Waiting<T>(flows: seq<Flow<T>>, interactive: bool) {
    exists i :: 0 <= i < |flows| && Ready(flows, i, interactive)
  }

  predicate TurnOk<T>(flows: seq<Flow<T>>, t: Turn) {
    && t.interactiveTurns <= 2
    && (flows != [] ==> t.interactiveCursor < |flows| && t.bulkCursor < |flows|)
  }

  /** How far ahead of the cursor index i is, going round n places. */
  function Ahead(cursor: nat, i: nat, n: nat): nat
    requires cursor < n && i < n
  {
    if i >= cursor then i - cursor else i + n - cursor
  }

  lemma Wrap(i: nat, n: nat)
    requires 0 < n && i < 2 * n
    ensures i % n == if i < n then i else i - n
  {
  }

  /** The first flow of the class with something waiting, going round from the cursor; |flows| if none. */
  function Next<T>(flows: seq<Flow<T>>, interactive: bool, cursor: nat, visited: nat): (r: nat)
    requires visited <= |flows|
    ensures r <= |flows|
    decreases |flows| - visited
  {
    if visited == |flows| then |flows|
    else
      var i := (cursor + visited) % |flows|;
      if Ready(flows, i, interactive) then i else Next(flows, interactive, cursor, visited + 1)
  }

  /** Next finds a waiting flow whenever there is one, and no waiting flow is nearer to the cursor. */
  lemma {:induction false} NextIsNearest<T>(flows: seq<Flow<T>>, interactive: bool, cursor: nat, visited: nat)
    requires visited <= |flows| && (flows != [] ==> cursor < |flows|)
    requires forall j :: 0 <= j < |flows| && Ready(flows, j, interactive) ==> Ahead(cursor, j, |flows|) >= visited
    ensures var r := Next(flows, interactive, cursor, visited);
            if r == |flows| then !Waiting(flows, interactive)
            else Ready(flows, r, interactive)
                 && forall j :: 0 <= j < |flows| && Ready(flows, j, interactive) ==>
                      Ahead(cursor, r, |flows|) <= Ahead(cursor, j, |flows|)
    decreases |flows| - visited
  {
    var n := |flows|;
    if visited < n {
      Wrap(cursor + visited, n);
      var i := (cursor + visited) % n;
      assert Ahead(cursor, i, n) == visited;
      if !Ready(flows, i, interactive) {
        forall j | 0 <= j < n && Ready(flows, j, interactive)
          ensures Ahead(cursor, j, n) >= visited + 1
        {
          assert j != i;
        }
        NextIsNearest(flows, interactive, cursor, visited + 1);
      }
    }
  }

  datatype Choice = Choice(index: nat, turn: Turn)

  /** Whose turn it is: an interactive flow if fewer than two interactive turns were taken since the last
      bulk one, else a bulk flow, else whatever is left. The index is |flows| if nothing waits. */
  function Select<T>(flows: seq<Flow<T>>, t: Turn): (c: Choice)
    ensures c.index <= |flows|
  {
    var n := |flows|;
    var i := Next(flows, true, t.interactiveCursor, 0);
    if t.interactiveTurns < 2 && i < n then
      Choice(i, t.(interactiveCursor := (i + 1) % n, interactiveTurns := t.interactiveTurns + 1))
    else
      var b := Next(flows, false, t.bulkCursor, 0);
      if b < n then Choice(b, t.(bulkCursor := (b + 1) % n, interactiveTurns := 0))
      else if i < n then Choice(i, t.(interactiveCursor := (i + 1) % n, interactiveTurns := 1))
      else Choice(n, t)
  }

  /** What a choice guarantees. */
  lemma SelectServes<T>(flows: seq<Flow<T>>, t: Turn)
    requires TurnOk(flows, t)
    ensures var c := Select(flows, t);
            && TurnOk(flows, c.turn)
            && (c.index == |flows| <==> !Waiting(flows, true) && !Waiting(flows, false))
            && (c.index < |flows| ==>
                  var kind := flows[c.index].interactive;
                  && Ready(flows, c.index, kind)
                  && (kind ==> c.turn.interactiveTurns == if t.interactiveTurns < 2 then t.interactiveTurns + 1 else 1)
                  && (kind && Waiting(flows, false) ==>
                        t.interactiveTurns < 2 && c.turn.interactiveTurns == t.interactiveTurns + 1)
                  && (!kind ==> c.turn.interactiveTurns == 0 && (t.interactiveTurns < 2 ==> !Waiting(flows, true))))
  {
    NextIsNearest(flows, true, t.interactiveCursor, 0);
    NextIsNearest(flows, false, t.bulkCursor, 0);
    if flows != [] {
      var i := Next(flows, true, t.interactiveCursor, 0);
      var b := Next(flows, false, t.bulkCursor, 0);
      if i < |flows| {
        Wrap(i + 1, |flows|);
      }
      if b < |flows| {
        Wrap(b + 1, |flows|);
      }
    }
  }

  // ---------------------------------------------------------------------- each flow in its turn

  function Cursor(t: Turn, interactive: bool): nat {
    if interactive then t.interactiveCursor else t.bulkCursor
  }

  /** Going round from just after f, the cursor has gone past place x. */
  predicate Passed(f: nat, cursor: nat, x: nat) {
    if cursor > f then f < x < cursor else x > f || x < cursor
  }

  /** While f waits, the next turn of its class goes to a place not passed since f was last served, and
      passes it unless it is f's own; the other class's turns do not move the cursor. */
  lemma TurnsPass<T>(flows: seq<Flow<T>>, t: Turn, f: nat)
    requires TurnOk(flows, t) && f < |flows| && |flows[f].items| > 0
    ensures var kind := flows[f].interactive;
            var c := Select(flows, t);
            && c.index < |flows|
            && (flows[c.index].interactive != kind ==> Cursor(c.turn, kind) == Cursor(t, kind))
            && (flows[c.index].interactive == kind ==> !Passed(f, Cursor(t, kind), c.index))
            && (flows[c.index].interactive == kind && c.index != f ==>
                  && Passed(f, Cursor(c.turn, kind), c.index)
                  && forall x :: 0 <= x < |flows| && Passed(f, Cursor(t, kind), x) ==>
                       Passed(f, Cursor(c.turn, kind), x))
  {
    hide Next;
    var kind := flows[f].interactive;
    var n := |flows|;
    assert Ready(flows, f, kind);
    SelectServes(flows, t);
    NextIsNearest(flows, kind, Cursor(t, kind), 0);
    var c := Select(flows, t);
    if flows[c.index].interactive == kind {
      NextIsNearest(flows, !kind, Cursor(t, !kind), 0);
      assert c.index == Next(flows, kind, Cursor(t, kind), 0);
      assert Ahead(Cursor(t, kind), c.index, n) <= Ahead(Cursor(t, kind), f, n);
      Wrap(c.index + 1, n);
    }
  }

  /** Just after f is served nothing has been passed. */
  lemma ServedPassesNothing<T>(flows: seq<Flow<T>>, t: Turn)
    requires TurnOk(flows, t) && Select(flows, t).index < |flows|
    ensures var c := Select(flows, t);
            forall x :: 0 <= x < |flows| ==> !Passed(c.index, Cursor(c.turn, flows[c.index].interactive), x)
  {
    hide Next;
    SelectServes(flows, t);
    NextIsNearest(flows, true, t.interactiveCursor, 0);
    NextIsNearest(flows, false, t.bulkCursor, 0);
    Wrap(Select(flows, t).index + 1, |flows|);
  }

  // ---------------------------------------------------------------------- looking a flow up

  /** The first flow with the key, |flows| if none. */
  function Find<T>(flows: seq<Flow<T>>, key: Bytes): (r: nat)
    ensures r <= |flows|
    ensures r < |flows| ==> flows[r].key == key
    ensures forall i :: 0 <= i < r ==> flows[i].key != key
  {
    if flows == [] then 0
    else if flows[0].key == key then 0
    else 1 + Find(flows[1..], key)
  }

  method Lookup<T>(flows: seq<Flow<T>>, key: Bytes) returns (r: nat)
    ensures r == Find(flows, key)
  {
    r := 0;
    while r < |flows| && flows[r].key != key
      invariant r <= |flows|
      invariant forall i :: 0 <= i < r ==> flows[i].key != key
    {
      r := r + 1;
    }
  }

  predicate DistinctKeys<T>(flows: seq<Flow<T>>) {
    forall i, j :: 0 <= i < j < |flows| ==> flows[i].key != flows[j].key
  }

  /** The flows after an item with the given key arrived. */
  function Insert<T>(flows: seq<Flow<T>>, key: Bytes, item: T, small: bool): seq<Flow<T>> {
    var i := Find(flows, key);
    if i == |flows| then flows + [Flow(key, [item], small)]
    else flows[i := flows[i].(items := flows[i].items + [item])]
  }

  lemma InsertTotal<T>(flows: seq<Flow<T>>, key: Bytes, item: T, small: bool)
    ensures Total(Insert(flows, key, item, small)) == Total(flows) + 1
    ensures DistinctKeys(flows) ==> DistinctKeys(Insert(flows, key, item, small))
  {
    var i := Find(flows, key);
    if i == |flows| {
      TotalAppend(flows, Flow(key, [item], small));
    } else {
      TotalUpdate(flows, i, flows[i].(items := flows[i].items + [item]));
    }
  }

  lemma OneFlow<T>(flows: seq<Flow<T>>, i: nat, key: Bytes)
    requires DistinctKeys(flows) && i < |flows|
    ensures flows[i].key == key <==> i == Find(flows, key)
  {
  }

  lemma InsertDistinct<T>(flows: seq<Flow<T>>, key: Bytes, item: T, small: bool)
    requires DistinctKeys(flows)
    ensures DistinctKeys(Insert(flows, key, item, small))
  {
  }

  /** Where a flow is after an insertion. */
  lemma FindInsert<T>(flows: seq<Flow<T>>, key: Bytes, item: T, small: bool, wanted: Bytes)
    ensures var later := Insert(flows, key, item, small);
            var f := Find(later, wanted);
            if f == |later| then Find(flows, wanted) == |flows| && wanted != key
            else if wanted == key then
              if Find(flows, key) == |flows| then later[f] == Flow(key, [item], small)
              else f == Find(flows, key) && later[f] == flows[f].(items := flows[f].items + [item])
            else f == Find(flows, wanted) < |flows| && later[f] == flows[f]
  {
    var later := Insert(flows, key, item, small);
    var f, g, at := Find(later, wanted), Find(flows, wanted), Find(flows, key);
    assert forall i :: 0 <= i < |flows| ==> later[i].key == flows[i].key;
    if at == |flows| {
      assert later[|flows|].key == key;
    }
  }

  // ---------------------------------------------------------------------- the loops

  /** One pass over the flows from the cursor. */
  method Take<T>(flows: seq<Flow<T>>, interactive: bool, cursor: nat) returns (index: nat, next: nat)
    ensures index == Next(flows, interactive, cursor, 0)
    ensures next == if index < |flows| then (index + 1) % |flows| else cursor
  {
    var visited := 0;
    while visited < |flows|
      invariant visited <= |flows|
      invariant Next(flows, interactive, cursor, 0) == Next(flows, interactive, cursor, visited)
    {
      index := (cursor + visited) % |flows|;
      if flows[index].interactive == interactive && flows[index].items != [] {
        return index, (index + 1) % |flows|;
      }
      visited := visited + 1;
    }
    return |flows|, cursor;
  }

  method Choose<T>(flows: seq<Flow<T>>, t: Turn) returns (index: nat, turn: Turn)
    ensures Choice(index, turn) == Select(flows, t)
  {
    turn := t;
    index := |flows|;
    var cursor;
    if turn.interactiveTurns < 2 {
      index, cursor := Take(flows, true, turn.interactiveCursor);
      if index != |flows| {
        turn := turn.(interactiveCursor := cursor, interactiveTurns := turn.interactiveTurns + 1);
      }
    }
    if index == |flows| {
      index, cursor := Take(flows, false, turn.bulkCursor);
      if index != |flows| {
        turn := turn.(bulkCursor := cursor, interactiveTurns := 0);
      }
    }
    if index == |flows| {
      index, cursor := Take(flows, true, turn.interactiveCursor);
      if index != |flows| {
        turn := turn.(interactiveCursor := cursor, interactiveTurns := 1);
      }
    }
  }

  // ---------------------------------------------------------------------- contents

  function Total<T>(flows: seq<Flow<T>>): nat {
    if flows == [] then 0 else |flows[0].items| + Total(flows[1..])
  }

  lemma {:induction false} TotalUpdate<T>(flows: seq<Flow<T>>, i: nat, flow: Flow<T>)
    requires i < |flows|
    ensures Total(flows[i := flow]) == Total(flows) - |flows[i].items| + |flow.items|
    decreases |flows|
  {
    if i == 0 {
      assert flows[i := flow][1..] == flows[1..];
    } else {
      assert flows[i := flow][1..] == flows[1..][i - 1 := flow];
      TotalUpdate(flows[1..], i - 1, flow);
    }
  }

  lemma {:induction false} TotalAppend<T>(flows: seq<Flow<T>>, flow: Flow<T>)
    ensures Total(flows + [flow]) == Total(flows) + |flow.items|
    decreases |flows|
  {
    if flows == [] {
      assert flows + [flow] == [flow];
      assert Total([flow][1..]) == 0;
    } else {
      assert (flows + [flow])[1..] == flows[1..] + [flow];
      TotalAppend(flows[1..], flow);
    }
  }

  lemma {:induction false} TotalZero<T>(flows: seq<Flow<T>>)
    ensures Total(flows) == 0 <==> !Waiting(flows, true) && !Waiting(flows, false)
    decreases |flows|
  {
    if flows != [] {
      TotalZero(flows[1..]);
      forall i | 0 <= i < |flows[1..]|
        ensures flows[1..][i] == flows[i + 1]
      {
      }
      if |flows[0].items| > 0 {
        assert Ready(flows, 0, flows[0].interactive);
      }
      forall c: bool
        ensures Waiting(flows[1..], c) ==> Waiting(flows, c)
      {
        if Waiting(flows[1..], c) {
          var i :| 0 <= i < |flows[1..]| && Ready(flows[1..], i, c);
          assert Ready(flows, i + 1, c);
        }
      }
      if Total(flows) == 0 {
        forall i, c: bool | 0 <= i < |flows|
          ensures !Ready(flows, i, c)
        {
          assert i > 0 ==> Ready(flows, i, c) == Ready(flows[1..], i - 1, c);
        }
      }
    }
  }
}
