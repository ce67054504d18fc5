/** Whole runs of the handshake: what every interleaving ends in, when it can fail, and between whom it can complete. */
module HandshakeRuns {
  import opened Bytes
  import opened Handshake

  // ---------------------------------------------------------------------- whole runs

  predicate Runs(s: System, es: seq<Event>)
    decreases |es|
  {
    es == [] || (Enabled(s, es[0]) && Runs(Step(s, es[0]), es[1..]))
  }

  function Run(s: System, es: seq<Event>): System
    requires Runs(s, es)
    decreases |es|
  {
    if es == [] then s else Run(Step(s, es[0]), es[1..])
  }

  /** No step of the run shows an unauthenticated reader a long frame. */
  predicate AllSmall(s: System, es: seq<Event>)
    requires Runs(s, es)
    decreases |es|
  {
    es == [] || (Small(s, es[0]) && AllSmall(Step(s, es[0]), es[1..]))
  }

  /** Both ends hold the same keys, made of the common key, both secrets and both nonces. */
  predicate SharedKeys(c: Party, v: Party) {
    && KeysOf(c) == Keys(c.psk, Min(c.secret, v.secret), Max(c.secret, v.secret), v.nonce, c.nonce, c.secret, v.secret)
    && KeysOf(v) == KeysOf(c)
  }

  predicate Failed(s: System) {
    s.client.failed || s.server.failed
  }

  lemma FailureStays(s: System, es: seq<Event>)
    requires Runs(s, es) && Failed(s)
    ensures Failed(Run(s, es))
    decreases |es|
  {
    if es != [] {
      FailureStays(Step(s, es[0]), es[1..]);
    }
  }

  /** A run ends in a valid state exactly if no step of it showed the client a long frame early; otherwise an end has
      failed. */
  lemma {:induction false} RunExact(s: System, es: seq<Event>)
    requires Valid(s) && Runs(s, es)
    ensures AllSmall(s, es) <==> Valid(Run(s, es))
    ensures AllSmall(s, es) <==> !Failed(Run(s, es))
    decreases |es|
  {
    if es != [] {
      var next := Step(s, es[0]);
      StepExact(s, es[0]);
      if Small(s, es[0]) {
        RunExact(next, es[1..]);
      } else {
        FailureStays(next, es[1..]);
      }
    }
  }

  /** Honest ends that are set up for each other, in every interleaving of their sends and reads. */
  lemma Handshakes(s: System, es: seq<Event>)
    requires Begun(s) && Agree(s.client.setup, s.server.setup) && Runs(s, es)
    ensures !Failed(Run(s, es)) <==> AllSmall(s, es)
    ensures AllSmall(s, es) ==>
              var t := Run(s, es);
              && (!Done(t.server) ==> |t.toServer| + |t.toClient| <= 1 && t.client.prefetched == [])
              && (Done(t.client) ==> Done(t.server) && SharedKeys(t.client, t.server))
              && t.client.delivered + t.client.prefetched <= t.server.sent && t.server.delivered <= t.client.sent
              && (Done(t.client) && t.client.prefetched + t.toClient == [] ==> t.client.delivered == t.server.sent)
              && (Done(t.client) && t.toServer == [] ==> t.server.delivered == t.client.sent)
  {
    BegunValid(s);
    RunExact(s, es);
    if AllSmall(s, es) {
      var t := Run(s, es);
      assert Valid(t);
      if Done(t.client) {
        assert t.client.delivered + t.client.prefetched + t.toClient == t.server.sent;
      }
    }
  }

  predicate AllShort(ms: seq<Message>) {
    forall i :: 0 <= i < |ms| ==> Size(ms[i]) <= MAX_UNAUTHENTICATED
  }

  predicate SendsShort(e: Event) {
    e.SendData? && !e.client ==> e.size <= MAX_UNAUTHENTICATED
  }

  lemma SentBy(s: System, e: Event)
    requires Enabled(s, e)
    ensures Step(s, e).server.sent == s.server.sent + (if e.SendData? && !e.client then [Data(e.size, e.tag)] else [])
  {
  }

  lemma ShortStep(s: System, e: Event)
    requires Valid(s) && Enabled(s, e) && AllShort(s.server.sent) && SendsShort(e)
    ensures Small(s, e) && Valid(Step(s, e)) && AllShort(Step(s, e).server.sent)
  {
    FailureIsEarlyData(s, e);
    StepExact(s, e);
    SentBy(s, e);
  }

  /** As long as the server's data fit the limit of an unauthenticated peer, no interleaving fails. */
  lemma {:induction false} ShortDataNeverFails(s: System, es: seq<Event>)
    requires Valid(s) && Runs(s, es) && AllShort(s.server.sent)
    requires forall i :: 0 <= i < |es| ==> SendsShort(es[i])
    ensures AllSmall(s, es)
    decreases |es|
  {
    if es != [] {
      ShortStep(s, es[0]);
      ShortDataNeverFails(Step(s, es[0]), es[1..]);
    }
  }

  /** The next step of the handshake itself: whoever's turn it is sends, the other end reads. */
  function NextEvent(s: System): Event {
    if s.client.turn == s.server.turn then Send(s.client.turn % 2 == 0)
    else Read(s.server.turn > s.client.turn, 1, false)
  }

  lemma NextAdvances(s: System)
    requires Valid(s) && !Done(s.client)
    ensures Enabled(s, NextEvent(s)) && Small(s, NextEvent(s))
    ensures var t := Step(s, NextEvent(s));
            t.client.turn + t.server.turn == s.client.turn + s.server.turn + 1 && t.server.sent == s.server.sent
  {
    StepExact(s, NextEvent(s));
    FailureIsEarlyData(s, NextEvent(s));
  }

  /** From wherever it stands, the handshake can be completed. */
  lemma {:induction false} CanComplete(s: System) returns (es: seq<Event>)
    requires Valid(s)
    ensures Runs(s, es) && AllSmall(s, es) && Done(Run(s, es).client) && Done(Run(s, es).server)
    decreases 2 * MESSAGES - s.client.turn - s.server.turn
  {
    if Done(s.client) {
      es := [];
    } else {
      NextAdvances(s);
      StepExact(s, NextEvent(s));
      var rest := CanComplete(Step(s, NextEvent(s)));
      es := [NextEvent(s)] + rest;
      assert es[1..] == rest;
    }
  }

  lemma TwoSteps(s: System, d: Event, e: Event)
    requires Enabled(s, d) && Enabled(Step(s, d), e)
    ensures Runs(s, [d, e]) && Run(s, [d, e]) == Step(Step(s, d), e)
  {
    hide Step, Enabled;
    assert [d, e][1..] == [e] && [e][1..] == [];
    assert Runs(Step(s, d), [e]) by {
      assert Runs(Step(Step(s, d), e), []);
    }
    assert Run(Step(s, d), [e]) == Step(Step(s, d), e);
  }

  /** Long data right behind the acknowledgement are fatal. */
  lemma EarlyDataFails(s: System, size: nat, tag: nat)
    requires Valid(s) && s.client.turn == MESSAGES - 1 && Done(s.server)
    requires s.server.sent == [] && size > MAX_UNAUTHENTICATED
    ensures var send, read := SendData(false, size, tag), Read(true, 1, true);
            Enabled(s, send) && Enabled(Step(s, send), read) && Failed(Step(Step(s, send), read))
  {
    var t := Step(s, SendData(false, size, tag));
    assert Size(t.toClient[1]) > MAX_UNAUTHENTICATED;
    assert Oversize(t.toClient, 1, true);
  }

  /** What the limit that still holds while the acknowledgement is under way breaks: the server may send at once, and
      whatever it sends beyond the limit can make the client fail when both arrive in one read. */
  lemma {:induction false} EarlyDataCanFail(s: System, size: nat, tag: nat) returns (es: seq<Event>)
    requires Valid(s) && !Done(s.client) && s.server.sent == [] && size > MAX_UNAUTHENTICATED
    ensures Runs(s, es) && Failed(Run(s, es))
    ensures forall i :: 0 <= i < |es| && es[i].SendData? ==> es[i] == SendData(false, size, tag)
    decreases 2 * MESSAGES - s.client.turn - s.server.turn
  {
    hide Enabled;
    if s.client.turn == MESSAGES - 1 && Done(s.server) {
      es := [SendData(false, size, tag), Read(true, 1, true)];
      EarlyDataFails(s, size, tag);
      TwoSteps(s, es[0], es[1]);
    } else {
      NextAdvances(s);
      StepExact(s, NextEvent(s));
      var rest := EarlyDataCanFail(Step(s, NextEvent(s)), size, tag);
      es := [NextEvent(s)] + rest;
      assert es[1..] == rest;
    }
  }

  // ---------------------------------------------------------------------- ends that are not set up for each other

  /** The server has accepted nothing, and the client waits for its proof. */
  predicate Unaccepted(s: System) {
    && s.client.client && !s.server.client && s.client.turn <= 1 && s.server.turn == 0 && s.toClient == []
    && s.client.prefetched == [] && s.server.prefetched == [] && !s.client.failed
    && |s.client.setup.psks| == 1 && s.client.psk == s.client.setup.psks[0]
    && s.client.setup.pool >= 1 && s.server.setup.pool >= 1
    && (s.client.turn == 0 ==> s.toServer == [])
    && (s.toServer == [] || s.toServer == [Outgoing(s.client.(turn := 0))])
  }

  lemma HelloChecked(c: Party, v: Party)
    requires c.client && c.turn == 0 && v.turn == 0 && |c.setup.psks| == 1 && c.psk == c.setup.psks[0]
    requires c.setup.pool >= 1 && v.setup.pool >= 1
    ensures Check(v, Outgoing(c)).Some? <==> Agree(c.setup, v.setup)
  {
    var m := Outgoing(c);
    var k := Match(v.setup, m.nonce, m.public, m.mac);
    if c.psk in v.setup.psks && c.setup.host == v.setup.host && c.setup.path == v.setup.path
      && c.setup.pool == v.setup.pool {
      var i :| 0 <= i < |v.setup.psks| && v.setup.psks[i] == c.psk;
      assert m.mac == Token(v.setup.psks[i], v.setup.host, v.setup.path, m.nonce, m.public, Bind(v.setup));
    }
  }

  lemma StrangersStep(s: System, e: Event)
    requires Unaccepted(s) && !Agree(s.client.setup, s.server.setup) && Enabled(s, e)
    ensures Unaccepted(Step(s, e)) && Step(s, e).client.setup == s.client.setup
            && Step(s, e).server.setup == s.server.setup
  {
    HelloChecked(s.client.(turn := 0), s.server);
    if e.Read? {
      assert !e.client && s.toServer[..e.count][0] == Outgoing(s.client.(turn := 0));
    }
  }

  lemma {:induction false} StrangersRun(s: System, es: seq<Event>)
    requires Unaccepted(s) && !Agree(s.client.setup, s.server.setup) && Runs(s, es)
    ensures Unaccepted(Run(s, es))
    decreases |es|
  {
    if es != [] {
      StrangersStep(s, es[0]);
      StrangersRun(Step(s, es[0]), es[1..]);
    }
  }

  predicate Completes(s: System, es: seq<Event>) {
    Runs(s, es) && Done(Run(s, es).client)
  }

  /** The handshake can complete exactly between ends with a common key and the same host, path and pool size. */
  lemma CompletesIffAgreed(s: System)
    requires Begun(s)
    ensures Agree(s.client.setup, s.server.setup) <==>
            exists es :: Completes(s, es)
  {
    if Agree(s.client.setup, s.server.setup) {
      BegunValid(s);
      var es := CanComplete(s);
      assert Completes(s, es);
    } else {
      forall es
        ensures !Completes(s, es)
      {
        if Runs(s, es) {
          StrangersRun(s, es);
        }
      }
    }
  }
}
