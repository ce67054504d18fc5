/** The handshake of client and server after the WebSocket upgrade: hello, proof, key confirmation, three trial rounds,
    commit and acknowledgement, over two channels whose messages arrive in batches of any size. Cryptography is
    symbolic: a MAC or a key is the term of what it was made from. */
module Handshake {
  import opened Bytes

  const MAX_UNAUTHENTICATED := 1024

  /** The number of handshake messages; the client sends the even ones, the server the odd ones. */
  const MESSAGES := 12

  /** What a key is derived from: the pre-shared key, the Diffie-Hellman secret of the two key pairs, which is the same
      for both ends, and the transcript. */
  datatype Keys = Keys(psk: nat, low: nat, high: nat, serverNonce: nat, clientNonce: nat, clientPublic: nat,
    serverPublic: nat)

  datatype Term =
    | Token(psk: nat, host: nat, path: nat, clientNonce: nat, clientPublic: nat, bind: Option<nat>)
    | Proof(psk: nat, host: nat, path: nat, clientNonce: nat, serverNonce: nat, clientPublic: nat, serverPublic: nat,
      bind: Option<nat>)
    | Confirmation(keys: Keys, client: bool)
    | TrialMac(keys: Keys, kind: nat, nonce: nat)

  /** Public keys are named by the secret they belong to. */
  datatype Message =
    | Hello(client: bool, pooled: bool, nonce: nat, public: nat, mac: Term)
    | Confirm(mac: Term)
    | Trial(kind: nat, nonce: nat, mac: Term)
    | Data(size: nat, tag: nat)

  function Size(m: Message): nat {
    match m
    case Hello(_, _, _, _, _) => 199
    case Confirm(_) => 32
    case Trial(_, _, _) => 65
    case Data(size, _) => size
  }

  /** An end's configuration; a client has one key, a server may accept several. */
  datatype Setup = Setup(psks: seq<nat>, host: nat, path: nat, pool: nat)

  /** `turn` is the number of the next handshake message this end sends or expects; `psk` and the peer's values
      mean something once they are known. */
  datatype Party = Party(
    client: bool, setup: Setup, secret: nat, nonce: nat, trials: seq<nat>,
    turn: nat, failed: bool, psk: nat, peerNonce: nat, peerPublic: nat, trialNonce: nat,
    prefetched: seq<Message>, delivered: seq<Message>, sent: seq<Message>)

  predicate Done(p: Party) {
    p.turn >= MESSAGES
  }

  predicate MySend(p: Party) {
    !Done(p) && p.client == (p.turn % 2 == 0)
  }

  function Bind(setup: Setup): Option<nat> {
    if setup.pool > 1 then Some(setup.pool) else None
  }

  function KeysOf(p: Party): Keys {
    var cn, sn := if p.client then p.nonce else p.peerNonce, if p.client then p.peerNonce else p.nonce;
    var cp, sp := if p.client then p.secret else p.peerPublic, if p.client then p.peerPublic else p.secret;
    Keys(p.psk, Min(p.secret, p.peerPublic), Max(p.secret, p.peerPublic), sn, cn, cp, sp)
  }

  /** The index of the key whose token is the given one, |psks| if none is. */
  function Match(setup: Setup, nonce: nat, public: nat, mac: Term): (r: nat)
    ensures r <= |setup.psks|
    ensures r < |setup.psks| ==> mac == Token(setup.psks[r], setup.host, setup.path, nonce, public, Bind(setup))
    ensures r == |setup.psks| ==> forall i :: 0 <= i < r ==>
              mac != Token(setup.psks[i], setup.host, setup.path, nonce, public, Bind(setup))
    decreases |setup.psks|
  {
    if setup.psks == [] then 0
    else if mac == Token(setup.psks[0], setup.host, setup.path, nonce, public, Bind(setup)) then 0
    else 1 + Match(setup.(psks := setup.psks[1..]), nonce, public, mac)
  }

  /** The server's search for the client's key: the first that fits. */
  method FindKey(setup: Setup, nonce: nat, public: nat, mac: Term) returns (index: nat)
    ensures index == Match(setup, nonce, public, mac)
    ensures index < |setup.psks| ==> forall i :: 0 <= i < index ==> setup.psks[i] != setup.psks[index]
  {
    index := 0;
    while index < |setup.psks|
      invariant index <= |setup.psks|
      invariant Match(setup, nonce, public, mac) == index
                + Match(setup.(psks := setup.psks[index..]), nonce, public, mac)
      invariant forall i :: 0 <= i < index ==> mac != Token(setup.psks[i], setup.host, setup.path, nonce, public,
                Bind(setup))
    {
      var want := Token(setup.psks[index], setup.host, setup.path, nonce, public, Bind(setup));
      if mac == want {
        break;
      }
      assert setup.psks[index..][1..] == setup.psks[index + 1..];
      index := index + 1;
    }
  }

  /** Trial message kinds: 0x40, 0x41, 0x42 ask, 0x50, 0x51, 0x52 answer, 0x60 commits and 0x61 acknowledges. */
  function TrialKind(turn: nat): nat {
    if turn == 10 then 0x60
    else if turn == 11 then 0x61
    else if turn % 2 == 0 then 0x40 + (if turn >= 4 then (turn - 4) / 2 else 0)
    else 0x50 + (if turn >= 5 then (turn - 5) / 2 else 0)
  }

  /** The nonce of the trial message at this turn, for the end that sends it. */
  function NonceFor(p: Party): nat {
    if p.client && 4 <= p.turn < 10 && (p.turn - 4) / 2 < |p.trials| then p.trials[(p.turn - 4) / 2] else p.trialNonce
  }

  function Outgoing(p: Party): Message {
    if p.turn == 0 then
      Hello(true, p.setup.pool > 1, p.nonce, p.secret,
        Token(p.psk, p.setup.host, p.setup.path, p.nonce, p.secret, Bind(p.setup)))
    else if p.turn == 1 then
      Hello(false, p.setup.pool > 1, p.nonce, p.secret,
            Proof(p.psk, p.setup.host, p.setup.path, p.peerNonce, p.nonce, p.peerPublic, p.secret, Bind(p.setup)))
    else if p.turn <= 3 then Confirm(Confirmation(KeysOf(p), p.client))
    else Trial(TrialKind(p.turn), NonceFor(p), TrialMac(KeysOf(p), TrialKind(p.turn), NonceFor(p)))
  }

  /** What a party makes of a handshake message it waits for; none if it must be refused. */
  function Check(p: Party, m: Message): Option<Party> {
    if p.turn == 0 then
      if m.Hello? && m.client && m.pooled == (p.setup.pool > 1)
        && Match(p.setup, m.nonce, m.public, m.mac) < |p.setup.psks| then
        Some(p.(psk := p.setup.psks[Match(p.setup, m.nonce, m.public, m.mac)], peerNonce := m.nonce,
          peerPublic := m.public))
      else None
    else if p.turn == 1 then
      if m.Hello? && !m.client && m.pooled == (p.setup.pool > 1)
         && m.mac == Proof(p.psk, p.setup.host, p.setup.path, p.nonce, m.nonce, p.secret, m.public, Bind(p.setup)) then
        Some(p.(peerNonce := m.nonce, peerPublic := m.public))
      else None
    else if p.turn <= 3 then
      if m == Confirm(Confirmation(KeysOf(p), !p.client)) then Some(p) else None
    else if p.turn < 10 && !p.client then
      if m.Trial? && m == Trial(TrialKind(p.turn), m.nonce, TrialMac(KeysOf(p), TrialKind(p.turn), m.nonce)) then
        Some(p.(trialNonce := m.nonce))
      else None
    else
      if m == Trial(TrialKind(p.turn), p.trialNonce, TrialMac(KeysOf(p), TrialKind(p.turn), p.trialNonce))
        then Some(p) else None
  }

  /** Every handshake message has one place: an end that waits accepts no message made for another turn, be it an
      earlier one come again or one of its own come back. */
  lemma OnePlaceEach(p: Party, q: Party)
    requires !Done(p) && !MySend(p) && MySend(q) && Check(p, Outgoing(q)).Some?
    ensures p.turn == q.turn && p.client != q.client
  {
    if p.turn >= 4 {
      KindsDiffer(p.turn, q.turn);
    }
  }

  lemma KindsDiffer(a: nat, b: nat)
    requires 4 <= a < MESSAGES && 4 <= b < MESSAGES && TrialKind(a) == TrialKind(b)
    ensures a == b
  {
  }

  // ---------------------------------------------------------------------- the system

  datatype System = System(client: Party, server: Party, toServer: seq<Message>, toClient: seq<Message>)

  /** `Read` takes the first `count` messages of the channel at once, with the header of the next one if `peek`. */
  datatype Event =
    | Send(client: bool)
    | Read(client: bool, count: nat, peek: bool)
    | SendData(client: bool, size: nat, tag: nat)

  function Inbox(s: System, client: bool): seq<Message> {
    if client then s.toClient else s.toServer
  }

  function PartyOf(s: System, client: bool): Party {
    if client then s.client else s.server
  }

  predicate Enabled(s: System, e: Event) {
    match e
    case Send(c) => !PartyOf(s, c).failed && MySend(PartyOf(s, c))
    case Read(c, n, _) =>
      var p := PartyOf(s, c);
      !p.failed && (Done(p) || !MySend(p)) && (p.prefetched != [] || 0 < n <= |Inbox(s, c)|)
    case SendData(c, _, _) => !PartyOf(s, c).failed && Done(PartyOf(s, c))
  }

  /** The reader sees a frame longer than an unauthenticated peer may send. */
  predicate Oversize(inbox: seq<Message>, count: nat, peek: bool) {
    || (exists i :: 0 <= i < count && i < |inbox| && Size(inbox[i]) > MAX_UNAUTHENTICATED)
    || (peek && count < |inbox| && Size(inbox[count]) > MAX_UNAUTHENTICATED)
  }

  /** A party is handed a batch of messages. */
  function Receive(p: Party, batch: seq<Message>): Party
    requires batch != []
  {
    if Done(p) then p.(delivered := p.delivered + batch)
    else if p.turn <= 1 && |batch| != 1 then p.(failed := true)
    else match Check(p, batch[0])
      case None => p.(failed := true)
      case Some(q) => q.(turn := q.turn + 1, prefetched := q.prefetched + batch[1..])
  }

  function Put(s: System, client: bool, p: Party): System {
    if client then s.(client := p) else s.(server := p)
  }

  function Post(s: System, fromClient: bool, m: Message): System {
    if fromClient then s.(toServer := s.toServer + [m]) else s.(toClient := s.toClient + [m])
  }

  function Take(s: System, client: bool, n: nat): System
    requires n <= |Inbox(s, client)|
  {
    if client then s.(toClient := s.toClient[n..]) else s.(toServer := s.toServer[n..])
  }

  function Step(s: System, e: Event): System
    requires Enabled(s, e)
  {
    match e
    case Send(c) =>
      var p := PartyOf(s, c);
      Put(Post(s, c, Outgoing(p)), c,
        p.(turn := p.turn + 1, trialNonce := if p.turn >= 4 then NonceFor(p) else p.trialNonce))
    case SendData(c, size, tag) =>
      var p := PartyOf(s, c);
      Put(Post(s, c, Data(size, tag)), c, p.(sent := p.sent + [Data(size, tag)]))
    case Read(c, n, peek) =>
      var p := PartyOf(s, c);
      if p.prefetched != [] then Put(s, c, Receive(p.(prefetched := []), p.prefetched))
      else if !Done(p) && Oversize(Inbox(s, c), n, peek) then Put(s, c, p.(failed := true))
      else Put(Take(s, c, n), c, Receive(p, Inbox(s, c)[..n]))
  }

  // ---------------------------------------------------------------------- agreement

  /** The two ends are set up for each other. */
  predicate Agree(client: Setup, server: Setup) {
    && |client.psks| == 1 && client.psks[0] in server.psks
    && client.host == server.host && client.path == server.path && client.pool == server.pool
  }

  predicate Begun(s: System) {
    && s.client.client && !s.server.client && s.client.turn == 0 && s.server.turn == 0
    && !s.client.failed && !s.server.failed && s.toServer == [] && s.toClient == []
    && |s.client.setup.psks| == 1 && s.client.psk == s.client.setup.psks[0] && |s.client.trials| == 3
    && s.client.setup.pool >= 1 && s.server.setup.pool >= 1
    && s.client.prefetched == [] && s.server.prefetched == []
    && s.client.delivered == [] && s.server.delivered == [] && s.client.sent == [] && s.server.sent == []
  }

  /** What the two ends know of each other once they have come this far. */
  predicate Known(s: System) {
    var c, v := s.client, s.server;
    && (v.turn >= 1 ==> v.psk == c.psk && v.peerNonce == c.nonce && v.peerPublic == c.secret)
    && (c.turn >= 2 ==> c.peerNonce == v.nonce && c.peerPublic == v.secret)
    && (c.turn >= 5 && v.turn == c.turn ==> v.trialNonce == c.trialNonce)
    && (c.turn >= 5 && v.turn == c.turn + 1 ==> v.trialNonce == c.trialNonce)
  }

  predicate AllData(ms: seq<Message>) {
    forall i :: 0 <= i < |ms| ==> ms[i].Data?
  }

  /** Where the handshake is: either both ends are at the same message and nothing is under way, or the one sent last
      is; only behind the acknowledgement can there be data. */
  predicate Placed(s: System) {
    var c, v := s.client, s.server;
    if c.turn == v.turn && c.turn < MESSAGES then s.toServer == [] && s.toClient == [] && c.prefetched == []
    else if c.turn == v.turn + 1 then
      && v.turn % 2 == 0 && c.turn < MESSAGES && |s.toServer| == 1 && s.toClient == [] && c.prefetched == []
      && Check(v, s.toServer[0]).Some? && Known(s.(server := Check(v, s.toServer[0]).value.(turn := v.turn + 1)))
    else if v.turn == c.turn + 1 then
      && c.turn % 2 == 1 && |s.toClient| >= 1 && s.toServer == [] && c.prefetched == []
      && (v.turn < MESSAGES ==> |s.toClient| == 1)
      && Check(c, s.toClient[0]).Some? && Known(s.(client := Check(c, s.toClient[0]).value.(turn := c.turn + 1)))
      && AllData(s.toClient[1..]) && s.toClient[1..] == v.sent && c.delivered == []
    else
      c.turn == v.turn == MESSAGES && c.delivered + c.prefetched + s.toClient == v.sent
  }

  /** What every reachable state has in common. */
  predicate Valid(s: System) {
    var c, v := s.client, s.server;
    && c.client && !v.client && !c.failed && !v.failed && v.prefetched == [] && |c.trials| == 3
    && |c.setup.psks| == 1 && c.psk == c.setup.psks[0] && c.turn <= MESSAGES && v.turn <= MESSAGES
    && Agree(c.setup, v.setup) && Known(s) && Placed(s)
    && (!Done(v) ==> v.sent == []) && (!Done(c) ==> c.delivered == [] && c.sent == [] && v.delivered == [])
    && (Done(v) && Done(c) ==> v.delivered + s.toServer == c.sent)
    && AllData(v.sent)
  }

  /** The event does not show an unauthenticated reader a long frame. */
  predicate Small(s: System, e: Event) {
    e.Read? && !Done(PartyOf(s, e.client)) && PartyOf(s, e.client).prefetched == [] ==>
      !Oversize(Inbox(s, e.client), e.count, e.peek)
  }

  // ---------------------------------------------------------------------- every step keeps it

  lemma BegunValid(s: System)
    requires Begun(s) && Agree(s.client.setup, s.server.setup)
    ensures Valid(s)
  {
  }

  lemma ClientSends(s: System)
    requires Valid(s) && MySend(s.client)
    ensures s.client.turn == s.server.turn && Valid(Step(s, Send(true)))
  {
    var c, v := s.client, s.server;
    assert c.turn == v.turn;
    var m := Outgoing(c);
    assert Check(v, m).Some?;
  }

  lemma ServerSends(s: System)
    requires Valid(s) && MySend(s.server)
    ensures s.client.turn == s.server.turn && Valid(Step(s, Send(false)))
  {
    var c, v := s.client, s.server;
    assert c.turn == v.turn;
    var m := Outgoing(v);
    assert Check(c, m).Some?;
  }

  lemma ServerReadsData(s: System, n: nat, peek: bool)
    requires Valid(s) && Enabled(s, Read(false, n, peek)) && Done(s.server)
    ensures Valid(Step(s, Read(false, n, peek)))
  {
    var v := s.server;
    var batch := s.toServer[..n];
    assert s.toServer == batch + s.toServer[n..];
    assert v.delivered + batch + s.toServer[n..] == v.delivered + s.toServer;
  }

  lemma ServerReads(s: System, n: nat, peek: bool)
    requires Valid(s) && Enabled(s, Read(false, n, peek))
    ensures Small(s, Read(false, n, peek)) && Valid(Step(s, Read(false, n, peek)))
  {
    if Done(s.server) {
      ServerReadsData(s, n, peek);
    } else {
      var batch := s.toServer[..n];
      assert n == 1 && s.toServer[1..] == [] && batch == [s.toServer[0]];
      assert Size(s.toServer[0]) <= MAX_UNAUTHENTICATED;
    }
  }

  /** The client takes what it read ahead. */
  lemma PrefetchedRead(s: System, n: nat, peek: bool)
    requires Valid(s) && Enabled(s, Read(true, n, peek)) && s.client.prefetched != []
    ensures Valid(Step(s, Read(true, n, peek)))
  {
    var c := s.client;
    assert c.delivered + c.prefetched + [] + s.toClient == c.delivered + c.prefetched + s.toClient;
  }

  lemma ClientReads(s: System, n: nat, peek: bool)
    requires Valid(s) && Enabled(s, Read(true, n, peek)) && Small(s, Read(true, n, peek))
    ensures Valid(Step(s, Read(true, n, peek)))
  {
    if s.client.prefetched != [] {
      PrefetchedRead(s, n, peek);
    } else if Done(s.client) {
      ClientReadsData(s, n, peek);
    } else {
      ClientReadsMessage(s, n, peek);
    }
  }

  lemma ClientReadsData(s: System, n: nat, peek: bool)
    requires Valid(s) && Enabled(s, Read(true, n, peek)) && Done(s.client) && s.client.prefetched == []
    ensures Valid(Step(s, Read(true, n, peek)))
  {
    var c := s.client;
    var batch := s.toClient[..n];
    assert s.toClient == batch + s.toClient[n..];
    assert c.delivered + batch + [] + s.toClient[n..] == c.delivered + [] + s.toClient;
  }

  lemma ClientReadsMessage(s: System, n: nat, peek: bool)
    requires Valid(s) && Enabled(s, Read(true, n, peek)) && Small(s, Read(true, n, peek))
    requires !Done(s.client) && s.client.prefetched == []
    ensures Valid(Step(s, Read(true, n, peek)))
  {
    if s.client.turn == MESSAGES - 1 {
      ClientReadsLast(s, n, peek);
    } else {
      ClientReadsOne(s, n, peek);
    }
  }

  /** The acknowledgement, and perhaps data behind it. */
  lemma ClientReadsLast(s: System, n: nat, peek: bool)
    requires Valid(s) && Enabled(s, Read(true, n, peek)) && Small(s, Read(true, n, peek))
    requires s.client.turn == MESSAGES - 1 && s.client.prefetched == []
    ensures Valid(Step(s, Read(true, n, peek)))
  {
    var batch := s.toClient[..n];
    assert s.toClient == batch + s.toClient[n..];
    assert batch[0] == s.toClient[0];
    assert s.toClient[1..] == batch[1..] + s.toClient[n..];
  }

  /** Any earlier message, which comes alone. */
  lemma ClientReadsOne(s: System, n: nat, peek: bool)
    requires Valid(s) && Enabled(s, Read(true, n, peek)) && Small(s, Read(true, n, peek))
    requires s.client.turn < MESSAGES - 1 && s.client.prefetched == []
    ensures Valid(Step(s, Read(true, n, peek)))
  {
    assert n == 1 && s.toClient[..1] == [s.toClient[0]] && s.toClient[1..] == [];
  }

  lemma DataSent(s: System, fromClient: bool, size: nat, tag: nat)
    requires Valid(s) && Enabled(s, SendData(fromClient, size, tag))
    ensures Valid(Step(s, SendData(fromClient, size, tag)))
  {
    var c, v := s.client, s.server;
    var m := Data(size, tag);
    if fromClient {
      assert v.delivered + (s.toServer + [m]) == v.delivered + s.toServer + [m];
    } else if Done(c) {
      assert c.delivered + c.prefetched + (s.toClient + [m]) == c.delivered + c.prefetched + s.toClient + [m];
    } else {
      assert (s.toClient + [m])[1..] == s.toClient[1..] + [m];
    }
  }

  /** A step shows the client a long frame before it is through, or the state stays valid; the long frame is the one
      way to fail. */
  lemma StepExact(s: System, e: Event)
    requires Valid(s) && Enabled(s, e)
    ensures Valid(Step(s, e)) <==> Small(s, e)
    ensures Valid(Step(s, e)) <==> !Step(s, e).client.failed && !Step(s, e).server.failed
  {
    match e
    case Send(c) =>
      if c { ClientSends(s); } else { ServerSends(s); }
    case Read(c, n, peek) =>
      if !c {
        ServerReads(s, n, peek);
      } else if Small(s, e) {
        ClientReads(s, n, peek);
      }
    case SendData(c, size, tag) => DataSent(s, c, size, tag);
  }

  /** The one state in which a step can fail: the acknowledgement is under way and data longer than an unauthenticated
      peer may send comes behind it. */
  lemma FailureIsEarlyData(s: System, e: Event)
    requires Valid(s) && Enabled(s, e)
    ensures !Small(s, e) ==>
              && e.Read? && e.client && s.client.turn == MESSAGES - 1 && Done(s.server)
              && exists i :: 0 <= i < |s.server.sent| && i < e.count && Size(s.server.sent[i]) > MAX_UNAUTHENTICATED
  {
    if !Small(s, e) {
      if !e.client {
        ServerReads(s, e.count, e.peek);
      } else {
        var inbox := s.toClient;
        assert s.client.turn < MESSAGES;
        assert Size(inbox[0]) <= MAX_UNAUTHENTICATED;
        var i :| 0 <= i <= e.count && i < |inbox| && Size(inbox[i]) > MAX_UNAUTHENTICATED;
        assert inbox[i] == inbox[1..][i - 1];
        assert inbox[1..] == s.server.sent;
        assert Size(s.server.sent[i - 1]) > MAX_UNAUTHENTICATED;
      }
    }
  }
}
