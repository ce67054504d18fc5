/** When a lane is renewed for being slow, and when a missing probe reply ends it. Times in microseconds. */
module Timers {
  import opened Bytes

  const SECOND := 1_000_000

  // ---------------------------------------------------------------------- renewal on latency

  datatype Policy = Policy(thresholdMs: int, required: nat, cooldownSec: nat)

  /** What the lane shows when it is looked at; sample 0 means it has no measurement. */
  datatype Sight = Sight(sample: nat, rtt: int, now: nat, active: bool)

  datatype Renewal = Renewal(sample: nat, lastAttempt: nat, streak: nat, attempted: bool)

  /** A measurement not seen before, on an active lane. */
  predicate New(r: Renewal, s: Sight) {
    s.active && s.sample != 0 && s.sample != r.sample && s.sample <= s.now
  }

  predicate Slow(p: Policy, r: Renewal, s: Sight) {
    New(r, s) && s.now - s.sample <= 60 * SECOND && p.thresholdMs > 0 && s.rtt > p.thresholdMs * 1000
  }

  predicate Fires(p: Policy, r: Renewal, s: Sight) {
    && Slow(p, r, s) && r.streak + 1 >= p.required
    && (r.attempted ==> s.now < r.lastAttempt || s.now - r.lastAttempt >= p.cooldownSec * SECOND)
  }

  function Look(p: Policy, r: Renewal, s: Sight): Renewal {
    if !s.active then r.(streak := 0, sample := s.sample)
    else if !New(r, s) then r
    else if !Slow(p, r, s) then r.(streak := 0, sample := s.sample)
    else if Fires(p, r, s) then Renewal(s.sample, s.now, 0, true)
    else r.(streak := r.streak + 1, sample := s.sample)
  }

  class LatencyRenewal {
    var sample: nat
    var lastAttempt: nat
    var streak: nat
    var attempted: bool

    constructor ()
      ensures Model() == Renewal(0, 0, 0, false)
    {
      sample, lastAttempt, streak, attempted := 0, 0, 0, false;
    }

    function Model(): Renewal
      reads this
    {
      Renewal(sample, lastAttempt, streak, attempted)
    }

    /** Whether to renew now. The source subtracts unsigned times; had the clock gone back since the last
        attempt, the difference would be huge. */
    method Observe(p: Policy, s: Sight) returns (renew: bool)
      modifies this
      ensures renew == Fires(p, old(Model()), s)
      ensures Model() == Look(p, old(Model()), s)
    {
      if !s.active {
        streak, sample := 0, s.sample;
        return false;
      }
      if s.sample == 0 || s.sample == sample || s.sample > s.now {
        return false;
      }
      sample := s.sample;
      if s.now - s.sample > 60 * SECOND || p.thresholdMs <= 0 || s.rtt <= p.thresholdMs * 1000 {
        streak := 0;
        return false;
      }
      streak := streak + 1;
      if streak < p.required || (attempted && s.now >= lastAttempt && s.now - lastAttempt < p.cooldownSec * SECOND) {
        return false;
      }
      streak, lastAttempt, attempted := 0, s.now, true;
      renew := true;
    }
  }

  function Renewals(p: Policy, r: Renewal, ss: seq<Sight>): nat
    decreases |ss|
  {
    if ss == [] then 0
    else (if Fires(p, r, ss[0]) then 1 else 0) + Renewals(p, Look(p, r, ss[0]), ss[1..])
  }

  function SlowSamples(p: Policy, r: Renewal, ss: seq<Sight>): nat
    decreases |ss|
  {
    if ss == [] then 0
    else (if Slow(p, r, ss[0]) then 1 else 0) + SlowSamples(p, Look(p, r, ss[0]), ss[1..])
  }

  predicate Clocked(from: nat, ss: seq<Sight>, to: nat)
    decreases |ss|
  {
    if ss == [] then from <= to else from <= ss[0].now && Clocked(ss[0].now, ss[1..], to)
  }

  /** One look: what fires had been earned by the streak and this sample. */
  lemma LookEvidence(p: Policy, r: Renewal, s: Sight)
    ensures (if Fires(p, r, s) then p.required else 0) + Look(p, r, s).streak
            <= r.streak + (if Slow(p, r, s) then 1 else 0)
  {
  }

  lemma Distribute(a: nat, b: nat, c: nat)
    ensures a * (b + c) == a * b + a * c && a * 1 == a && a * 0 == 0
  {
  }

  /** Each renewal has slow samples of its own, as many as the policy asks for. */
  lemma {:induction false} RenewalEvidence(p: Policy, r: Renewal, ss: seq<Sight>)
    ensures p.required * Renewals(p, r, ss) <= r.streak + SlowSamples(p, r, ss)
    decreases |ss|
  {
    if ss != [] {
      var next := Look(p, r, ss[0]);
      RenewalEvidence(p, next, ss[1..]);
      LookEvidence(p, r, ss[0]);
      Distribute(p.required, if Fires(p, r, ss[0]) then 1 else 0, Renewals(p, next, ss[1..]));
    }
  }

  /** New measurements on an active lane, one after another, all recent and all slower than the threshold. */
  predicate AllSlow(p: Policy, sample: nat, ss: seq<Sight>)
    decreases |ss|
  {
    ss == [] ||
    (&& ss[0].active && sample < ss[0].sample <= ss[0].now && ss[0].now <= ss[0].sample + 60_000_000
     && 0 < p.thresholdMs * 1000 < ss[0].rtt && AllSlow(p, ss[0].sample, ss[1..]))
  }

  /** A slow lane is renewed: as many slow samples in a row as required, behind the cooldown, bring a renewal. */
  lemma {:induction false} SlowLaneRenewed(p: Policy, r: Renewal, ss: seq<Sight>)
    requires AllSlow(p, r.sample, ss) && ss != [] && r.streak + |ss| >= p.required
    requires r.attempted ==> forall i :: 0 <= i < |ss| ==> ss[i].now >= r.lastAttempt + p.cooldownSec * SECOND
    ensures Renewals(p, r, ss) >= 1
    decreases |ss|
  {
    if !Fires(p, r, ss[0]) {
      assert Look(p, r, ss[0]) == r.(streak := r.streak + 1, sample := ss[0].sample);
      assert forall i :: 0 <= i < |ss[1..]| ==> ss[1..][i] == ss[i + 1];
      SlowLaneRenewed(p, Look(p, r, ss[0]), ss[1..]);
    }
  }

  /** Renewals keep the cooldown: n of them take at least n - 1 cooldowns, n if one came before. */
  lemma {:induction false} RenewalRate(p: Policy, r: Renewal, ss: seq<Sight>, from: nat, to: nat)
    requires Clocked(from, ss, to) && (r.attempted ==> r.lastAttempt <= from)
    ensures from <= to
    ensures var n := Renewals(p, r, ss);
            if r.attempted then n * (p.cooldownSec * SECOND) <= to - r.lastAttempt
            else n > 0 ==> (n - 1) * (p.cooldownSec * SECOND) <= to - from
    decreases |ss|
  {
    if ss == [] {
      assert Renewals(p, r, ss) == 0;
    } else {
      var next, c := Look(p, r, ss[0]), p.cooldownSec * SECOND;
      RenewalRate(p, next, ss[1..], ss[0].now, to);
      var n := Renewals(p, next, ss[1..]);
      if Fires(p, r, ss[0]) {
        assert (n + 1) * c == n * c + c;
      }
    }
  }

  // ---------------------------------------------------------------------- the reply watchdog

  datatype Probe = Sent(token: nat) | Reply(token: nat, now: nat)

  /** The token waited for, 0 if none. */
  function Heard(token: nat, e: Probe): nat {
    match e
    case Sent(t) => if token == 0 then t else token
    case Reply(t, now) => if token != 0 && t == token && now >= token then 0 else token
  }

  class ReplyWatchdog {
    var token: nat

    constructor ()
      ensures token == 0
    {
      token := 0;
    }

    method NoteSent(t: nat)
      modifies this
      ensures token == Heard(old(token), Sent(t)) == if old(token) == 0 then t else old(token)
    {
      if token == 0 {
        token := t;
      }
    }

    method NoteReply(t: nat, now: nat) returns (answered: bool)
      modifies this
      ensures token == Heard(old(token), Reply(t, now))
      ensures answered <==> old(token) != 0 && t == old(token) <= now
      ensures token == if answered then 0 else old(token)
    {
      if token == 0 || t != token || now < token {
        return false;
      }
      token := 0;
      answered := true;
    }

    method Age(now: nat) returns (age: nat)
      ensures token != 0 && now >= token ==> age == now - token
      ensures token == 0 || now < token ==> age == 0
    {
      age := if token != 0 && now >= token then now - token else 0;
    }
  }

  function Listen(token: nat, es: seq<Probe>): nat
    decreases |es|
  {
    if es == [] then token else Listen(Heard(token, es[0]), es[1..])
  }

  /** Nothing postpones the deadline of a pending probe but its own reply: not later probes, not other replies,
      not a reply dated before it was sent. The age then counts from the first unanswered token. */
  lemma {:induction false} DeadlineStands(token: nat, es: seq<Probe>)
    requires token != 0
    requires forall i :: 0 <= i < |es| && es[i].Reply? && es[i].token == token ==> es[i].now < token
    ensures Listen(token, es) == token
    decreases |es|
  {
    if es != [] {
      DeadlineStands(Heard(token, es[0]), es[1..]);
    }
  }

  // ---------------------------------------------------------------------- recovery attempts

  /** When the next attempt may start, and how many failed in a row, as far as it matters. */
  datatype Backoff = Backoff(next: nat, failures: nat)

  datatype Attempt = Begin(now: nat) | Fail(now: nat) | Succeed(now: nat)

  const SHORTEST := 30 * SECOND
  const LONGEST := 300 * SECOND

  function Doubled(base: nat, times: nat): nat {
    if times == 0 then base else 2 * Doubled(base, times - 1)
  }

  function Wait(failures: nat): nat
    requires failures > 0
  {
    Min(300, Doubled(30, failures - 1)) * SECOND
  }

  function Note(b: Backoff, a: Attempt): Backoff {
    match a
    case Begin(now) => b.(next := now + SHORTEST)
    case Fail(now) => Backoff(now + Wait(Min(5, b.failures + 1)), Min(5, b.failures + 1))
    case Succeed(now) => Backoff(now + SHORTEST, 0)
  }

  class RecoveryBackoff {
    var next: nat
    var failures: nat

    constructor ()
      ensures Model() == Backoff(0, 0)
    {
      next, failures := 0, 0;
    }

    function Model(): Backoff
      reads this
    {
      Backoff(next, failures)
    }

    method Ready(now: nat) returns (ready: bool)
      ensures ready <==> now >= Model().next
    {
      ready := now >= next;
    }

    method Started(now: nat)
      modifies this
      ensures Model() == Note(old(Model()), Begin(now))
    {
      next := now + SHORTEST;
    }

    method Failed(now: nat)
      modifies this
      ensures Model() == Note(old(Model()), Fail(now))
    {
      failures := Min(5, failures + 1);
      var seconds := 30;
      for i := 1 to failures
        invariant seconds == Doubled(30, i - 1)
      {
        seconds := 2 * seconds;
      }
      next := now + Min(300, seconds) * SECOND;
    }

    method Succeeded(now: nat)
      modifies this
      ensures Model() == Note(old(Model()), Succeed(now))
    {
      failures := 0;
      next := now + SHORTEST;
    }

    method RemainingSeconds(now: nat) returns (seconds: nat)
      ensures now < next ==> (seconds - 1) * SECOND < next - now <= seconds * SECOND
      ensures now >= next ==> seconds == 0
    {
      seconds := if now < next then (next - now + 999_999) / SECOND else 0;
    }
  }

  /** Attempts begin only when they may, and the clock does not go back. */
  predicate Patient(b: Backoff, from: nat, attempts: seq<Attempt>, to: nat)
    decreases |attempts|
  {
    if attempts == [] then from <= to
    else
      && from <= attempts[0].now && (attempts[0].Begin? ==> attempts[0].now >= b.next)
      && Patient(Note(b, attempts[0]), attempts[0].now, attempts[1..], to)
  }

  function Begun(attempts: seq<Attempt>): nat {
    if attempts == [] then 0 else (if attempts[0].Begin? then 1 else 0) + Begun(attempts[1..])
  }

  /** The waiting time doubles from 30 seconds with each failure in a row, up to five minutes. */
  lemma WaitGrows(failures: nat)
    requires 0 < failures
    ensures SHORTEST <= Wait(failures) <= LONGEST
    ensures failures < 4 ==> Wait(failures + 1) == 2 * Wait(failures)
    ensures failures >= 5 ==> Wait(failures) == LONGEST
  {
    DoubledGrows(30, failures - 1);
    if failures >= 5 {
      DoubledGrows(480, failures - 5);
      DoubledTwice(30, 4, failures - 5);
    }
  }

  lemma {:induction false} DoubledGrows(base: nat, times: nat)
    ensures Doubled(base, times) >= base
  {
    if times > 0 {
      DoubledGrows(base, times - 1);
    }
  }

  lemma {:induction false} DoubledTwice(base: nat, a: nat, b: nat)
    ensures Doubled(base, a + b) == Doubled(Doubled(base, a), b)
  {
    if b > 0 {
      DoubledTwice(base, a, b - 1);
    }
  }

  /** However attempts fail and succeed, n of them take at least n - 1 times 30 seconds; n times if something was noted
      at the start. */
  lemma {:induction false} RecoveryRate(b: Backoff, from: nat, attempts: seq<Attempt>, to: nat)
    requires Patient(b, from, attempts, to)
    ensures from <= to
    ensures Begun(attempts) > 0 ==> (Begun(attempts) - 1) * SHORTEST <= to - from
    ensures b.next >= from + SHORTEST ==> Begun(attempts) * SHORTEST <= to - from
    decreases |attempts|
  {
    if attempts != [] {
      var a := attempts[0];
      if a.Fail? {
        WaitGrows(Min(5, b.failures + 1));
      }
      RecoveryRate(Note(b, a), a.now, attempts[1..], to);
    }
  }
}
