/** Budgets for padding. Times are in microseconds; token counts are exact reals where the source uses
    doubles. */
module Traffic {
  import opened Bytes

  const DATA_CREDIT := 4096.0
  const CONTROL_CREDIT := 128.0
  const CONTROL_RATE := 64.0

  function MinReal(a: real, b: real): real {
    if a <= b then a else b
  }

  function MaxReal(a: real, b: real): real {
    if a <= b then b else a
  }

  /** A percentage of a number of bytes. */
  function Share(bytes: nat, percent: nat): real {
    bytes as real * percent as real / 100.0
  }

  function Elapsed(from: nat, to: nat, rate: real): real
    requires from <= to
  {
    (to - from) as real * rate / 1_000_000.0
  }

  // ---------------------------------------------------------------------- the classes

  /** A token bucket over all lanes and both kinds of padding; without effect unless enabled. */
  class ShapeBudget {
    var tokens: real
    var last: nat
    const rate: nat
    const burst: nat
    const enabled: bool

    constructor (enabled: bool, rate: nat, burst: nat, now: nat)
      ensures this.enabled == enabled && this.rate == rate && this.burst == burst
      ensures tokens == burst as real && last == now
    {
      this.enabled, this.rate, this.burst := enabled, rate, burst;
      tokens, last := burst as real, now;
    }

    method Allowance(requested: int, now: nat) returns (granted: int)
      modifies this
      ensures !enabled ==> granted == requested && tokens == old(tokens) && last == old(last)
      ensures enabled ==> last == now && tokens == Refilled(old(tokens), old(last), now, rate, burst)
      ensures enabled ==> granted == Min(requested, tokens.Floor)
    {
      if !enabled {
        return requested;
      }
      if now > last {
        tokens := MinReal(burst as real, tokens + (now - last) as real * rate as real / 1_000_000.0);
      }
      last := now;
      granted := Min(requested, tokens.Floor);
    }

    method Spend(n: nat)
      modifies this`tokens
      ensures tokens == if enabled then MaxReal(0.0, old(tokens) - n as real) else old(tokens)
    {
      if enabled {
        tokens := MaxReal(0.0, tokens - n as real);
      }
    }
  }

  function Refilled(tokens: real, last: nat, now: nat, rate: nat, burst: nat): real {
    if now > last then MinReal(burst as real, tokens + Elapsed(last, now, rate as real)) else tokens
  }

  /** Padding relative to the traffic: a share of the data bytes, and a trickle for control records. */
  class PaddingBudget {
    var data: real
    var control: real
    var last: nat
    const percent: nat

    constructor (percent: nat, now: nat)
      ensures this.percent == percent && data == 0.0 && control == CONTROL_CREDIT && last == now
    {
      this.percent := percent;
      data, control, last := 0.0, CONTROL_CREDIT, now;
    }

    method DataAllowance(bytes: nat, maximum: int) returns (granted: int)
      modifies this`data
      ensures data == Earned(old(data), bytes, percent)
      ensures granted == Min(maximum + 3, data.Floor)
    {
      data := MinReal(DATA_CREDIT, data + bytes as real * percent as real / 100.0);
      granted := Min(maximum + 3, data.Floor);
    }

    method SpendData(extra: nat)
      modifies this`data
      ensures data == MaxReal(0.0, old(data) - extra as real)
    {
      data := MaxReal(0.0, data - extra as real);
    }

    method ControlAllowance(maximum: int, now: nat) returns (granted: int)
      modifies this`control, this`last
      ensures last == now && control == Trickled(old(control), old(last), now)
      ensures granted == Min(maximum + 3, control.Floor)
    {
      if now >= last {
        control := MinReal(CONTROL_CREDIT, control + (now - last) as real * CONTROL_RATE / 1_000_000.0);
      }
      last := now;
      granted := Min(maximum + 3, control.Floor);
    }

    method SpendControl(extra: nat)
      modifies this`control
      ensures control == MaxReal(0.0, old(control) - extra as real)
    {
      control := MaxReal(0.0, control - extra as real);
    }
  }

  function Earned(data: real, bytes: nat, percent: nat): real {
    MinReal(DATA_CREDIT, data + Share(bytes, percent))
  }

  function Trickled(control: real, last: nat, now: nat): real {
    if now >= last then MinReal(CONTROL_CREDIT, control + Elapsed(last, now, CONTROL_RATE)) else control
  }

  /** A shaping bucket earns all of its rate until it is full, and is full after long enough. */
  lemma Refills(tokens: real, last: nat, now: nat, rate: nat, burst: nat)
    requires 0.0 <= tokens <= burst as real && last <= now
    ensures tokens + (now - last) as real * rate as real / 1_000_000.0 <= burst as real ==>
              Refilled(tokens, last, now, rate, burst) == tokens + (now - last) as real * rate as real / 1_000_000.0
    ensures (now - last) * rate >= burst * 1_000_000 ==> Refilled(tokens, last, now, rate, burst) == burst as real
  {
    if (now - last) * rate >= burst * 1_000_000 {
      assert ((now - last) * rate) as real == (now - last) as real * rate as real;
      assert (now - last) as real * rate as real >= burst as real * 1_000_000.0;
    }
  }

  /** Credit for control records comes back at 64 bytes a second, up to 128; credit for data with every record. */
  lemma CreditReturns(control: real, last: nat, now: nat, data: real, bytes: nat, percent: nat)
    requires 0.0 <= control <= 128.0 && last <= now && 0.0 <= data <= 4096.0
    ensures now - last >= 2_000_000 ==> Trickled(control, last, now) == 128.0
    ensures control + (now - last) as real * 64.0 / 1_000_000.0 <= 128.0 ==>
              Trickled(control, last, now) == control + (now - last) as real * 64.0 / 1_000_000.0
    ensures data + bytes as real * percent as real / 100.0 <= 4096.0 ==>
              Earned(data, bytes, percent) == data + bytes as real * percent as real / 100.0
    ensures bytes * percent >= 409_600 ==> Earned(data, bytes, percent) == 4096.0
  {
    if bytes * percent >= 409_600 {
      assert (bytes * percent) as real == bytes as real * percent as real;
    }
  }

  // ---------------------------------------------------------------------- one record's padding

  /** Both budgets together. */
  datatype Budgets = Budgets(tokens: real, shaped: nat, data: real, control: real, controlled: nat)

  datatype Limits = Limits(enabled: bool, rate: nat, burst: nat, percent: nat)

  /** A record about to be encoded: control or data of some size, the padding limit for it, the time, and the
      padding length the generator would draw. */
  datatype Offer = Offer(control: bool, size: nat, maximum: nat, now: nat, draw: nat)

  datatype Grant = Grant(budgets: Budgets, allowance: int, extra: nat)

  /** What the lane encoder grants and charges: three bytes of envelope and at most allowance - 3 bytes of
      padding, nothing if even the envelope is not affordable. */
  function Pad(l: Limits, b: Budgets, o: Offer): Grant {
    if o.maximum == 0 then Grant(b, 0, 0)
    else
      var control := if o.control then Trickled(b.control, b.controlled, o.now) else b.control;
      var controlled := if o.control then o.now else b.controlled;
      var data := if o.control then b.data else Earned(b.data, o.size, l.percent);
      var first := Min(o.maximum + 3, (if o.control then control else data).Floor);
      var tokens := if l.enabled then Refilled(b.tokens, b.shaped, o.now, l.rate, l.burst) else b.tokens;
      var shaped := if l.enabled then o.now else b.shaped;
      var allowance := if l.enabled then Min(first, tokens.Floor) else first;
      if allowance < 3 then Grant(Budgets(tokens, shaped, data, control, controlled), allowance, 0)
      else
        var extra := 3 + o.draw % (allowance - 2);
        Grant(Budgets(if l.enabled then MaxReal(0.0, tokens - extra as real) else tokens, shaped,
                      if o.control then data else MaxReal(0.0, data - extra as real),
                      if o.control then MaxReal(0.0, control - extra as real) else control, controlled),
              allowance, extra)
  }

  /** The encoding step on the two shared budget objects. */
  method PadRecord(shape: ShapeBudget, padding: PaddingBudget, o: Offer) returns (allowance: int, extra: nat)
    modifies shape, padding
    ensures var l := Limits(shape.enabled, shape.rate, shape.burst, padding.percent);
            var before := old(Budgets(shape.tokens, shape.last, padding.data, padding.control, padding.last));
            Grant(Budgets(shape.tokens, shape.last, padding.data, padding.control, padding.last), allowance, extra)
              == Pad(l, before, o)
  {
    if o.maximum == 0 {
      return 0, 0;
    }
    if o.control {
      allowance := padding.ControlAllowance(o.maximum, o.now);
    } else {
      allowance := padding.DataAllowance(o.size, o.maximum);
    }
    allowance := shape.Allowance(allowance, o.now);
    extra := 0;
    if allowance >= 3 {
      extra := 3 + o.draw % (allowance - 2);
      shape.Spend(extra);
      if o.control {
        padding.SpendControl(extra);
      } else {
        padding.SpendData(extra);
      }
    }
  }

  /** The buckets are neither overdrawn nor overfull. */
  predicate Solvent(l: Limits, b: Budgets) {
    && 0.0 <= b.tokens <= l.burst as real
    && 0.0 <= b.data <= DATA_CREDIT
    && 0.0 <= b.control <= CONTROL_CREDIT
  }

  lemma NeverNegative(from: nat, to: nat, rate: real)
    requires from <= to && rate >= 0.0
    ensures Elapsed(from, to, rate) >= 0.0
  {
  }

  /** With enough in the buckets the encoder gets the padding it asks for, and uses as much as the generator draws. */
  lemma PadGranted(l: Limits, b: Budgets, o: Offer)
    requires Solvent(l, b) && b.shaped <= o.now && b.controlled <= o.now && 0 < o.maximum
    requires l.enabled ==> b.tokens >= (o.maximum + 3) as real
    requires if o.control then b.control >= (o.maximum + 3) as real
             else b.data >= (o.maximum + 3) as real
    ensures Pad(l, b, o).allowance == o.maximum + 3 && Pad(l, b, o).extra == 3 + o.draw % (o.maximum + 1)
  {
    NeverNegative(b.shaped, o.now, l.rate as real);
    NeverNegative(b.controlled, o.now, CONTROL_RATE);
    assert Share(o.size, l.percent) >= 0.0;
  }

  /** A charge is covered: it never exceeds the bucket it is taken from, so nothing is lost to the floors at
      zero; and the padding asked of the encoder stays within its range. */
  lemma PadCovered(l: Limits, b: Budgets, o: Offer)
    requires Solvent(l, b) && b.shaped <= o.now && b.controlled <= o.now
    ensures var g := Pad(l, b, o);
            && Solvent(l, g.budgets) && g.budgets.shaped <= o.now && g.budgets.controlled <= o.now
            && (g.extra > 0 ==> 3 <= g.extra <= g.allowance <= o.maximum + 3)
            && (l.enabled && o.maximum > 0 ==>
                  && g.budgets.shaped == o.now
                  && g.budgets.tokens + g.extra as real <= b.tokens + Elapsed(b.shaped, o.now, l.rate as real)
                  && g.budgets.tokens + g.extra as real <= l.burst as real)
            && (if o.control then
                  g.budgets.data == b.data
                  && g.budgets.control + g.extra as real <= b.control
                     + Elapsed(b.controlled, g.budgets.controlled, CONTROL_RATE)
                else
                  g.budgets.control == b.control && g.budgets.controlled == b.controlled
                  && g.budgets.data + g.extra as real <= b.data + Share(o.size, l.percent))
            && (o.maximum == 0 ==> g.budgets == b && g.extra == 0)
  {
    NeverNegative(b.shaped, o.now, l.rate as real);
    NeverNegative(b.controlled, o.now, CONTROL_RATE);
    assert Share(o.size, l.percent) >= 0.0;
  }

  // ---------------------------------------------------------------------- whole runs

  function After(l: Limits, b: Budgets, os: seq<Offer>): Budgets
    decreases |os|
  {
    if os == [] then b else After(l, Pad(l, b, os[0]).budgets, os[1..])
  }

  /** Bytes of padding added to the records of one kind. */
  function Padding(l: Limits, b: Budgets, os: seq<Offer>, control: bool): nat
    decreases |os|
  {
    if os == [] then 0
    else
      var g := Pad(l, b, os[0]);
      (if os[0].control == control then g.extra else 0) + Padding(l, g.budgets, os[1..], control)
  }

  function DataBytes(os: seq<Offer>): nat {
    if os == [] then 0 else (if os[0].control then 0 else os[0].size) + DataBytes(os[1..])
  }

  /** The clock does not go back. */
  predicate Clocked(from: nat, os: seq<Offer>)
    decreases |os|
  {
    os != [] ==> from <= os[0].now && Clocked(os[0].now, os[1..])
  }

  function Latest(from: nat, os: seq<Offer>): nat
    decreases |os|
  {
    if os == [] then from else Latest(os[0].now, os[1..])
  }

  lemma {:induction false} LatestGrows(from: nat, os: seq<Offer>)
    requires Clocked(from, os)
    ensures from <= Latest(from, os)
    decreases |os|
  {
    if os != [] {
      LatestGrows(os[0].now, os[1..]);
    }
  }

  lemma DataCovered(l: Limits, b: Budgets, o: Offer)
    requires Solvent(l, b) && b.shaped <= o.now && b.controlled <= o.now
    ensures var g := Pad(l, b, o);
            && Solvent(l, g.budgets) && g.budgets.shaped <= o.now && g.budgets.controlled <= o.now
            && g.budgets.data + (if o.control then 0 else g.extra) as real <= b.data
               + Share(if o.control then 0 else o.size, l.percent)
  {
    PadCovered(l, b, o);
    assert Share(o.size, l.percent) >= 0.0;
  }

  /** Data padding is at most the configured share of the data bytes offered. */
  lemma {:induction false} DataPaddingBound(l: Limits, b: Budgets, os: seq<Offer>, time: nat)
    requires Solvent(l, b) && b.shaped <= time && b.controlled <= time && Clocked(time, os)
    ensures Padding(l, b, os, false) as real <= b.data + Share(DataBytes(os), l.percent)
    decreases |os|
  {
    if os != [] {
      var g := Pad(l, b, os[0]);
      DataCovered(l, b, os[0]);
      DataPaddingBound(l, g.budgets, os[1..], os[0].now);
      var own := if os[0].control then 0 else os[0].size;
      ShareAdds(own, DataBytes(os[1..]), l.percent);
    }
  }

  lemma ShareAdds(a: nat, b: nat, percent: nat)
    ensures Share(a + b, percent) == Share(a, percent) + Share(b, percent)
  {
  }

  /** Control padding is at most the credit there was and 64 bytes for each second since. */
  lemma {:induction false} ControlPaddingBound(l: Limits, b: Budgets, os: seq<Offer>, time: nat)
    requires Solvent(l, b) && b.shaped <= time && b.controlled <= time && Clocked(time, os)
    ensures b.controlled <= Latest(time, os)
    ensures Padding(l, b, os, true) as real <= b.control + Elapsed(b.controlled, Latest(time, os), CONTROL_RATE)
    decreases |os|
  {
    LatestGrows(time, os);
    if os != [] {
      PadCovered(l, b, os[0]);
      var g := Pad(l, b, os[0]);
      ControlPaddingBound(l, g.budgets, os[1..], os[0].now);
      ElapsedAdds(b.controlled, g.budgets.controlled, Latest(time, os), CONTROL_RATE);
    }
  }

  lemma ElapsedAdds(a: nat, b: nat, c: nat, rate: real)
    requires a <= b <= c
    ensures Elapsed(a, c, rate) == Elapsed(a, b, rate) + Elapsed(b, c, rate)
  {
  }

  /** The later part of a span earns no more than the whole, and no span earns less than nothing. */
  lemma ElapsedSuffix(a: nat, b: nat, c: nat, rate: nat)
    requires a <= b <= c
    ensures 0.0 <= Elapsed(b, c, rate as real) <= Elapsed(a, c, rate as real)
  {
    ElapsedAdds(a, b, c, rate as real);
    assert (b - a) as real * rate as real >= 0.0;
    assert (c - b) as real * rate as real >= 0.0;
  }

  /** From any point on, both kinds of padding together stay within the tokens there are and the refill. */
  lemma {:induction false} ShapeSpends(l: Limits, b: Budgets, os: seq<Offer>, time: nat)
    requires l.enabled && Solvent(l, b) && b.shaped <= time && b.controlled <= time && Clocked(time, os)
    ensures b.shaped <= Latest(time, os)
    ensures (Padding(l, b, os, true) + Padding(l, b, os, false)) as real <= b.tokens
            + Elapsed(b.shaped, Latest(time, os), l.rate as real)
    decreases |os|
  {
    LatestGrows(time, os);
    if os == [] {
      assert Elapsed(b.shaped, time, l.rate as real) >= 0.0 by {
        assert (time - b.shaped) as real * l.rate as real >= 0.0;
      }
    } else {
      PadCovered(l, b, os[0]);
      var g := Pad(l, b, os[0]);
      ShapeSpends(l, g.budgets, os[1..], os[0].now);
      ElapsedAdds(b.shaped, g.budgets.shaped, Latest(time, os), l.rate as real);
    }
  }

  /** With shaping on, in every window of every run the padding of all lanes together is at most the burst plus
      the rate times the length of the window, which starts at its first record. */
  lemma WindowBound(l: Limits, b: Budgets, before: seq<Offer>, window: seq<Offer>, time: nat)
    requires l.enabled && Solvent(l, b) && b.shaped <= time && b.controlled <= time
    requires window != [] && Clocked(time, before + window)
    ensures var start := After(l, b, before);
            var from, to := window[0].now, Latest(window[0].now, window[1..]);
            && from <= to
            && (Padding(l, start, window, true) + Padding(l, start, window, false)) as real
               <= l.burst as real + Elapsed(from, to, l.rate as real)
  {
    var now := AfterSolvent(l, b, before, window, time);
    var start := After(l, b, before);
    var o := window[0];
    PadCovered(l, start, o);
    var g := Pad(l, start, o);
    LatestGrows(o.now, window[1..]);
    var to := Latest(o.now, window[1..]);
    ShapeSpends(l, g.budgets, window[1..], o.now);
    if o.maximum == 0 {
      WindowStartsLater(l, g.budgets, window[1..], o.now);
    }
  }

  /** A first record that is not padded does not touch the bucket; the window then starts no later. */
  lemma {:induction false} WindowStartsLater(l: Limits, b: Budgets, os: seq<Offer>, time: nat)
    requires l.enabled && Solvent(l, b) && b.shaped <= time && b.controlled <= time && Clocked(time, os)
    ensures time <= Latest(time, os)
    ensures (Padding(l, b, os, true) + Padding(l, b, os, false)) as real
            <= l.burst as real + Elapsed(time, Latest(time, os), l.rate as real)
    decreases |os|
  {
    LatestGrows(time, os);
    ElapsedSuffix(time, Latest(time, os), Latest(time, os), l.rate);
    if os != [] {
      PadCovered(l, b, os[0]);
      var g := Pad(l, b, os[0]);
      LatestGrows(os[0].now, os[1..]);
      ElapsedSuffix(time, os[0].now, Latest(time, os), l.rate);
      if os[0].maximum == 0 {
        WindowStartsLater(l, g.budgets, os[1..], os[0].now);
      } else {
        ShapeSpends(l, g.budgets, os[1..], os[0].now);
      }
    }
  }

  lemma {:induction false} AfterSolvent(l: Limits, b: Budgets, before: seq<Offer>, window: seq<Offer>, time: nat)
      returns (now: nat)
    requires Solvent(l, b) && b.shaped <= time && b.controlled <= time && Clocked(time, before + window)
    ensures Solvent(l, After(l, b, before)) && Clocked(now, window)
    ensures After(l, b, before).shaped <= now && After(l, b, before).controlled <= now
    decreases |before|
  {
    if before == [] {
      assert before + window == window;
      now := time;
    } else {
      assert (before + window)[1..] == before[1..] + window;
      PadCovered(l, b, before[0]);
      now := AfterSolvent(l, Pad(l, b, before[0]).budgets, before[1..], window, before[0].now);
    }
  }

  function Initial(l: Limits, now: nat): Budgets {
    Budgets(l.burst as real, now, 0.0, CONTROL_CREDIT, now)
  }

  /** From the start of a process: the three bounds together. */
  lemma PaddingBounds(l: Limits, start: nat, os: seq<Offer>)
    requires Clocked(start, os)
    ensures var b := Initial(l, start);
            var to := Latest(start, os);
            && start <= to
            && Padding(l, b, os, false) as real <= Share(DataBytes(os), l.percent)
            && Padding(l, b, os, true) as real <= CONTROL_CREDIT + Elapsed(start, to, CONTROL_RATE)
            && (l.enabled ==> (Padding(l, b, os, true) + Padding(l, b, os, false)) as real
                              <= l.burst as real + Elapsed(start, to, l.rate as real))
  {
    var b := Initial(l, start);
    DataPaddingBound(l, b, os, start);
    ControlPaddingBound(l, b, os, start);
    if l.enabled {
      ShapeSpends(l, b, os, start);
    }
  }
}
