/**
 Anti-flap bounds shared by the car-mode reserve hold and the floor latch: a two-threshold latch flips,
 and a dead-banded setpoint is re-issued, at most once plus the signal's total variation per gap.
*/
module Hysteresis {
  import opened Prelude

  /** Enter at or below `enter`, leave at or above `resume`. */
  predicate Latch(holding: bool, signal: real, enter: real, resume: real) {
    if holding then signal < resume else signal <= enter
  }

  /** The latch after the first n signals. */
  function Holding(start: bool, signals: seq<real>, enter: real, resume: real, n: nat): bool
    requires n <= |signals|
  {
    if n == 0 then start else Latch(Holding(start, signals, enter, resume, n - 1), signals[n - 1], enter, resume)
  }

  function Flips(start: bool, signals: seq<real>, enter: real, resume: real, n: nat): nat
    requires n <= |signals|
  {
    if n == 0 then 0
    else Flips(start, signals, enter, resume, n - 1)
         + if Holding(start, signals, enter, resume, n) != Holding(start, signals, enter, resume, n - 1) then 1 else 0
  }

  /** Total variation of the first n signals. */
  function Variation(signals: seq<real>, n: nat): real
    requires n <= |signals|
  {
    if n <= 1 then 0.0 else Variation(signals, n - 1) + Abs(signals[n - 1] - signals[n - 2])
  }

  /** How far the signal has come back since the last flip, towards the next one. */
  function Progress(holding: bool, signal: real, enter: real, resume: real): real {
    if holding then Max(0.0, signal - enter) else Max(0.0, resume - signal)
  }

  lemma OneMore(n: nat, gap: real)
    ensures Times((n + 1) as real, gap) == Times(n as real, gap) + gap
  {
    assert (n + 1) as real == n as real + 1.0;
    TimesAdds(n as real, 1.0, gap);
    assert Times(1.0, gap) == gap;
  }

  lemma {:induction false} FlipsAndProgress(start: bool, signals: seq<real>, enter: real, resume: real, n: nat)
    requires enter <= resume && n <= |signals| && Flips(start, signals, enter, resume, n) > 0
    ensures Times(Flips(start, signals, enter, resume, n) as real, resume - enter)
            + Progress(Holding(start, signals, enter, resume, n), signals[n - 1], enter, resume)
         <= resume - enter + Variation(signals, n)
  {
    var f := Flips(start, signals, enter, resume, n - 1);
    OneMore(f, resume - enter);
    if f > 0 {
      FlipsAndProgress(start, signals, enter, resume, n - 1);
    } else {
      assert Times(0.0, resume - enter) == 0.0;
      VariationNonNegative(signals, n);
    }
  }

  /** Anti-flap bound: every flip after the first costs the whole gap in variation of the signal. */
  lemma FlipsAreBounded(start: bool, signals: seq<real>, enter: real, resume: real, gap: real, n: nat)
    requires gap == resume - enter > 0.0 && n <= |signals|
    ensures Flips(start, signals, enter, resume, n) as real <= 1.0 + Variation(signals, n) / gap
  {
    var f, v := Flips(start, signals, enter, resume, n), Variation(signals, n);
    VariationNonNegative(signals, n);
    if f > 0 { FlipsAndProgress(start, signals, enter, resume, n); }
    PerGap(f as real, gap, v);
  }

  lemma PerGap(f: real, gap: real, v: real)
    requires gap > 0.0 && v >= 0.0 && (f > 0.0 ==> Times(f, gap) <= gap + v)
    ensures f <= 1.0 + v / gap
  {
    var q := v / gap;
    assert q * gap == v && q >= 0.0;
    if f > 0.0 {
      assert (f - 1.0 - q) * gap <= 0.0;
      NotPositive(f - 1.0 - q, gap);
    }
  }

  lemma NotPositive(x: real, gap: real)
    requires gap > 0.0 && x * gap <= 0.0
    ensures x <= 0.0
  {
  }

  // --- dead band -----------------------------------------------------------------------------------------

  /** The setpoint in force after n targets: re-issued when none is in force or the target moved beyond the band. */
  function Setpoint(start: Option<real>, targets: seq<real>, band: real, n: nat): Option<real>
    requires n <= |targets|
  {
    if n == 0 then start
    else
      var live := Setpoint(start, targets, band, n - 1);
      if Reissues(live, targets[n - 1], band) then Some(targets[n - 1]) else live
  }

  predicate Reissues(live: Option<real>, target: real, band: real) {
    live.None? || Abs(target - live.value) > band
  }

  function Reissued(start: Option<real>, targets: seq<real>, band: real, n: nat): nat
    requires n <= |targets|
  {
    if n == 0 then 0
    else Reissued(start, targets, band, n - 1)
         + if Reissues(Setpoint(start, targets, band, n - 1), targets[n - 1], band) then 1 else 0
  }

  lemma {:induction false} PrefixesAgree(targets: seq<real>, x: real, band: real, n: nat)
    requires n <= |targets|
    ensures Setpoint(None, targets + [x], band, n) == Setpoint(None, targets, band, n)
    ensures Reissued(None, targets + [x], band, n) == Reissued(None, targets, band, n)
  {
    if n > 0 { PrefixesAgree(targets, x, band, n - 1); }
  }

  /** One more target: what is in force and issued afterwards. */
  lemma NextTarget(targets: seq<real>, x: real, band: real)
    ensures var n, live := |targets|, Setpoint(None, targets, band, |targets|);
            && Setpoint(None, targets + [x], band, n + 1) == (if Reissues(live, x, band) then Some(x) else live)
            && Reissued(None, targets + [x], band, n + 1)
               == Reissued(None, targets, band, n) + (if Reissues(live, x, band) then 1 else 0)
  {
    PrefixesAgree(targets, x, band, |targets|);
    assert (targets + [x])[|targets|] == x;
  }

  lemma {:induction false} ReissuesAndDrift(targets: seq<real>, band: real, n: nat)
    requires band >= 0.0 && 0 < n <= |targets|
    ensures Setpoint(None, targets, band, n).Some?
    ensures Times(Reissued(None, targets, band, n) as real, band) + Abs(targets[n - 1] - Setpoint(None, targets, band, n).value)
         <= band + Variation(targets, n)
  {
    OneMore(Reissued(None, targets, band, n - 1), band);
    if n > 1 {
      ReissuesAndDrift(targets, band, n - 1);
    } else {
      assert Times(0.0, band) == 0.0;
    }
  }

  /** A setpoint started afresh is issued at most once plus the targets' total variation per dead band. */
  lemma ReissuesAreBounded(targets: seq<real>, band: real, n: nat)
    requires band > 0.0 && n <= |targets|
    ensures Reissued(None, targets, band, n) as real <= 1.0 + Variation(targets, n) / band
  {
    VariationNonNegative(targets, n);
    if n > 0 { ReissuesAndDrift(targets, band, n); }
    PerGap(Reissued(None, targets, band, n) as real, band, Variation(targets, n));
  }

  lemma {:induction false} VariationNonNegative(signals: seq<real>, n: nat)
    requires n <= |signals|
    ensures Variation(signals, n) >= 0.0
  {
    if n > 1 { VariationNonNegative(signals, n - 1); }
  }
}
