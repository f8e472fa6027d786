/**
 Battery behaviour while the car charges (ems/control/car_mode.py): the reserve hold with its two
 thresholds, the bounded re-command rule and the rounded prediction of the house load. The caller
 keeps the session, as ems/control/service.py does: the last commanded setpoint and the hold flag.
*/
module CarMode {
  import opened Prelude
  import opened Hysteresis

  const PREDICT_FLOOR_W := 150.0
  const PREDICT_CAP_W := 3000.0
  const SETPOINT_STEP_W := 50.0
  const STATIC_FLOOR_W := 100.0
  const MATCH_FLOOR_W := 150.0
  const RESERVE_ENTER_PP := 1.0
  const RESERVE_RESUME_PP := 3.0

  /** Any setting other than the two discharge modes holds. */
  datatype Mode = HoldBattery | StaticDischarge | MatchHomeLoad

  datatype Kind = Dormant | Hold | Discharge

  datatype Action = Action(kind: Kind, power: Option<real>, recommand: bool, reserveHold: bool)

  datatype Settings = Settings(minReserve: real, maxDischarge: real, staticW: real, rebond: real)

  /** Setpoint of a discharging cycle. */
  function Power(mode: Mode, s: Settings, predicted: real): real {
    if mode.StaticDischarge? then Clamp(s.staticW, STATIC_FLOOR_W, s.maxDischarge)
    else Clamp(predicted, MATCH_FLOOR_W, s.maxDischarge)
  }

  function Decide(mode: Mode, charging: bool, soc: real, s: Settings, predicted: real, current: Option<real>, holding: bool): Action {
    if !charging then Action(Dormant, None, false, false)
    else if mode.HoldBattery? then Action(Hold, None, true, false)
    else if (if holding then soc < s.minReserve + RESERVE_RESUME_PP else soc <= s.minReserve + RESERVE_ENTER_PP)
      then Action(Hold, None, true, true)
    else
      var power := Power(mode, s, predicted);
      Action(Discharge, Some(power), current.None? || Abs(power - current.value) > s.rebond, false)
  }

  /** What the mode asks for before the limits: the configured power, or the predicted house load. */
  function AskedPower(mode: Mode, s: Settings, predicted: real): real { if mode.StaticDischarge? then s.staticW else predicted }

  /**
   * The battery discharges exactly when the car charges in a discharge mode outside the reserve hold, at the
   * asked power wherever that lies between the floor (100 W static, 150 W matching) and the inverter's
   * limit, and else at the nearer of the two; it is commanded anew exactly on the first time and beyond the threshold.
   */
  lemma DischargesAsAsked(mode: Mode, charging: bool, soc: real, s: Settings, predicted: real, current: Option<real>, holding: bool)
    ensures var a, asked := Decide(mode, charging, soc, s, predicted, current, holding), AskedPower(mode, s, predicted);
            var floor := if mode.StaticDischarge? then 100.0 else 150.0;
            && (a.kind.Dormant? <==> !charging)
            && (a.kind.Discharge? <==> charging && !mode.HoldBattery?
                                       && (if holding then soc >= s.minReserve + 3.0 else soc > s.minReserve + 1.0))
            && (a.reserveHold <==> charging && !mode.HoldBattery? && !a.kind.Discharge?)
            && (a.power.Some? <==> a.kind.Discharge?) && (!a.kind.Discharge? ==> (a.recommand <==> a.kind.Hold?))
            && (a.kind.Discharge? ==>
                  && (floor <= asked <= s.maxDischarge ==> a.power.value == asked)
                  && (asked >= s.maxDischarge >= floor ==> a.power.value == s.maxDischarge)
                  && (asked <= floor ==> a.power.value == floor)
                  && (a.recommand <==> current.None? || Abs(a.power.value - current.value) > s.rebond))
  {
  }

  function FloorOf(mode: Mode): real { if mode.StaticDischarge? then STATIC_FLOOR_W else MATCH_FLOOR_W }

  /** The commanded power respects the inverter's limit exactly when that limit is at least the mode's floor. */
  lemma PowerWithinLimitIff(mode: Mode, soc: real, s: Settings, predicted: real, current: Option<real>, holding: bool)
    requires Decide(mode, true, soc, s, predicted, current, holding).kind == Discharge
    ensures var power := Decide(mode, true, soc, s, predicted, current, holding).power;
            power.Some? && FloorOf(mode) <= power.value && (power.value <= s.maxDischarge <==> s.maxDischarge >= FloorOf(mode))
  {
  }

  /** While the car charges in a discharge mode, the battery never discharges in the floor band of one point. */
  lemma NeverDischargesAtReserve(mode: Mode, soc: real, s: Settings, predicted: real, current: Option<real>, holding: bool)
    ensures Decide(mode, true, soc, s, predicted, current, holding).kind == Discharge ==>
              !mode.HoldBattery? && soc > s.minReserve + RESERVE_ENTER_PP && (holding ==> soc >= s.minReserve + RESERVE_RESUME_PP)
  {
  }

  // --- a session ---------------------------------------------------------------------------------------------

  datatype Cycle = Cycle(soc: real, predicted: real)

  datatype Session = Session(setpoint: Option<real>, holding: bool)

  function ActionAt(mode: Mode, s: Settings, cycles: seq<Cycle>, n: nat): Action
    requires n < |cycles|
  {
    var before := After(mode, s, cycles, n);
    Decide(mode, true, cycles[n].soc, s, cycles[n].predicted, before.setpoint, before.holding)
  }

  /** The session after n cycles: a re-command replaces the setpoint, and the hold flag is carried. */
  function After(mode: Mode, s: Settings, cycles: seq<Cycle>, n: nat): Session
    requires n <= |cycles|
  {
    if n == 0 then Session(None, false)
    else
      var before := After(mode, s, cycles, n - 1);
      var c := cycles[n - 1];
      var a := Decide(mode, true, c.soc, s, c.predicted, before.setpoint, before.holding);
      Session(if a.kind.Discharge? && a.recommand then a.power else before.setpoint, a.reserveHold)
  }

  function HoldFlips(mode: Mode, s: Settings, cycles: seq<Cycle>, n: nat): nat
    requires n <= |cycles|
  {
    if n == 0 then 0
    else HoldFlips(mode, s, cycles, n - 1)
         + if After(mode, s, cycles, n).holding != After(mode, s, cycles, n - 1).holding then 1 else 0
  }

  /** Discharge commands issued in the first n cycles. */
  function Commands(mode: Mode, s: Settings, cycles: seq<Cycle>, n: nat): nat
    requires n <= |cycles|
  {
    if n == 0 then 0
    else
      var a := ActionAt(mode, s, cycles, n - 1);
      Commands(mode, s, cycles, n - 1) + if a.kind.Discharge? && a.recommand then 1 else 0
  }

  function Socs(cycles: seq<Cycle>): (r: seq<real>)
    ensures |r| == |cycles| && forall i :: 0 <= i < |r| ==> r[i] == cycles[i].soc
  {
    seq(|cycles|, i requires 0 <= i < |cycles| => cycles[i].soc)
  }

  lemma {:induction false} HoldIsLatch(mode: Mode, s: Settings, cycles: seq<Cycle>, n: nat)
    requires !mode.HoldBattery? && n <= |cycles|
    ensures var enter, resume := s.minReserve + RESERVE_ENTER_PP, s.minReserve + RESERVE_RESUME_PP;
            && After(mode, s, cycles, n).holding == Holding(false, Socs(cycles), enter, resume, n)
            && HoldFlips(mode, s, cycles, n) == Flips(false, Socs(cycles), enter, resume, n)
  {
    if n > 0 { HoldIsLatch(mode, s, cycles, n - 1); }
  }

  /** Over any session the reserve hold flips at most once plus the state of charge's total variation per two points. */
  lemma HoldFlipsAreBounded(mode: Mode, s: Settings, cycles: seq<Cycle>, n: nat)
    requires !mode.HoldBattery? && n <= |cycles|
    ensures HoldFlips(mode, s, cycles, n) as real <= 1.0 + Variation(Socs(cycles), n) / 2.0
  {
    HoldIsLatch(mode, s, cycles, n);
    FlipsAreBounded(false, Socs(cycles), s.minReserve + RESERVE_ENTER_PP, s.minReserve + RESERVE_RESUME_PP, 2.0, n);
  }

  /** Predictions of the cycles that discharge, and the setpoints they ask for. */
  function Asked(mode: Mode, s: Settings, cycles: seq<Cycle>, n: nat): seq<real>
    requires n <= |cycles|
  {
    if n == 0 then []
    else
      var before := Asked(mode, s, cycles, n - 1);
      if ActionAt(mode, s, cycles, n - 1).kind.Discharge? then before + [cycles[n - 1].predicted] else before
  }

  function Powers(mode: Mode, s: Settings, asked: seq<real>): (r: seq<real>)
    ensures |r| == |asked| && forall i :: 0 <= i < |r| ==> r[i] == Power(mode, s, asked[i])
  {
    seq(|asked|, i requires 0 <= i < |asked| => Power(mode, s, asked[i]))
  }

  /** One cycle of a session: a discharging one may re-issue its setpoint, any other leaves setpoint and count alone. */
  lemma OneCycle(mode: Mode, s: Settings, cycles: seq<Cycle>, n: nat)
    requires !mode.HoldBattery? && n < |cycles|
    ensures var live, power := After(mode, s, cycles, n).setpoint, Power(mode, s, cycles[n].predicted);
            var again := ActionAt(mode, s, cycles, n).kind.Discharge? && Reissues(live, power, s.rebond);
            && After(mode, s, cycles, n + 1).setpoint == (if again then Some(power) else live)
            && Commands(mode, s, cycles, n + 1) == Commands(mode, s, cycles, n) + (if again then 1 else 0)
  {
  }

  /** Setpoint in force, and number of issues, after a list of asked predictions. */
  function Live(mode: Mode, s: Settings, asked: seq<real>): Option<real> {
    Setpoint(None, Powers(mode, s, asked), s.rebond, |asked|)
  }

  function Issued(mode: Mode, s: Settings, asked: seq<real>): nat {
    Reissued(None, Powers(mode, s, asked), s.rebond, |asked|)
  }

  lemma AskOnce(mode: Mode, s: Settings, asked: seq<real>, predicted: real)
    ensures var x := Power(mode, s, predicted);
            var again := Reissues(Live(mode, s, asked), x, s.rebond);
            && Live(mode, s, asked + [predicted]) == (if again then Some(x) else Live(mode, s, asked))
            && Issued(mode, s, asked + [predicted]) == Issued(mode, s, asked) + (if again then 1 else 0)
  {
    NextTarget(Powers(mode, s, asked), Power(mode, s, predicted), s.rebond);
    assert Powers(mode, s, asked + [predicted]) == Powers(mode, s, asked) + [Power(mode, s, predicted)];
  }

  lemma {:induction false} CommandsAreReissues(mode: Mode, s: Settings, cycles: seq<Cycle>, n: nat)
    requires !mode.HoldBattery? && n <= |cycles|
    ensures After(mode, s, cycles, n).setpoint == Live(mode, s, Asked(mode, s, cycles, n))
    ensures Commands(mode, s, cycles, n) == Issued(mode, s, Asked(mode, s, cycles, n))
  {
    if n > 0 {
      CommandsAreReissues(mode, s, cycles, n - 1);
      OneCycle(mode, s, cycles, n - 1);
      AskOnce(mode, s, Asked(mode, s, cycles, n - 1), cycles[n - 1].predicted);
    }
  }

  /** Clamping never enlarges variation. */
  lemma {:induction false} ClampingShrinksVariation(mode: Mode, s: Settings, asked: seq<real>, n: nat)
    requires n <= |asked|
    ensures Variation(Powers(mode, s, asked), n) <= if mode.StaticDischarge? then 0.0 else Variation(asked, n)
  {
    if n > 1 { ClampingShrinksVariation(mode, s, asked, n - 1); }
  }

  /**
   * Mode switching, not tracking: a session issues at most one command plus the total variation of the
   * setpoints it asks for per re-command threshold, however many cycles it lasts and however often the
   * reserve hold interrupts it.
   */
  lemma CommandsAreBounded(mode: Mode, s: Settings, cycles: seq<Cycle>, n: nat)
    requires !mode.HoldBattery? && s.rebond > 0.0 && n <= |cycles|
    ensures var asked := Asked(mode, s, cycles, n);
            Commands(mode, s, cycles, n) as real <= 1.0 + Variation(Powers(mode, s, asked), |asked|) / s.rebond
  {
    var asked := Asked(mode, s, cycles, n);
    CommandsAreReissues(mode, s, cycles, n);
    ReissuesAreBounded(Powers(mode, s, asked), s.rebond, |asked|);
  }

  /** Clamping never enlarges variation, so the variation of the predictions bounds the commands too. */
  lemma PredictionsBoundCommands(mode: Mode, s: Settings, cycles: seq<Cycle>, n: nat)
    requires !mode.HoldBattery? && s.rebond > 0.0 && n <= |cycles|
    ensures var asked := Asked(mode, s, cycles, n);
            Commands(mode, s, cycles, n) as real <= 1.0 + Variation(asked, |asked|) / s.rebond
  {
    var asked := Asked(mode, s, cycles, n);
    CommandsAreBounded(mode, s, cycles, n);
    ClampingShrinksVariation(mode, s, asked, |asked|);
    VariationNonNegative(asked, |asked|);
    QuotientGrows(Variation(Powers(mode, s, asked), |asked|), Variation(asked, |asked|), s.rebond);
  }

  lemma QuotientGrows(a: real, b: real, d: real)
    requires a <= b && d > 0.0
    ensures a / d <= b / d
  {
    var x, y := a / d, b / d;
    assert x * d == a && y * d == b;
    assert (x - y) * d <= 0.0;
    NotPositive(x - y, d);
  }

  /** A static discharge session is commanded at most once. */
  lemma StaticIsCommandedOnce(s: Settings, cycles: seq<Cycle>, n: nat)
    requires s.rebond > 0.0 && n <= |cycles|
    ensures Commands(StaticDischarge, s, cycles, n) <= 1
  {
    var asked := Asked(StaticDischarge, s, cycles, n);
    CommandsAreBounded(StaticDischarge, s, cycles, n);
    ClampingShrinksVariation(StaticDischarge, s, asked, |asked|);
    QuotientGrows(Variation(Powers(StaticDischarge, s, asked), |asked|), 0.0, s.rebond);
    assert 0.0 / s.rebond == 0.0;
  }

  // --- the predicted house load ------------------------------------------------------------------------------

  const HOUR := 3_600_000_000

  /** A stored observation; `None` is an unreadable stamp or value. */
  datatype Row = Row(at: Option<int>, load: Option<real>)

  type Bucket = (int, int)

  /** The weekday-and-hour buckets the window [now, now + horizon) touches in hourly steps, `now`'s own always. */
  ghost predicate Ahead(bucket: int -> Bucket, now: int, horizon: int, b: Bucket) {
    b == bucket(now) || exists k: nat :: k * HOUR < horizon && b == bucket(now + k * HOUR)
  }

  method HorizonBuckets(bucket: int -> Bucket, now: int, horizon: int) returns (buckets: set<Bucket>)
    ensures forall b :: b in buckets <==> Ahead(bucket, now, horizon, b)
  {
    buckets := {bucket(now)};
    var end, t := now + horizon, now;
    ghost var steps: nat := 0;
    while t < end
      invariant t == now + steps * HOUR
      invariant forall b :: b in buckets <==> b == bucket(now) || exists k: nat :: k < steps && b == bucket(now + k * HOUR)
      invariant steps > 0 ==> (steps - 1) * HOUR < horizon
      decreases end - t
    {
      buckets := buckets + {bucket(t)};
      t, steps := t + HOUR, steps + 1;
    }
    assert forall k: nat :: k < steps <==> k * HOUR < horizon by {
      forall k: nat ensures k < steps <==> k * HOUR < horizon {
        if k < steps { assert k * HOUR <= (steps - 1) * HOUR; } else { assert k * HOUR >= steps * HOUR; }
      }
    }
  }

  /** Loads of the rows that fall in the wanted buckets, in order. */
  function Matched(bucket: int -> Bucket, buckets: set<Bucket>, rows: seq<Row>, n: nat): seq<real>
    requires n <= |rows|
  {
    if n == 0 then []
    else
      var before, r := Matched(bucket, buckets, rows, n - 1), rows[n - 1];
      if r.at.Some? && r.load.Some? && bucket(r.at.value) in buckets then before + [r.load.value] else before
  }

  function Sum(xs: seq<real>): real { if xs == [] then 0.0 else Sum(xs[..|xs| - 1]) + xs[|xs| - 1] }

  lemma SumAppend(xs: seq<real>, x: real)
    ensures Sum(xs + [x]) == Sum(xs) + x
  {
    assert (xs + [x])[..|xs|] == xs;
  }

  function Expected(matched: seq<real>, profile: real): real {
    if matched == [] then profile else Sum(matched) / (|matched| as real)
  }

  /** The mean of the matching loads: no more and no less than they add up to, and between any bounds of theirs. */
  lemma ExpectedIsMean(matched: seq<real>, profile: real, lo: real, hi: real)
    requires forall i :: 0 <= i < |matched| ==> lo <= matched[i] <= hi
    ensures Expected([], profile) == profile
    ensures matched != [] ==> Expected(matched, profile) * (|matched| as real) == Sum(matched)
    ensures matched != [] ==> lo <= Expected(matched, profile) <= hi
  {
    if matched != [] {
      var m, n := Expected(matched, profile), |matched| as real;
      assert m * n == Sum(matched);
      SumWithin(matched, lo, hi);
      assert (m - lo) * n >= 0.0 && (hi - m) * n >= 0.0;
      NotPositive(lo - m, n);
      NotPositive(m - hi, n);
    }
  }

  lemma {:induction false} SumWithin(xs: seq<real>, lo: real, hi: real)
    requires forall i :: 0 <= i < |xs| ==> lo <= xs[i] <= hi
    ensures lo * (|xs| as real) <= Sum(xs) <= hi * (|xs| as real)
  {
    if xs != [] {
      var n := |xs| - 1;
      SumWithin(xs[..n], lo, hi);
      assert |xs| as real == n as real + 1.0;
      assert lo * (n as real + 1.0) == lo * (n as real) + lo && hi * (n as real + 1.0) == hi * (n as real) + hi;
    }
  }

  /** A load matches exactly when its row is readable and falls in one of the buckets. */
  lemma {:induction false} MatchedIff(bucket: int -> Bucket, buckets: set<Bucket>, rows: seq<Row>, n: nat, x: real)
    requires n <= |rows|
    ensures x in Matched(bucket, buckets, rows, n)
       <==> exists i :: 0 <= i < n && rows[i].at.Some? && rows[i].load == Some(x) && bucket(rows[i].at.value) in buckets
  {
    if n > 0 { MatchedIff(bucket, buckets, rows, n - 1, x); }
  }

  /** Rounding to the nearest integer, ties to even. */
  function RoundHalfEven(x: real): int {
    var f := x.Floor;
    var d := x - f as real;
    if d < 0.5 || (d == 0.5 && f % 2 == 0) then f else f + 1
  }

  function Rounded(expected: real): real {
    RoundHalfEven(Clamp(expected, PREDICT_FLOOR_W, PREDICT_CAP_W) / SETPOINT_STEP_W) as real * SETPOINT_STEP_W
  }

  lemma RoundIsNearest(x: real, y: real)
    ensures -0.5 <= RoundHalfEven(x) as real - x <= 0.5
    ensures Abs(RoundHalfEven(x) as real - x) == 0.5 ==> RoundHalfEven(x) % 2 == 0
    ensures x <= y ==> RoundHalfEven(x) <= RoundHalfEven(y)
  {
    if x <= y { assert x.Floor <= y.Floor; }
  }

  /** The prediction is a multiple of the step within the sanity range, and within half a step of the clamped mean. */
  lemma PredictionInRange(expected: real)
    ensures Rounded(expected) == Rounded(expected).Floor as real && Rounded(expected).Floor % 50 == 0
    ensures PREDICT_FLOOR_W <= Rounded(expected) <= PREDICT_CAP_W
    ensures Abs(Rounded(expected) - Clamp(expected, PREDICT_FLOOR_W, PREDICT_CAP_W)) <= SETPOINT_STEP_W / 2.0
  {
    var x := Clamp(expected, PREDICT_FLOOR_W, PREDICT_CAP_W) / SETPOINT_STEP_W;
    RoundIsNearest(x, x);
    assert RoundHalfEven(3.0) == 3 && RoundHalfEven(60.0) == 60;
    RoundIsNearest(3.0, x);
    RoundIsNearest(x, 60.0);
    var k := RoundHalfEven(x);
    assert Rounded(expected) == (50 * k) as real;
  }

  /** Noise within the threshold less one step never re-commands a matching session. */
  lemma NoiseNeverRecommands(s: Settings, soc: real, was: real, expected: real, holding: bool)
    requires Abs(expected - was) <= s.rebond - SETPOINT_STEP_W
    ensures !Decide(MatchHomeLoad, true, soc, s, Rounded(expected), Some(Power(MatchHomeLoad, s, Rounded(was))), holding).recommand
            || Decide(MatchHomeLoad, true, soc, s, Rounded(expected), Some(Power(MatchHomeLoad, s, Rounded(was))), holding).kind == Hold
  {
    PredictionInRange(was);
    PredictionInRange(expected);
  }

  method PredictHouseLoad(rows: seq<Row>, profile: real, bucket: int -> Bucket, now: int, horizon: int)
    returns (watts: real, ghost buckets: set<Bucket>)
    ensures forall b :: b in buckets <==> Ahead(bucket, now, horizon, b)
    ensures watts == Rounded(Expected(Matched(bucket, buckets, rows, |rows|), profile))
    ensures PREDICT_FLOOR_W <= watts <= PREDICT_CAP_W
  {
    var targets := HorizonBuckets(bucket, now, horizon);
    buckets := targets;
    var sum, count := 0.0, 0;
    for i := 0 to |rows|
      invariant sum == Sum(Matched(bucket, targets, rows, i)) && count == |Matched(bucket, targets, rows, i)|
    {
      var r := rows[i];
      if r.at.Some? && r.load.Some? && bucket(r.at.value) in targets {
        var matched := Matched(bucket, targets, rows, i);
        SumAppend(matched, r.load.value);
        sum, count := sum + r.load.value, count + 1;
      }
    }
    var expected := if count > 0 then sum / (count as real) else profile;
    PredictionInRange(expected);
    watts := Rounded(expected);
  }
}
