/**
 Why the earliest-deadline, cheapest-slot greedy of ems/ev_planner.py is cost-optimal.

 An allocation gives each quarter-hour slot some battery-kWh between 0 and `c`. A goal asks that the
 first `reach` slots together hold at least `need` kWh, or are full. Goals are nested: later ones ask
 for no less and may use every slot an earlier one may. The certificate is a price level per slot that
 never rises and only drops where a goal is met exactly: slots cheaper than their level are full,
 dearer ones empty. Every allocation carrying a certificate is cheapest, and each greedy round
 extends the certificate of the round before.
*/
module ChargeAllocation {
  import opened Prelude

  datatype Slot = Slot(start: int, eff: real, surplus: bool)

  datatype Goal = Goal(need: real, reach: nat)

  /** kWh held by the first n slots. */
  function Placed(x: seq<real>, n: nat): real
    requires n <= |x|
  {
    if n == 0 then 0.0 else Placed(x, n - 1) + x[n - 1]
  }

  /** Battery-side cost of the first n slots. */
  function Cost(slots: seq<Slot>, x: seq<real>, n: nat): real
    requires n <= |x| == |slots|
  {
    if n == 0 then 0.0 else Cost(slots, x, n - 1) + Times(slots[n - 1].eff, x[n - 1])
  }

  /** What n slots can hold together. */
  function Capacity(c: real, n: nat): real {
    if n == 0 then 0.0 else Capacity(c, n - 1) + c
  }

  lemma {:induction false} CapacityIsProduct(c: real, n: nat)
    ensures Capacity(c, n) == c * (n as real)
  {
    if n > 0 { CapacityIsProduct(c, n - 1); }
  }

  /** What a goal can get: its need, or everything its slots can hold. */
  function Covered(g: Goal, c: real): real {
    Min(g.need, Capacity(c, g.reach))
  }

  function LastCovered(goals: seq<Goal>, c: real): real {
    if goals == [] then 0.0 else Covered(goals[|goals| - 1], c)
  }

  function LastReach(goals: seq<Goal>): nat {
    if goals == [] then 0 else goals[|goals| - 1].reach
  }

  ghost predicate Nested(goals: seq<Goal>, n: nat) {
    && (forall i :: 0 <= i < |goals| ==> goals[i].need >= 0.0 && goals[i].reach <= n)
    && (forall i, j :: 0 <= i <= j < |goals| ==> goals[i].need <= goals[j].need && goals[i].reach <= goals[j].reach)
  }

  ghost predicate WithinSlots(x: seq<real>, c: real) {
    forall s :: 0 <= s < |x| ==> 0.0 <= x[s] <= c
  }

  /** Meets every goal as far as possible and places nothing beyond the last one. */
  ghost predicate Feasible(x: seq<real>, c: real, goals: seq<Goal>)
    requires Nested(goals, |x|)
  {
    && WithinSlots(x, c)
    && (forall i :: 0 <= i < |goals| ==> Placed(x, goals[i].reach) >= Covered(goals[i], c))
    && Placed(x, |x|) == LastCovered(goals, c)
  }

  // --- sums -----------------------------------------------------------------------------------

  lemma {:induction false} PlacedUpdate(x: seq<real>, s: nat, v: real, n: nat)
    requires n <= |x| && s < |x|
    ensures Placed(x[s := v], n) == Placed(x, n) + if s < n then v - x[s] else 0.0
  {
    if n > 0 { PlacedUpdate(x, s, v, n - 1); }
  }

  lemma {:induction false} PlacedBound(x: seq<real>, c: real, n: nat)
    requires n <= |x| && WithinSlots(x, c)
    ensures 0.0 <= Placed(x, n) <= Capacity(c, n)
  {
    if n > 0 { PlacedBound(x, c, n - 1); }
  }

  lemma {:induction false} PlacedFull(x: seq<real>, c: real, n: nat)
    requires n <= |x| && forall s :: 0 <= s < n ==> x[s] == c
    ensures Placed(x, n) == Capacity(c, n)
  {
    if n > 0 { PlacedFull(x, c, n - 1); }
  }

  lemma {:induction false} PlacedMonotone(x: seq<real>, m: nat, n: nat)
    requires m <= n <= |x| && forall s :: m <= s < n ==> x[s] >= 0.0
    ensures Placed(x, m) <= Placed(x, n)
    ensures Placed(x, m) == Placed(x, n) ==> forall s :: m <= s < n ==> x[s] == 0.0
    decreases n
  {
    if m < n { PlacedMonotone(x, m, n - 1); }
  }

  lemma {:induction false} PlacedZeros(x: seq<real>, m: nat, n: nat)
    requires m <= n <= |x| && forall s :: m <= s < n ==> x[s] == 0.0
    ensures Placed(x, m) == Placed(x, n)
    decreases n
  {
    if m < n { PlacedZeros(x, m, n - 1); }
  }

  lemma {:induction false} PlacedPointwise(x: seq<real>, y: seq<real>, n: nat)
    requires n <= |x| && n <= |y| && forall s :: 0 <= s < n ==> x[s] <= y[s]
    ensures Placed(x, n) <= Placed(y, n)
    ensures (forall s :: 0 <= s < n ==> x[s] == y[s]) ==> Placed(x, n) == Placed(y, n)
  {
    if n > 0 { PlacedPointwise(x, y, n - 1); }
  }

  lemma {:induction false} CostZeros(slots: seq<Slot>, x: seq<real>, m: nat, n: nat)
    requires m <= n <= |x| == |slots| && forall s :: m <= s < n ==> x[s] == 0.0
    ensures Cost(slots, x, m) == Cost(slots, x, n)
    decreases n
  {
    if m < n { CostZeros(slots, x, m, n - 1); }
  }

  // --- the certificate --------------------------------------------------------------------------

  /** Some goal reaches exactly to slot m and is met with nothing to spare. */
  ghost predicate Tight(x: seq<real>, c: real, goals: seq<Goal>, m: nat)
    requires m <= |x|
  {
    exists i :: 0 <= i < |goals| && goals[i].reach == m && Placed(x, m) == Covered(goals[i], c)
  }

  /** Slots cheaper than their level are full, dearer ones empty. */
  ghost predicate Slack(slots: seq<Slot>, c: real, x: seq<real>, level: seq<real>)
    requires |level| <= |x| == |slots|
  {
    forall s :: 0 <= s < |level| ==> (slots[s].eff < level[s] ==> x[s] == c) && (slots[s].eff > level[s] ==> x[s] == 0.0)
  }

  ghost predicate Certificate(slots: seq<Slot>, c: real, goals: seq<Goal>, x: seq<real>, level: seq<real>)
    requires |x| == |slots| && Nested(goals, |slots|)
  {
    var n := LastReach(goals);
    && |level| == n
    && Feasible(x, c, goals)
    && (forall s :: n <= s < |x| ==> x[s] == 0.0)
    && Slack(slots, c, x, level)
    && (forall s, r :: 0 <= s <= r < n ==> level[s] >= level[r])
    && (forall m :: 0 < m < n && level[m - 1] > level[m] ==> Tight(x, c, goals, m))
  }

  lemma OrderedProducts(a: real, b: real, d: real)
    requires (a < b ==> d <= 0.0) && (a > b ==> d >= 0.0)
    ensures Times(a, d) >= Times(b, d)
  {
    if a < b {
      ProductNonNegative(b - a, -d);
      assert (b - a) * -d == a * d - b * d;
    } else {
      if a > b { ProductNonNegative(a - b, d); }
      assert (a - b) * d == a * d - b * d;
    }
  }

  lemma TimesSubtracts(a: real, b: real, c: real)
    ensures Times(a, b) - Times(a, c) == Times(a, b - c)
  {
  }

  lemma AddSlotTerm(cy: real, cx: real, eff: real, y: real, x: real, before: real, level: real, ahead: real)
    requires cy - cx >= Times(before, ahead) && before >= level && (before > level ==> ahead >= 0.0)
    requires (eff < level ==> y <= x) && (eff > level ==> y >= x)
    ensures (cy + Times(eff, y)) - (cx + Times(eff, x)) >= Times(level, ahead + (y - x))
  {
    OrderedProducts(before, level, ahead);
    OrderedProducts(eff, level, y - x);
    TimesSubtracts(eff, y, x);
    TimesAdds(ahead, y - x, level);
  }

  /** Levels never rise, and y holds at least as much as x in front of every drop. */
  ghost predicate AheadAtDrops(x: seq<real>, y: seq<real>, level: seq<real>)
    requires |level| <= |x| == |y|
  {
    forall m :: 0 < m < |level| ==>
      level[m - 1] >= level[m] && (level[m - 1] > level[m] ==> Placed(y, m) >= Placed(x, m))
  }

  /** Complementary slackness turned into a lower bound on the extra cost of any other allocation. */
  lemma {:induction false} ExtraCost(slots: seq<Slot>, c: real, x: seq<real>, level: seq<real>, y: seq<real>, m: nat)
    requires 0 < m <= |level| <= |x| == |y| == |slots|
    requires Slack(slots, c, x, level) && WithinSlots(x, c) && WithinSlots(y, c) && AheadAtDrops(x, y, level)
    ensures Cost(slots, y, m) - Cost(slots, x, m) >= Times(level[m - 1], Placed(y, m) - Placed(x, m))
  {
    var s := m - 1;
    var e, l, ys, xs := slots[s].eff, level[s], y[s], x[s];
    var cy, cx, py, px := Cost(slots, y, s), Cost(slots, x, s), Placed(y, s), Placed(x, s);
    assert Placed(y, m) - Placed(x, m) == (py - px) + (ys - xs);
    assert Cost(slots, y, m) - Cost(slots, x, m) == (cy + Times(e, ys)) - (cx + Times(e, xs));
    if s > 0 {
      ExtraCost(slots, c, x, level, y, s);
      AddSlotTerm(cy, cx, e, ys, xs, level[s - 1], l, py - px);
    } else {
      AddSlotTerm(cy, cx, e, ys, xs, l, l, py - px);
    }
  }

  lemma CertificateIsAhead(slots: seq<Slot>, c: real, goals: seq<Goal>, x: seq<real>, level: seq<real>, y: seq<real>)
    requires |x| == |y| == |slots| && Nested(goals, |slots|)
    requires Certificate(slots, c, goals, x, level) && Feasible(y, c, goals)
    ensures AheadAtDrops(x, y, level)
  {
    forall m | 0 < m < |level| && level[m - 1] > level[m] ensures Placed(y, m) >= Placed(x, m) {
      assert Tight(x, c, goals, m);
    }
  }

  lemma NothingBeyondLastReach(c: real, goals: seq<Goal>, y: seq<real>)
    requires Nested(goals, |y|) && Feasible(y, c, goals)
    ensures Placed(y, LastReach(goals)) == LastCovered(goals, c)
    ensures forall s :: LastReach(goals) <= s < |y| ==> y[s] == 0.0
  {
    PlacedMonotone(y, LastReach(goals), |y|);
  }

  /** A certified allocation costs no more than any allocation meeting the same goals. */
  lemma CertifiedIsCheapest(slots: seq<Slot>, c: real, goals: seq<Goal>, x: seq<real>, level: seq<real>, y: seq<real>)
    requires |x| == |y| == |slots| && Nested(goals, |slots|)
    requires Certificate(slots, c, goals, x, level) && Feasible(y, c, goals)
    ensures Cost(slots, x, |slots|) <= Cost(slots, y, |slots|)
  {
    var n := LastReach(goals);
    PlacedZeros(x, n, |x|);
    NothingBeyondLastReach(c, goals, y);
    CostZeros(slots, x, n, |x|);
    CostZeros(slots, y, n, |y|);
    if n > 0 {
      CertificateIsAhead(slots, c, goals, x, level, y);
      ExtraCost(slots, c, x, level, y, n);
      assert Placed(y, n) - Placed(x, n) == 0.0;
      assert Times(level[n - 1], 0.0) == 0.0;
    }
  }

  // --- one greedy round ---------------------------------------------------------------------------

  /** No slot was topped up while a cheaper one in reach still had room. */
  ghost predicate CheapestFirst(slots: seq<Slot>, c: real, x: seq<real>, x': seq<real>, n: nat)
    requires n <= |x| == |x'| == |slots|
  {
    forall s, u :: 0 <= s < n && 0 <= u < n && x'[s] > x[s] && x'[u] < c ==> slots[s].eff <= slots[u].eff
  }

  /** What one round guarantees, in terms that do not mention how it sorts or loops. */
  ghost predicate Round(slots: seq<Slot>, c: real, x: seq<real>, x': seq<real>, n: nat, deficit: real, planned: real) {
    && n <= |x| == |x'| == |slots|
    && WithinSlots(x', c)
    && (forall s :: 0 <= s < |x| ==> x[s] <= x'[s])
    && (forall s :: n <= s < |x| ==> x[s] == x'[s])
    && planned == Min(deficit, Capacity(c, n) - Placed(x, n))
    && Placed(x', n) == Placed(x, n) + planned
    && CheapestFirst(slots, c, x, x', n)
  }

  /** The marginal price of a round: everything cheaper is full, nothing dearer was topped up. */
  lemma {:induction false} MarginalPrice(slots: seq<Slot>, c: real, x: seq<real>, x': seq<real>, n: nat, k: nat) returns (t: real)
    requires k <= n <= |x| == |x'| == |slots| && CheapestFirst(slots, c, x, x', n)
    requires forall s :: 0 <= s < n ==> x[s] <= x'[s] <= c
    ensures forall s :: 0 <= s < k && x'[s] > x[s] ==> slots[s].eff <= t
    ensures forall u :: 0 <= u < k && slots[u].eff < t ==> x'[u] == c
    ensures (exists s :: 0 <= s < n && x'[s] > x[s] && slots[s].eff == t)
            || (forall s :: 0 <= s < k ==> x'[s] == x[s] && t <= slots[s].eff)
  {
    if k == 0 {
      t := 0.0;
    } else {
      t := MarginalPrice(slots, c, x, x', n, k - 1);
      var s := k - 1;
      if x'[s] > x[s] {
        if exists r :: 0 <= r < n && x'[r] > x[r] && slots[r].eff == t {
          t := Max(t, slots[s].eff);
        } else {
          t := slots[s].eff;
        }
      } else if slots[s].eff < t && !(exists r :: 0 <= r < n && x'[r] > x[r] && slots[r].eff == t) {
        t := slots[s].eff;
      }
    }
  }

  lemma UntouchedBelowDrop(slots: seq<Slot>, c: real, goals: seq<Goal>, x: seq<real>, level: seq<real>, x': seq<real>, n: nat, t: real, m: nat)
    requires |x| == |x'| == |slots| && Nested(goals, |slots|) && Certificate(slots, c, goals, x, level)
    requires LastReach(goals) <= n <= |x| && 0 < m <= LastReach(goals) && level[m - 1] > t
    requires WithinSlots(x', c) && forall s :: 0 <= s < |x| ==> x[s] <= x'[s]
    requires forall s :: 0 <= s < n && x'[s] > x[s] ==> slots[s].eff <= t
    ensures Placed(x', m) == Placed(x, m)
  {
    forall s | 0 <= s < m ensures x'[s] == x[s] {
      assert level[s] >= level[m - 1];
      if slots[s].eff <= t { assert x[s] == c; }
    }
    PlacedPointwise(x, x', m);
  }

  /** Levels after a round whose marginal price is t, over the first n slots. */
  function Raised(level: seq<real>, t: real, n: nat): (level': seq<real>)
    requires |level| <= n
    ensures |level'| == n
    ensures forall s :: 0 <= s < n ==> level'[s] == if s < |level| then Max(level[s], t) else t
  {
    seq(n, s requires 0 <= s < n => if s < |level| then Max(level[s], t) else t)
  }

  lemma RaisedIsSlack(slots: seq<Slot>, c: real, x: seq<real>, x': seq<real>, level: seq<real>, t: real, n: nat)
    requires |level| <= n <= |x| == |x'| == |slots|
    requires Slack(slots, c, x, level) && WithinSlots(x', c) && forall s :: 0 <= s < |x| ==> x[s] <= x'[s]
    requires forall s :: |level| <= s < |x| ==> x[s] == 0.0
    requires forall s :: 0 <= s < n && x'[s] > x[s] ==> slots[s].eff <= t
    requires forall u :: 0 <= u < n && slots[u].eff < t ==> x'[u] == c
    ensures Slack(slots, c, x', Raised(level, t, n))
  {
  }

  lemma RaisedIsTight(slots: seq<Slot>, c: real, goals: seq<Goal>, x: seq<real>, level: seq<real>, g: Goal, x': seq<real>, t: real, m: nat)
    requires |x| == |x'| == |slots| && Nested(goals, |slots|) && Certificate(slots, c, goals, x, level)
    requires LastReach(goals) <= g.reach <= |x| && WithinSlots(x', c) && forall s :: 0 <= s < |x| ==> x[s] <= x'[s]
    requires forall s :: 0 <= s < g.reach && x'[s] > x[s] ==> slots[s].eff <= t
    requires 0 < m < g.reach && Raised(level, t, g.reach)[m - 1] > Raised(level, t, g.reach)[m]
    ensures Tight(x', c, goals + [g], m)
  {
    assert m <= |level| && level[m - 1] > t;
    UntouchedBelowDrop(slots, c, goals, x, level, x', g.reach, t, m);
    TightAtDrop(slots, c, goals, x, level, m, t);
    var i :| 0 <= i < |goals| && goals[i].reach == m && Placed(x, m) == Covered(goals[i], c);
    assert (goals + [g])[i] == goals[i];
  }

  /** Each greedy round extends the certificate to the next goal. */
  lemma RoundExtendsCertificate(slots: seq<Slot>, c: real, goals: seq<Goal>, x: seq<real>, level: seq<real>,
                                g: Goal, x': seq<real>, planned: real) returns (level': seq<real>)
    requires |x| == |x'| == |slots| && Nested(goals + [g], |slots|) && Nested(goals, |slots|) && c >= 0.0
    requires Certificate(slots, c, goals, x, level)
    requires Round(slots, c, x, x', g.reach, Max(0.0, g.need - LastCovered(goals, c)), planned)
    ensures Certificate(slots, c, goals + [g], x', level')
    ensures planned == Covered(g, c) - LastCovered(goals, c)
  {
    assert LastReach(goals) <= g.reach by { LaterReach(goals, g, |slots|); }
    RoundMeetsGoals(slots, c, goals, x, level, g, x', planned);
    var t := MarginalPrice(slots, c, x, x', g.reach, g.reach);
    level' := Raised(level, t, g.reach);
    RaisedIsSlack(slots, c, x, x', level, t, g.reach);
    RaisedDescends(level, t, g.reach);
    forall m | 0 < m < g.reach && level'[m - 1] > level'[m] ensures Tight(x', c, goals + [g], m) {
      RaisedIsTight(slots, c, goals, x, level, g, x', t, m);
    }
    assert LastReach(goals + [g]) == g.reach;
  }

  lemma RaisedDescends(level: seq<real>, t: real, n: nat)
    requires |level| <= n && forall s, r :: 0 <= s <= r < |level| ==> level[s] >= level[r]
    ensures forall s, r :: 0 <= s <= r < n ==> Raised(level, t, n)[s] >= Raised(level, t, n)[r]
  {
  }

  lemma LaterReach(goals: seq<Goal>, g: Goal, n: nat)
    requires Nested(goals + [g], n)
    ensures LastReach(goals) <= g.reach
  {
    if goals != [] {
      assert (goals + [g])[|goals| - 1] == goals[|goals| - 1] && (goals + [g])[|goals|] == g;
    }
  }

  lemma TightAtDrop(slots: seq<Slot>, c: real, goals: seq<Goal>, x: seq<real>, level: seq<real>, m: nat, t: real)
    requires |x| == |slots| && Nested(goals, |slots|) && Certificate(slots, c, goals, x, level)
    requires 0 < m <= LastReach(goals)
    requires m < LastReach(goals) ==> level[m - 1] > level[m]
    ensures Tight(x, c, goals, m)
  {
    if m == LastReach(goals) {
      PlacedZeros(x, m, |x|);
      assert goals[|goals| - 1].reach == m;
    }
  }

  lemma RoundMeetsGoals(slots: seq<Slot>, c: real, goals: seq<Goal>, x: seq<real>, level: seq<real>, g: Goal, x': seq<real>, planned: real)
    requires |x| == |x'| == |slots| && Nested(goals + [g], |slots|) && Nested(goals, |slots|) && c >= 0.0
    requires Certificate(slots, c, goals, x, level)
    requires Round(slots, c, x, x', g.reach, Max(0.0, g.need - LastCovered(goals, c)), planned)
    ensures Feasible(x', c, goals + [g])
    ensures planned == Covered(g, c) - LastCovered(goals, c)
    ensures forall s :: g.reach <= s < |x'| ==> x'[s] == 0.0
  {
    var all := goals + [g];
    var n := LastReach(goals);
    assert n <= g.reach && LastCovered(goals, c) <= g.need by {
      if goals != [] { assert all[|goals| - 1] == goals[|goals| - 1] && all[|goals|] == g; }
      else { assert all[0] == g; }
    }
    PlacedZeros(x, n, |x|);
    PlacedZeros(x, n, g.reach);
    PlacedBound(x, c, g.reach);
    PlacedZeros(x', g.reach, |x'|);
    forall i | 0 <= i < |all| ensures Placed(x', all[i].reach) >= Covered(all[i], c) {
      if i < |goals| { PlacedPointwise(x, x', goals[i].reach); }
    }
  }
}
