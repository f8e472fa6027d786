/**
 Persisted JSON values and the grid-charge commitment of ems/control/charge_commitment.py.

 Strings are grouped by what the source's parsers make of them: an ISO instant (with or without a
 zone), an ISO date, a string `int()` and `float()` accept, or any other text. A date is read as an
 instant too, its midnight without a zone; so may some digit strings be.
*/
module ChargeCommitments {
  import opened Prelude

  datatype Instant = Aware(t: int) | Naive(t: int)

  datatype Json =
    | Null
    | Bool(b: bool)
    | Num(r: real)
    | Text(s: string)
    | Digits(n: int, naive: Option<int>, date: Option<int>)
    | Stamp(at: Instant)
    | Date(day: int)
    | Items(nonEmpty: bool)
    | Dict(fields: map<string, Json>)

  predicate Falsy(j: Json) {
    match j
    case Null => true
    case Bool(b) => !b
    case Num(r) => r == 0.0
    case Text(s) => s == ""
    case Digits(_, _, _) => false
    case Stamp(_) => false
    case Date(_) => false
    case Items(nonEmpty) => !nonEmpty
    case Dict(m) => m == map[]
  }

  /** `raw.get(key)` */
  function Get(m: map<string, Json>, key: string): Json {
    if key in m then m[key] else Null
  }

  /** `float(raw)`; `None` is the ValueError or TypeError. */
  function ToFloat(j: Json): Option<real> {
    match j
    case Bool(b) => Some(if b then 1.0 else 0.0)
    case Num(r) => Some(r)
    case Digits(n, _, _) => Some(n as real)
    case _ => None
  }

  const GRID_CHARGE := "grid_charge_to_target"
  const DEFAULT_REASON := "grid charge commitment"

  datatype ChargeCommitment = ChargeCommitment(
    targetSoc: real, deadline: Instant, reason: string, appliedAt: Instant, powerW: Option<real>, intent: string)

  function ToDict(c: ChargeCommitment): Json {
    Dict(map["intent" := Text(c.intent), "target_soc" := Num(c.targetSoc), "deadline" := Stamp(c.deadline),
             "reason" := Text(c.reason), "applied_at" := Stamp(c.appliedAt),
             "power_w" := if c.powerW.Some? then Num(c.powerW.value) else Null])
  }

  /** `str(raw)` of the values that matter here; other values have no reason text of their own. */
  function Str(j: Json): string {
    if j.Text? then j.s else "(not text)"
  }

  function FromDict(raw: Json): Option<ChargeCommitment> {
    if !raw.Dict? || raw.fields == map[] then None
    else
      var m := raw.fields;
      var intent := if Falsy(Get(m, "intent")) then GRID_CHARGE else Str(Get(m, "intent"));
      var target := if "target_soc" in m then ToFloat(m["target_soc"]) else None;
      var deadline, appliedAt := Get(m, "deadline"), Get(m, "applied_at");
      var reason := if Falsy(Get(m, "reason")) then DEFAULT_REASON else Str(Get(m, "reason"));
      var power := if Get(m, "power_w").Null? then Some(None) else FloatOrFail(Get(m, "power_w"));
      if intent != GRID_CHARGE || target.None? || !deadline.Stamp? || !appliedAt.Stamp? || power.None? then None
      else if deadline.at.Naive? || appliedAt.at.Naive? then None
      else if !(0.0 < target.value <= 100.0) then None
      else Some(ChargeCommitment(target.value, deadline.at, reason, appliedAt.at, power.value, intent))
  }

  function FloatOrFail(j: Json): Option<Option<real>> {
    var f := ToFloat(j);
    if f.None? then None else Some(f)
  }

  /** Exactly these commitments come back from storage unchanged. */
  predicate Storable(c: ChargeCommitment) {
    c.intent == GRID_CHARGE && c.reason != "" && c.deadline.Aware? && c.appliedAt.Aware? && 0.0 < c.targetSoc <= 100.0
  }

  lemma RoundTripIffStorable(c: ChargeCommitment)
    ensures FromDict(ToDict(c)) == Some(c) <==> Storable(c)
  {
    var m := ToDict(c).fields;
    assert "target_soc" in m && m["target_soc"] == Num(c.targetSoc);
    assert m["power_w"] == if c.powerW.Some? then Num(c.powerW.value) else Null;
  }

  /** Whatever was stored, what is read back is storable, so a second restart changes nothing more. */
  lemma RestoredIsStorable(raw: Json)
    ensures FromDict(raw).Some? ==> Storable(FromDict(raw).value)
    ensures FromDict(raw).Some? ==> FromDict(ToDict(FromDict(raw).value)) == FromDict(raw)
  {
    if FromDict(raw).Some? {
      RoundTripIffStorable(FromDict(raw).value);
    }
  }

  datatype Action = NoCommitment | Abort | Hold | Resume

  datatype Quality = Unsafe | PriceFallback | OtherQuality

  function Evaluate(c: Option<ChargeCommitment>, now: int, soc: Option<real>, dryRun: bool, armed: bool,
                    quality: Quality, graceElapsed: bool): Action {
    if c.None? then NoCommitment
    else if now >= c.value.deadline.t then Abort
    else if soc.Some? && soc.value >= c.value.targetSoc then Abort
    else if dryRun then Abort
    else if !armed then Abort
    else if quality != OtherQuality then Abort
    else if !graceElapsed then Hold
    else Resume
  }

  /** The contract may still be honoured: not expired, target not reached, live, armed, and on data good enough to charge by. */
  predicate Honourable(c: ChargeCommitment, now: int, soc: Option<real>, dryRun: bool, armed: bool, quality: Quality) {
    && now < c.deadline.t && (soc.Some? ==> soc.value < c.targetSoc)
    && !dryRun && armed && !quality.Unsafe? && !quality.PriceFallback?
  }

  /** A contract resumes exactly when it may be honoured and the startup grace is over, waits for the grace, and is dropped otherwise. */
  lemma VerdictIff(c: Option<ChargeCommitment>, now: int, soc: Option<real>, dryRun: bool, armed: bool, quality: Quality, grace: bool)
    ensures var v := Evaluate(c, now, soc, dryRun, armed, quality, grace);
            && (v.NoCommitment? <==> c.None?)
            && (v.Resume? <==> c.Some? && Honourable(c.value, now, soc, dryRun, armed, quality) && grace)
            && (v.Hold? <==> c.Some? && Honourable(c.value, now, soc, dryRun, armed, quality) && !grace)
  {
  }

  /** What is read back is what was written: target and power as numbers, both instants, and nothing made up but a default reason. */
  lemma RestoredFields(raw: Json)
    requires FromDict(raw).Some?
    ensures raw.Dict? && "target_soc" in raw.fields
    ensures var c, m := FromDict(raw).value, raw.fields;
            && ToFloat(m["target_soc"]) == Some(c.targetSoc)
            && Get(m, "deadline") == Stamp(c.deadline) && Get(m, "applied_at") == Stamp(c.appliedAt)
            && (c.powerW.None? <==> Get(m, "power_w") == Null)
            && (c.powerW.Some? ==> ToFloat(Get(m, "power_w")) == c.powerW)
            && (Get(m, "reason").Text? && Get(m, "reason").s != "" ==> c.reason == Get(m, "reason").s)
  {
  }

  /** A storable contract gets the same verdict after a restart as before it, under all circumstances. */
  lemma VerdictSurvivesRestart(c: ChargeCommitment, now: int, soc: Option<real>, dryRun: bool, armed: bool,
                               quality: Quality, graceElapsed: bool)
    requires c.intent == GRID_CHARGE && c.deadline.Aware? && c.appliedAt.Aware? && 0.0 < c.targetSoc <= 100.0
    ensures Evaluate(FromDict(ToDict(c)), now, soc, dryRun, armed, quality, graceElapsed)
         == Evaluate(Some(c), now, soc, dryRun, armed, quality, graceElapsed)
  {
    var c' := c.(reason := if c.reason == "" then DEFAULT_REASON else c.reason);
    RoundTripIffStorable(c');
    var m, m' := ToDict(c).fields, ToDict(c').fields;
    assert m["power_w"] == m'["power_w"] && m["target_soc"] == m'["target_soc"];
  }
}
