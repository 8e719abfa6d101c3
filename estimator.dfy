/**
 * The server's daily energy-target estimator, `computeTargetKcal`
 * (apps/api/src/index.ts): unit conversion, basal metabolic rate by Katch-McArdle
 * or Mifflin-St Jeor, an activity multiplier, a goal-signed weekly adjustment,
 * a clamp to [-25%, +15%] of the daily expenditure, and rounding. Also the save
 * endpoints' `lastTargetKcal = customTargetKcal ?? target`.
 *
 * The steps after the activity-multiplier lookup are shared with the browser's copy
 * (module PersonalPage), which differs only in its lookup table.
 */
module Estimator {
  import opened Wrappers
  import opened JsMath
  import opened Profiles

  const LbToKg: real := 0.45359237
  const InToCm: real := 2.54
  const KcalPerLb: real := 3500.0

  function WeightKg(p: Profile): real {
    if p.weightUnit == Kg then p.weightValue else p.weightValue * LbToKg
  }

  function HeightCm(p: Profile): real {
    if p.heightUnit == Cm then p.heightValue else p.heightValue * InToCm
  }

  /** "other" shares the female offset: `computeTargetKcal` has only a two-way branch. */
  function SexCoeff(g: Gender): real {
    if g == Male then 5.0 else -161.0
  }

  /** Basal metabolic rate: Katch-McArdle on lean mass when the body-fat percentage
      is a number (370 + 21.6 kcal per kilogram of lean mass), Mifflin-St Jeor otherwise. */
  function Bmr(p: Profile): (r: real)
    ensures p.bodyFatPercent.Some? ==> r == 370.0 + 21.6 * WeightKg(p) * (1.0 - p.bodyFatPercent.value / 100.0)
    ensures p.bodyFatPercent.Some? && p.weightUnit == Kg ==>
              r == 370.0 + 21.6 * p.weightValue * (1.0 - p.bodyFatPercent.value / 100.0)
    ensures p.bodyFatPercent.None? && p.weightUnit == Kg && p.heightUnit == Cm ==>
              r == 10.0 * p.weightValue + 6.25 * p.heightValue - 5.0 * (p.age as real) + SexCoeff(p.gender)
  {
    match p.bodyFatPercent
    case Some(bf) =>
      var lbmKg := WeightKg(p) * (1.0 - bf / 100.0);
      370.0 + 21.6 * lbmKg
    case None =>
      10.0 * WeightKg(p) + 6.25 * HeightCm(p) - 5.0 * (p.age as real) + SexCoeff(p.gender)
  }

  /** The server's activity-multiplier table; "active" and "very" share 1.725. */
  const ServerPalTable: map<string, real> :=
    map["sedentary" := 1.2, "light" := 1.375, "moderate" := 1.55,
        "active" := 1.725, "very" := 1.725, "athlete" := 1.9]

  const DefaultPal: real := 1.55

  /** `PAL[level] ?? 1.55`. */
  function ServerPal(level: string): (r: real)
    ensures r >= 1.2
  {
    if level in ServerPalTable then ServerPalTable[level] else DefaultPal
  }

  /** Signed weekly change in pounds: the sign comes from the goal, never from the rate. */
  function WeeklyDeltaLb(goal: Goal, rate: real): real {
    if goal == Recomp then 0.0 else if goal == Gain then Abs(rate) else -Abs(rate)
  }

  function DailyAdjust(weeklyDeltaLb: real): real {
    weeklyDeltaLb * KcalPerLb / 7.0
  }

  /** `Math.max(TDEE - maxDeficit, Math.min(TDEE + maxSurplus, TDEE + dailyAdjust))`. */
  function ClampedTarget(tdee: real, dailyAdjust: real): real {
    var maxDeficit := 0.25 * tdee;
    var maxSurplus := 0.15 * tdee;
    Clamp(tdee - maxDeficit, tdee + maxSurplus, tdee + dailyAdjust)
  }

  /** The target before rounding, given the daily expenditure. */
  function PreRoundFromTdee(goal: Goal, rate: real, tdee: real): real {
    ClampedTarget(tdee, DailyAdjust(WeeklyDeltaLb(goal, rate)))
  }

  /** Total daily energy expenditure with the server's table. */
  function Tdee(p: Profile): real {
    Bmr(p) * ServerPal(p.activityLevel)
  }

  function PreRoundTarget(p: Profile): real {
    PreRoundFromTdee(p.goal, p.rateLbsPerWeek, Tdee(p))
  }

  /** `computeTargetKcal`: the clamped target rounded half up. */
  function ComputeTargetKcal(p: Profile): (r: int)
    ensures PreRoundTarget(p) - 0.5 < r as real <= PreRoundTarget(p) + 0.5
  {
    Round(PreRoundTarget(p))
  }

  /** The save endpoints (POST, PUT by id, PUT upsert): the payload is validated, and a
      valid one is stored with the computed target and `lastTargetKcal = customTargetKcal ?? target`;
      an invalid one is refused (HTTP 400). */
  function SaveProfile(p: Profile): (r: Option<SavedProfile>)
    ensures r.Some? <==> ValidProfile(p)
    ensures r.Some? ==> r.value.computedTargetKcal == ComputeTargetKcal(p)
    ensures r.Some? ==> r.value.data == p.(lastTargetKcal := r.value.data.lastTargetKcal)
    ensures r.Some? && p.customTargetKcal.Some? ==> r.value.data.lastTargetKcal == p.customTargetKcal
    ensures r.Some? && p.customTargetKcal.None? ==> r.value.data.lastTargetKcal == Some(ComputeTargetKcal(p))
  {
    if !ValidProfile(p) then None
    else
      var target := ComputeTargetKcal(p);
      Some(SavedProfile(p.(lastTargetKcal := Some(p.customTargetKcal.GetOr(target))), target))
  }

  // ---------------------------------------------------------------------------
  // Properties

  /** The profile with its measurements converted to kilograms and centimetres. */
  function Metric(p: Profile): (m: Profile)
    ensures m.weightUnit == Kg && m.heightUnit == Cm
  {
    p.(weightValue := WeightKg(p), weightUnit := Kg, heightValue := HeightCm(p), heightUnit := Cm)
  }

  /** Kilograms and centimetres pass through; pounds scale by 0.45359237 and inches by 2.54;
      so the target depends on the measurements only through their metric values. */
  lemma UnitConversion(p: Profile)
    ensures p.weightUnit == Kg ==> WeightKg(p) == p.weightValue
    ensures p.weightUnit == Lbs ==> WeightKg(p) == p.weightValue * 0.45359237
    ensures p.heightUnit == Cm ==> HeightCm(p) == p.heightValue
    ensures p.heightUnit == In ==> HeightCm(p) == p.heightValue * 2.54
    ensures ComputeTargetKcal(Metric(p)) == ComputeTargetKcal(p)
  {
    var m := Metric(p);
    assert WeightKg(m) == WeightKg(p) && HeightCm(m) == HeightCm(p);
    assert Bmr(m) == Bmr(p);
    assert Tdee(m) == Tdee(p);
    assert PreRoundTarget(m) == PreRoundTarget(p);
  }

  /** With a body-fat percentage, neither BMR nor the target depends on height, age or gender. */
  lemma KatchMcArdleIgnoresHeightAgeGender(p: Profile, q: Profile)
    requires p.bodyFatPercent.Some?
    requires q == p.(heightValue := q.heightValue, heightUnit := q.heightUnit, age := q.age, gender := q.gender)
    ensures Bmr(q) == Bmr(p)
    ensures ComputeTargetKcal(q) == ComputeTargetKcal(p)
  {
    assert WeightKg(q) == WeightKg(p) && q.bodyFatPercent == p.bodyFatPercent;
    assert Bmr(q) == Bmr(p);
    assert Tdee(q) == Tdee(p);
    assert PreRoundTarget(q) == PreRoundTarget(p);
  }

  /** Without a body-fat percentage, "male" adds 166 kcal over "female", and "other" is
      treated exactly as "female". */
  lemma MifflinSexOffsets(p: Profile)
    requires p.bodyFatPercent.None?
    ensures Bmr(p.(gender := Male)) == Bmr(p.(gender := Female)) + 166.0
    ensures Bmr(p.(gender := Other)) == Bmr(p.(gender := Female))
  {
  }

  /** The activity table: six fixed multipliers, "active" and "very" both 1.725,
      and every other key 1.55. */
  lemma ServerPalValues(level: string)
    ensures ServerPal("sedentary") == 1.2 && ServerPal("light") == 1.375
    ensures ServerPal("moderate") == 1.55 && ServerPal("athlete") == 1.9
    ensures ServerPal("active") == ServerPal("very") == 1.725
    ensures level !in ActivityLevels ==> ServerPal(level) == 1.55
  {
    assert ServerPalTable.Keys == ActivityLevels;
  }

  /** The weekly delta is 0 for recomp, +|rate| for gain and -|rate| for lose,
      whatever the sign of the rate field. */
  lemma WeeklyDeltaSign(goal: Goal, rate: real)
    ensures goal == Recomp ==> WeeklyDeltaLb(goal, rate) == 0.0
    ensures goal == Gain ==> WeeklyDeltaLb(goal, rate) >= 0.0 && (WeeklyDeltaLb(goal, rate) == rate || WeeklyDeltaLb(goal, rate) == -rate)
    ensures goal == Lose ==> WeeklyDeltaLb(goal, rate) <= 0.0 && (WeeklyDeltaLb(goal, rate) == rate || WeeklyDeltaLb(goal, rate) == -rate)
    ensures WeeklyDeltaLb(goal, -rate) == WeeklyDeltaLb(goal, rate)
  {
  }

  /** With a non-negative expenditure, the target before rounding lies in
      [0.75 * TDEE, 1.15 * TDEE], and the rounded target within half a kcal of that range. */
  lemma ClampBounds(p: Profile)
    requires Tdee(p) >= 0.0
    ensures 0.75 * Tdee(p) <= PreRoundTarget(p) <= 1.15 * Tdee(p)
    ensures 0.75 * Tdee(p) - 0.5 < ComputeTargetKcal(p) as real <= 1.15 * Tdee(p) + 0.5
  {
  }

  /** Goal recomp with a non-negative expenditure yields round(TDEE). */
  lemma RecompIsRoundedTdee(p: Profile)
    requires p.goal == Recomp && Tdee(p) >= 0.0
    ensures ComputeTargetKcal(p) == Round(Tdee(p))
  {
  }

  /** A requested change inside the clamp band is applied in full: the pre-rounding target
      is TDEE + 500 * delta whenever that lies in [0.75 * TDEE, 1.15 * TDEE]. */
  lemma AdjustmentInsideBand(p: Profile)
    requires 0.75 * Tdee(p) <= Tdee(p) + WeeklyDeltaLb(p.goal, p.rateLbsPerWeek) * 500.0 <= 1.15 * Tdee(p)
    ensures PreRoundTarget(p) == Tdee(p) + WeeklyDeltaLb(p.goal, p.rateLbsPerWeek) * 500.0
  {
  }

  /** All else fixed, a larger |rate| never lowers the target for gain and never raises it
      for lose. This holds for every expenditure, because the clamp is monotone in its
      argument even when its bounds are inverted. */
  lemma RateMonotone(p: Profile, rate1: real, rate2: real)
    requires Abs(rate1) <= Abs(rate2)
    ensures p.goal == Gain ==>
      ComputeTargetKcal(p.(rateLbsPerWeek := rate1)) <= ComputeTargetKcal(p.(rateLbsPerWeek := rate2))
    ensures p.goal == Lose ==>
      ComputeTargetKcal(p.(rateLbsPerWeek := rate1)) >= ComputeTargetKcal(p.(rateLbsPerWeek := rate2))
  {
    var p1, p2 := p.(rateLbsPerWeek := rate1), p.(rateLbsPerWeek := rate2);
    assert Bmr(p1) == Bmr(p) && Bmr(p2) == Bmr(p);
    var t := Tdee(p);
    assert Tdee(p1) == t && Tdee(p2) == t;
    var x1, x2 := PreRoundFromTdee(p.goal, rate1, t), PreRoundFromTdee(p.goal, rate2, t);
    if p.goal == Gain {
      PreRoundRateMonotone(p.goal, t, rate1, rate2);
      RoundMonotone(x1, x2);
    } else if p.goal == Lose {
      PreRoundRateMonotone(p.goal, t, rate1, rate2);
      RoundMonotone(x2, x1);
    }
  }

  lemma PreRoundRateMonotone(goal: Goal, t: real, rate1: real, rate2: real)
    requires Abs(rate1) <= Abs(rate2)
    ensures goal == Gain ==> PreRoundFromTdee(goal, rate1, t) <= PreRoundFromTdee(goal, rate2, t)
    ensures goal == Lose ==> PreRoundFromTdee(goal, rate2, t) <= PreRoundFromTdee(goal, rate1, t)
  {
    var a1 := DailyAdjust(WeeklyDeltaLb(goal, rate1));
    var a2 := DailyAdjust(WeeklyDeltaLb(goal, rate2));
    if goal == Gain {
      ClampMonotone(t - 0.25 * t, t + 0.15 * t, t + a1, t + a2);
    } else if goal == Lose {
      ClampMonotone(t - 0.25 * t, t + 0.15 * t, t + a2, t + a1);
    }
  }

  /** With a body-fat percentage, a valid profile always has a positive expenditure
      (lean mass is at least a quarter of the weight), so the clamp bounds hold for it. */
  lemma KatchMcArdleExpenditurePositive(p: Profile)
    requires ValidProfile(p) && p.bodyFatPercent.Some?
    ensures Bmr(p) > 370.0
    ensures Tdee(p) > 0.0
  {
    var bf := p.bodyFatPercent.value;
    assert WeightKg(p) > 0.0;
    assert 1.0 - bf / 100.0 >= 0.25;
    assert WeightKg(p) * (1.0 - bf / 100.0) > 0.0;
  }

  /** With a negative expenditure the clamp bounds cross (0.75 * TDEE > 1.15 * TDEE) and the
      result is 0.75 * TDEE whatever the goal and rate. */
  lemma NegativeExpenditureIgnoresGoal(p: Profile)
    requires Tdee(p) < 0.0
    ensures PreRoundTarget(p) == 0.75 * Tdee(p)
    ensures PreRoundTarget(p) > 1.15 * Tdee(p)
  {
  }

  /** A profile the validator accepts whose Mifflin-St Jeor expenditure is negative: 1 kg,
      1 cm, age 120, female, sedentary. Its target is -670 kcal, which the validator's own
      `lastTargetKcal: positive()` rule would then refuse when the stored profile is
      submitted again. */
  lemma ValidProfileWithNegativeTarget()
    ensures var p := Profile(1.0, Kg, 1.0, Cm, 120, Female, Lose, 2.0, "sedentary",
                             None, None, None, None, None, None, None);
            && ValidProfile(p)
            && Bmr(p) == -744.75
            && Tdee(p) < 0.0
            && ComputeTargetKcal(p) == -670
            && SaveProfile(p).Some?
            && !ValidKcal(SaveProfile(p).value.data.lastTargetKcal)
  {
    var p := Profile(1.0, Kg, 1.0, Cm, 120, Female, Lose, 2.0, "sedentary",
                     None, None, None, None, None, None, None);
    assert "sedentary" in ActivityLevels;
    assert Bmr(p) == -744.75;
    assert Tdee(p) == -893.7;
    assert PreRoundTarget(p) == -670.275;
  }

  /** The same profile with goal recomposition still gets −670, where round(TDEE) is −894. */
  lemma NegativeRecompMissesRoundedTdee()
    ensures var p := Profile(1.0, Kg, 1.0, Cm, 120, Female, Recomp, 2.0, "sedentary",
                             None, None, None, None, None, None, None);
            && ValidProfile(p)
            && ComputeTargetKcal(p) == -670
            && Round(Tdee(p)) == -894
  {
    var p := Profile(1.0, Kg, 1.0, Cm, 120, Female, Recomp, 2.0, "sedentary",
                     None, None, None, None, None, None, None);
    assert "sedentary" in ActivityLevels;
    assert Bmr(p) == -744.75;
    assert Tdee(p) == -893.7;
    assert PreRoundTarget(p) == -670.275;
  }
}
