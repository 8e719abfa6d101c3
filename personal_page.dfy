/**
 * The browser's profile page (apps/web/src/app/calories/personal/page.tsx): its own copy
 * of the target estimator, the default profile, `toNumber`, and the change handlers, each
 * of which builds a new profile `{...p, field: value}`.
 *
 * `parseFloat` is not modelled: a handler receives `parsed`, which is `Some(n)` when
 * `parseFloat` of the input text gives a finite `n` and `None` otherwise. Handlers that
 * test the text against "" also receive the text.
 */
module PersonalPage {
  import opened Wrappers
  import opened JsMath
  import opened Profiles
  import opened Estimator

  // ---------------------------------------------------------------------------
  // The client's estimator

  /** The client's table: "very" is 1.9 here, where the server has 1.725. */
  const ClientPalTable: map<string, real> :=
    map["sedentary" := 1.2, "light" := 1.375, "moderate" := 1.55,
        "active" := 1.725, "very" := 1.9, "athlete" := 1.9]

  /** `PAL[level] || 1.55`: a missing or zero entry gives the default. */
  function ClientPal(level: string): (r: real)
    ensures r >= 1.2
    ensures level !in ActivityLevels ==> r == DefaultPal
  {
    assert ClientPalTable.Keys == ActivityLevels;
    if level in ClientPalTable && ClientPalTable[level] != 0.0 then ClientPalTable[level] else DefaultPal
  }

  function ClientTdee(p: Profile): real {
    Bmr(p) * ClientPal(p.activityLevel)
  }

  /** `computeTarget`: the same steps as the server after the table lookup. */
  function ClientComputeTarget(p: Profile): (r: int)
    ensures var x := PreRoundFromTdee(p.goal, p.rateLbsPerWeek, ClientTdee(p)); x - 0.5 < r as real <= x + 0.5
  {
    Round(PreRoundFromTdee(p.goal, p.rateLbsPerWeek, ClientTdee(p)))
  }

  /** The two estimators agree on every profile whose activity level is not "very",
      valid or not (the tables differ in no other key, and neither holds a zero). */
  lemma ClientAgreesWithServer(p: Profile)
    requires p.activityLevel != "very"
    ensures ClientPal(p.activityLevel) == ServerPal(p.activityLevel)
    ensures ClientComputeTarget(p) == ComputeTargetKcal(p)
  {
    PalTablesAgree(p.activityLevel);
    assert ClientTdee(p) == Tdee(p);
  }

  lemma PalTablesAgree(level: string)
    requires level != "very"
    ensures ClientPal(level) == ServerPal(level)
  {
    if level in ClientPalTable {
      assert level in {"sedentary", "light", "moderate", "active", "athlete"};
    } else {
      assert ClientPalTable.Keys == ServerPalTable.Keys;
    }
  }

  /** For "very" the client uses 1.9, the server's "athlete" multiplier. */
  lemma ClientVeryIsServerAthlete(p: Profile)
    requires p.activityLevel == "very"
    ensures ClientPal(p.activityLevel) == 1.9 != ServerPal(p.activityLevel)
    ensures ClientComputeTarget(p) == ComputeTargetKcal(p.(activityLevel := "athlete"))
  {
    var q := p.(activityLevel := "athlete");
    assert Bmr(q) == Bmr(p);
    assert ClientPal(p.activityLevel) == ServerPal(q.activityLevel) == 1.9;
    assert ClientTdee(p) == Tdee(q);
  }

  // ---------------------------------------------------------------------------
  // The default profile

  const Defaults: Profile :=
    Profile(75.0, Kg, 175.0, Cm, 25, Other, Recomp, 0.0, "moderate",
            None, None, None, None, None, None, None)

  /** The defaults: BMR 1557.75, TDEE 2414.5125, target 2415 on both sides. */
  lemma DefaultsTarget()
    ensures ValidProfile(Defaults)
    ensures Bmr(Defaults) == 1557.75
    ensures Tdee(Defaults) == ClientTdee(Defaults) == 2414.5125
    ensures ClientComputeTarget(Defaults) == ComputeTargetKcal(Defaults) == 2415
  {
    assert "moderate" in ActivityLevels;
    assert Bmr(Defaults) == 1557.75;
  }

  /** The defaults with activity "very": the client shows 2960 kcal, the server stores 2687. */
  lemma ClientServerDivergeOnVery()
    ensures ValidProfile(Defaults.(activityLevel := "very"))
    ensures ClientComputeTarget(Defaults.(activityLevel := "very")) == 2960
    ensures ComputeTargetKcal(Defaults.(activityLevel := "very")) == 2687
  {
    var p := Defaults.(activityLevel := "very");
    assert "very" in ActivityLevels;
    assert Bmr(p) == 1557.75;
    assert ClientTdee(p) == 2959.725;
    assert Tdee(p) == 2687.11875;
  }

  // ---------------------------------------------------------------------------
  // Input handling

  /** `toNumber(v, fallback)`: the parsed value when it is finite, else the fallback. */
  function ToNumber(parsed: Option<real>, fallback: real): (r: real)
    ensures parsed.Some? ==> r == parsed.value
    ensures parsed.None? ==> r == fallback
  {
    match parsed
    case Some(n) => n
    case None => fallback
  }

  /** Weight: not clamped; an unparsable entry keeps the previous value. */
  function WeightValueChanged(p: Profile, parsed: Option<real>): (r: Profile)
    ensures r == p.(weightValue := r.weightValue)
    ensures parsed.None? ==> r == p
    ensures parsed.Some? ==> r.weightValue == parsed.value
  {
    p.(weightValue := ToNumber(parsed, p.weightValue))
  }

  /** Height: not clamped; an unparsable entry keeps the previous value. */
  function HeightValueChanged(p: Profile, parsed: Option<real>): (r: Profile)
    ensures r == p.(heightValue := r.heightValue)
    ensures parsed.None? ==> r == p
    ensures parsed.Some? ==> r.heightValue == parsed.value
  {
    p.(heightValue := ToNumber(parsed, p.heightValue))
  }

  /** Age: rounded, then clamped into [10, 120]. */
  function AgeChanged(p: Profile, parsed: Option<real>): (r: Profile)
    ensures r == p.(age := r.age)
    ensures ValidAge(r.age)
    ensures parsed.None? && ValidAge(p.age) ==> r == p
    ensures parsed.Some? && 10.0 <= parsed.value < 120.5 ==> r.age == Round(parsed.value)
    ensures parsed.Some? && parsed.value < 10.0 ==> r.age == 10
    ensures parsed.Some? && parsed.value >= 120.5 ==> r.age == 120
  {
    var n := ToNumber(parsed, p.age as real);
    p.(age := ClampInt(10, 120, Round(n)))
  }

  /** Rate: clamped into [-2, 2]. */
  function RateChanged(p: Profile, parsed: Option<real>): (r: Profile)
    ensures r == p.(rateLbsPerWeek := r.rateLbsPerWeek)
    ensures ValidRate(r.rateLbsPerWeek)
    ensures parsed.None? && ValidRate(p.rateLbsPerWeek) ==> r == p
    ensures parsed.Some? && ValidRate(parsed.value) ==> r.rateLbsPerWeek == parsed.value
    ensures parsed.Some? && parsed.value > 2.0 ==> r.rateLbsPerWeek == 2.0
    ensures parsed.Some? && parsed.value < -2.0 ==> r.rateLbsPerWeek == -2.0
  {
    p.(rateLbsPerWeek := Clamp(-2.0, 2.0, ToNumber(parsed, p.rateLbsPerWeek)))
  }

  /** Body fat: absent for empty text, otherwise clamped into [0, 75]; an unparsable
      entry falls back to the previous value, or 0. */
  function BodyFatChanged(p: Profile, text: string, parsed: Option<real>): (r: Profile)
    ensures r == p.(bodyFatPercent := r.bodyFatPercent)
    ensures ValidBodyFat(r.bodyFatPercent)
    ensures text == "" <==> r.bodyFatPercent.None?
    ensures text != "" && parsed.Some? && 0.0 <= parsed.value <= 75.0 ==> r.bodyFatPercent == parsed
    ensures text != "" && parsed.Some? && parsed.value > 75.0 ==> r.bodyFatPercent == Some(75.0)
    ensures text != "" && parsed.Some? && parsed.value < 0.0 ==> r.bodyFatPercent == Some(0.0)
    ensures text != "" && parsed.None? && ValidBodyFat(p.bodyFatPercent) ==> r.bodyFatPercent == Some(p.bodyFatPercent.GetOr(0.0))
  {
    p.(bodyFatPercent :=
         if text != "" then Some(Clamp(0.0, 75.0, ToNumber(parsed, p.bodyFatPercent.GetOr(0.0)))) else None)
  }

  /** `value || undefined` for a free-text field. */
  function TextOrAbsent(text: string): (r: Option<string>)
    ensures r.None? <==> text == ""
    ensures r.Some? ==> r.value == text
  {
    if text != "" then Some(text) else None
  }

  function DietaryPreferenceChanged(p: Profile, text: string): (r: Profile)
    ensures r == p.(dietaryPreference := r.dietaryPreference)
    ensures r.dietaryPreference == TextOrAbsent(text)
  {
    p.(dietaryPreference := TextOrAbsent(text))
  }

  function AllergiesChanged(p: Profile, text: string): (r: Profile)
    ensures r == p.(allergies := r.allergies)
    ensures r.allergies == TextOrAbsent(text)
  {
    p.(allergies := TextOrAbsent(text))
  }

  /** Meals per day: absent for empty text, otherwise rounded and clamped into [1, 10];
      an unparsable entry falls back to the previous value, or 1. */
  function MealsPerDayChanged(p: Profile, text: string, parsed: Option<real>): (r: Profile)
    ensures r == p.(mealsPerDay := r.mealsPerDay)
    ensures ValidMealsPerDay(r.mealsPerDay)
    ensures text == "" <==> r.mealsPerDay.None?
    ensures text != "" && parsed.Some? && 1.0 <= parsed.value < 10.5 ==> r.mealsPerDay == Some(Round(parsed.value))
    ensures text != "" && parsed.Some? && parsed.value >= 10.5 ==> r.mealsPerDay == Some(10)
    ensures text != "" && parsed.Some? && parsed.value < 1.0 ==> r.mealsPerDay == Some(1)
    ensures text != "" && parsed.None? && ValidMealsPerDay(p.mealsPerDay) ==> r.mealsPerDay == Some(p.mealsPerDay.GetOr(1))
  {
    p.(mealsPerDay :=
         if text != "" then Some(ClampInt(1, 10, Round(ToNumber(parsed, p.mealsPerDay.GetOr(1) as real)))) else None)
  }

  /** Protein per kg: absent for empty text, otherwise clamped into [0, 3]. */
  function ProteinPerKgChanged(p: Profile, text: string, parsed: Option<real>): (r: Profile)
    ensures r == p.(proteinPerKg := r.proteinPerKg)
    ensures ValidProteinPerKg(r.proteinPerKg)
    ensures text == "" <==> r.proteinPerKg.None?
    ensures text != "" && parsed.Some? && 0.0 <= parsed.value <= 3.0 ==> r.proteinPerKg == parsed
    ensures text != "" && parsed.Some? && parsed.value > 3.0 ==> r.proteinPerKg == Some(3.0)
    ensures text != "" && parsed.Some? && parsed.value < 0.0 ==> r.proteinPerKg == Some(0.0)
    ensures text != "" && parsed.None? && ValidProteinPerKg(p.proteinPerKg) ==> r.proteinPerKg == Some(p.proteinPerKg.GetOr(0.0))
  {
    p.(proteinPerKg :=
         if text != "" then Some(Clamp(0.0, 3.0, ToNumber(parsed, p.proteinPerKg.GetOr(0.0)))) else None)
  }

  // The select elements: each stores the chosen option.

  function WeightUnitChanged(p: Profile, u: WeightUnit): (r: Profile)
    ensures r == p.(weightUnit := r.weightUnit) && r.weightUnit == u
  {
    p.(weightUnit := u)
  }

  function HeightUnitChanged(p: Profile, u: HeightUnit): (r: Profile)
    ensures r == p.(heightUnit := r.heightUnit) && r.heightUnit == u
  {
    p.(heightUnit := u)
  }

  function GenderChanged(p: Profile, g: Gender): (r: Profile)
    ensures r == p.(gender := r.gender) && r.gender == g
  {
    p.(gender := g)
  }

  function ActivityLevelChanged(p: Profile, level: string): (r: Profile)
    ensures r == p.(activityLevel := r.activityLevel) && r.activityLevel == level
  {
    p.(activityLevel := level)
  }

  function GoalChanged(p: Profile, g: Goal): (r: Profile)
    ensures r == p.(goal := r.goal) && r.goal == g
  {
    p.(goal := g)
  }

  /** The clamping handlers keep a profile the validator accepts acceptable. A select
      keeps it acceptable when the chosen activity is one the page offers (all six are).
      The weight and height handlers do not clamp: they keep it acceptable exactly when
      the number entered is positive or unparsable. */
  lemma HandlersPreserveValidity(p: Profile, parsed: Option<real>, text: string, level: string,
                                 wu: WeightUnit, hu: HeightUnit, g: Gender, goal: Goal)
    requires ValidProfile(p)
    ensures ValidProfile(AgeChanged(p, parsed))
    ensures ValidProfile(RateChanged(p, parsed))
    ensures ValidProfile(BodyFatChanged(p, text, parsed))
    ensures ValidProfile(MealsPerDayChanged(p, text, parsed))
    ensures ValidProfile(ProteinPerKgChanged(p, text, parsed))
    ensures ValidProfile(DietaryPreferenceChanged(p, text)) && ValidProfile(AllergiesChanged(p, text))
    ensures ValidProfile(WeightUnitChanged(p, wu)) && ValidProfile(HeightUnitChanged(p, hu))
    ensures ValidProfile(GenderChanged(p, g)) && ValidProfile(GoalChanged(p, goal))
    ensures ValidProfile(ActivityLevelChanged(p, level)) <==> level in ActivityLevels
    ensures ValidProfile(WeightValueChanged(p, parsed)) <==> (parsed.None? || parsed.value > 0.0)
    ensures ValidProfile(HeightValueChanged(p, parsed)) <==> (parsed.None? || parsed.value > 0.0)
  {
  }
}
