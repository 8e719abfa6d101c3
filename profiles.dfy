/**
 * The nutrition profile record as the API receives it, the ranges its validator
 * enforces (apps/api/src/index.ts, `profileSchema`), and what the save endpoints
 * store beside it.
 */
module Profiles {
  import opened Wrappers

  datatype WeightUnit = Kg | Lbs
  datatype HeightUnit = Cm | In
  datatype Gender = Male | Female | Other
  datatype Goal = Recomp | Lose | Gain

  /** Missing optional fields (`undefined` or `null`) are `None`. `age` and the other
      integer fields have an integer type, which is the validator's `.int()` check. */
  datatype Profile = Profile(
    weightValue: real,
    weightUnit: WeightUnit,
    heightValue: real,
    heightUnit: HeightUnit,
    age: int,
    gender: Gender,
    goal: Goal,
    rateLbsPerWeek: real,
    activityLevel: string,
    bodyFatPercent: Option<real>,
    dietaryPreference: Option<string>,
    allergies: Option<string>,
    mealsPerDay: Option<int>,
    proteinPerKg: Option<real>,
    customTargetKcal: Option<int>,
    lastTargetKcal: Option<int>)

  /** The six activity levels the validator's enum admits. */
  const ActivityLevels: set<string> := {"sedentary", "light", "moderate", "active", "very", "athlete"}

  predicate ValidAge(age: int) { 10 <= age <= 120 }
  predicate ValidRate(rate: real) { -2.0 <= rate <= 2.0 }
  predicate ValidBodyFat(bf: Option<real>) { bf.Some? ==> 0.0 <= bf.value <= 75.0 }
  predicate ValidMealsPerDay(m: Option<int>) { m.Some? ==> 1 <= m.value <= 10 }
  predicate ValidProteinPerKg(q: Option<real>) { q.Some? ==> 0.0 <= q.value <= 3.0 }
  predicate ValidKcal(k: Option<int>) { k.Some? ==> k.value > 0 }

  /** Every range `profileSchema` checks. */
  predicate ValidProfile(p: Profile) {
    && p.weightValue > 0.0
    && p.heightValue > 0.0
    && ValidAge(p.age)
    && ValidRate(p.rateLbsPerWeek)
    && p.activityLevel in ActivityLevels
    && ValidBodyFat(p.bodyFatPercent)
    && ValidMealsPerDay(p.mealsPerDay)
    && ValidProteinPerKg(p.proteinPerKg)
    && ValidKcal(p.customTargetKcal)
    && ValidKcal(p.lastTargetKcal)
  }

  /** A stored profile: the submitted fields, with `lastTargetKcal` overwritten, and the computed target. */
  datatype SavedProfile = SavedProfile(data: Profile, computedTargetKcal: int)
}
