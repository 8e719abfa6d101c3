# Calorie-target estimator and nutrition pages, modelled in Dafny

This project models the arithmetic and record-normalising core of a fitness and nutrition
tracker. The tracker is an Express API with a Next.js client. The model covers:

- **The daily energy target.** The server's `computeTargetKcal` does these steps:
  - converts units (lbs to kg, in to cm);
  - computes a basal metabolic rate, by Katch–McArdle when a body-fat percentage is given and by Mifflin–St Jeor otherwise;
  - multiplies by an activity factor (PAL) from a table, with 1.55 as the default;
  - adds a weekly weight change whose sign comes from the goal, at 3500 kcal per pound, divided by 7;
  - clamps to [75 %, 115 %] of the daily expenditure (TDEE);
  - rounds with `Math.round`.

  The browser's copy, `computeTarget`, uses a table that differs in one entry ("very" is 1.9 there, 1.725 on the server).
- **The profile validator's ranges** (`profileSchema`), as the predicate `Profiles.ValidProfile`.
- **The save endpoints.** They store `computedTargetKcal` and `lastTargetKcal = customTargetKcal ?? target`.
- **The exercise-search normalisation.** This is `buildExerciseId` (trim, lower-case, drop empty parts, join with ':'), plus the field fallback chains.
- **The nutrition-search normalisation.** It covers:
  - calories derived at 4/4/9 kcal per gram when missing;
  - a 100 g default serving;
  - an id of the form `name-index`.
- **The diary POST validator.**
- **The profile page's `defaults`, `toNumber` and change handlers.** Each handler replaces one field, and several clamp into the validator's range.
- **The meal-plan page.** It covers:
  - the `totals` fold;
  - the per-meal subtotals;
  - `remaining`;
  - `removeEntry`;
  - the `addFood` payload;
  - the target read from the stored profile.

Numbers are exact reals. `Math.round(x)` is `Floor(x + 1/2)`. `parseFloat`/`Number.isFinite` are abstract: a handler receives `Some(n)` for a finite parse and `None` otherwise. Missing values are read per module:

- An upstream exercise field that is `undefined` or `null` is `None`, as `??` treats both alike.
- An upstream nutrition number is what `num` makes of it: `Some(n)` when `Number(x)` is finite, `None` otherwise. So a `null` there is `Some(0)`.
- A diary macro is `Diary.JsonNumber`: the key left out, the key sent as `null`, or a number. The validator accepts the first and the last and refuses `null`.

Modules: `Wrappers` (Option), `JsMath`, `JsText` (the JavaScript built-ins the code uses), `Profiles`, `Estimator`, `PersonalPage`, `ExerciseSearch`, `NutritionSearch`, `Diary`, `MealPlan`.

Two facts about the code shape what the model can promise:

- The band [0.75·TDEE, 1.15·TDEE] holds only when TDEE ≥ 0. The validator admits profiles with a negative Mifflin–St Jeor expenditure, and there the clamp bounds cross. `Estimator.ValidProfileWithNegativeTarget` exhibits one: 1 kg, 1 cm, age 120, female, target −670. For such a profile `Estimator.NegativeExpenditureIgnoresGoal` gives `0.75·TDEE` whatever the goal, so recomposition need not give `round(TDEE)` either: `Estimator.NegativeRecompMissesRoundedTdee` shows the same profile with goal recomp getting −670, where round(TDEE) = round(−893.7) = −894. The band lemmas therefore require `TDEE ≥ 0`. `Estimator.KatchMcArdleExpenditurePositive` shows that this holds whenever a body-fat percentage is given.
- The server and the browser each compute the target, and they disagree on "very" (`PersonalPage.ClientServerDivergeOnVery`).

## Model

| member | source | states |
|---|---|---|
| Profiles.ValidProfile | apps/api/src/index.ts:318-342 | the ranges the profile validator enforces: positive weight and height, integer age in [10,120], rate in [-2,2], one of six activity levels, body fat in [0,75], meals per day in [1,10], protein per kg in [0,3], positive custom and last targets when present |
| JsMath.Abs | apps/api/src/index.ts:372-374 | `Math.abs` is non-negative and equal to x or -x |
| JsMath.Round | apps/api/src/index.ts:383 | `Math.round` returns the integer within half a unit of x, halves going up |
| JsMath.RoundMonotone | apps/api/src/index.ts:383 | rounding is monotone |
| JsMath.RoundOfInteger | apps/api/src/index.ts:383 | rounding an integer gives it back |
| JsMath.Clamp | apps/api/src/index.ts:379-382 | `Math.max(lo, Math.min(hi, x))` lies in [lo,hi] when lo ≤ hi, is x inside the range, lo below it and hi above it, and is lo when the bounds cross |
| JsMath.ClampMonotone | apps/api/src/index.ts:379-382 | the clamp is monotone in x, whatever the order of the bounds |
| JsMath.ClampInt | apps/web/src/app/calories/personal/page.tsx:140 | the integer clamp lies in [lo,hi], keeps in-range values, gives lo below the range and hi above it |
| Estimator.ServerPal | apps/api/src/index.ts:348-368 | `PAL[level] ?? 1.55` is at least 1.2 |
| Estimator.ServerPalValues | apps/api/src/index.ts:348-355 | the six table values; "active" and "very" both 1.725; every other key 1.55 (prototype keys aside, see Left out) |
| Estimator.UnitConversion | apps/api/src/index.ts:356-359 | kg and cm pass through, lbs × 0.45359237 and in × 2.54, and the target depends on the measurements only through their metric values |
| Estimator.Bmr | apps/api/src/index.ts:360-367 | with a body-fat percentage, BMR = 370 + 21.6 · weightKg · (1 − bf/100); without one, in kg and cm, BMR = 10·weight + 6.25·height − 5·age + 5 for male and − 161 otherwise |
| Estimator.KatchMcArdleIgnoresHeightAgeGender | apps/api/src/index.ts:361-363 | with a body-fat percentage, BMR and target do not depend on height, age or gender |
| Estimator.MifflinSexOffsets | apps/api/src/index.ts:364-366 | without body fat, male is 166 kcal above female, and "other" equals female |
| Estimator.WeeklyDeltaSign | apps/api/src/index.ts:369-374 | the weekly delta is 0 for recomp, +abs(rate) for gain and −abs(rate) for lose, and flipping the rate's sign changes nothing |
| Estimator.ComputeTargetKcal | apps/api/src/index.ts:344-384 | the result is the clamped target rounded: within half a kcal of it |
| Estimator.ClampBounds | apps/api/src/index.ts:376-382 | when TDEE ≥ 0, the pre-rounding target lies in [0.75·TDEE, 1.15·TDEE] and the result lies within half a kcal of that band |
| Estimator.RecompIsRoundedTdee | apps/api/src/index.ts:369-383 | recomp with TDEE ≥ 0 gives round(TDEE) |
| Estimator.AdjustmentInsideBand | apps/api/src/index.ts:375-382 | a requested change that stays inside the band is applied in full, at 500 kcal/day per lb/week |
| Estimator.PreRoundRateMonotone | apps/api/src/index.ts:369-382 | before rounding, a larger abs(rate) raises the gain target and lowers the lose target |
| Estimator.RateMonotone | apps/api/src/index.ts:369-383 | with all else fixed, a larger abs(rate) never lowers the gain target and never raises the lose target, for any TDEE |
| Estimator.KatchMcArdleExpenditurePositive | apps/api/src/index.ts:361-368 | a valid profile with a body-fat percentage has BMR > 370 and TDEE > 0 |
| Estimator.NegativeExpenditureIgnoresGoal | apps/api/src/index.ts:376-382 | with TDEE < 0 the bounds cross and the pre-rounding target is 0.75·TDEE |
| Estimator.NegativeRecompMissesRoundedTdee | apps/api/src/index.ts:364-383 | on a valid profile with negative expenditure, recomposition gives −670 while round(TDEE) is −894 |
| Estimator.ValidProfileWithNegativeTarget | apps/api/src/index.ts:318-384 | a valid profile with target −670, whose stored `lastTargetKcal` breaks the validator's own positive() rule |
| Estimator.SaveProfile | apps/api/src/index.ts:393-460 | the save endpoints accept exactly the valid profiles; they store the computed target, the fields unchanged except `lastTargetKcal`, and `lastTargetKcal = customTargetKcal ?? target` |
| PersonalPage.ClientComputeTarget | apps/web/src/app/calories/personal/page.tsx:72-108 | the browser's target is the clamped target under its own table, rounded |
| PersonalPage.ClientAgreesWithServer | apps/web/src/app/calories/personal/page.tsx:76-105 | on every profile whose level is not "very", the browser and the server multipliers and targets agree |
| PersonalPage.ClientPal | apps/web/src/app/calories/personal/page.tsx:97 | `PAL[level] \|\| 1.55` is at least 1.2, and 1.55 for every level outside the six |
| PersonalPage.PalTablesAgree | apps/web/src/app/calories/personal/page.tsx:76-97 | the browser's lookup with its falsy-value default of 1.55 equals the server's lookup for every level except "very" |
| PersonalPage.ClientVeryIsServerAthlete | apps/web/src/app/calories/personal/page.tsx:81 | for "very" the browser uses 1.9, the server's "athlete" factor, so it computes the server's athlete target |
| PersonalPage.DefaultsTarget | apps/web/src/app/calories/personal/page.tsx:23-33 | the defaults are valid and give BMR 1557.75, TDEE 2414.5125 and target 2415 on both sides |
| PersonalPage.ClientServerDivergeOnVery | apps/web/src/app/calories/personal/page.tsx:81 | the defaults with "very": the browser shows 2960, the server stores 2687 |
| PersonalPage.ToNumber | apps/web/src/app/calories/personal/page.tsx:40-43 | the parsed value when it is finite, the fallback otherwise |
| PersonalPage.WeightValueChanged | apps/web/src/app/calories/personal/page.tsx:121 | only the weight changes; it becomes the parsed number (no clamp), or stays on a failed parse |
| PersonalPage.HeightValueChanged | apps/web/src/app/calories/personal/page.tsx:131 | only the height changes; it becomes the parsed number, or stays |
| PersonalPage.AgeChanged | apps/web/src/app/calories/personal/page.tsx:140 | only the age changes; it is an integer in [10,120]: the rounded entry when it lies in [10, 120.5), 10 below, 120 from 120.5 up, unchanged on a failed parse |
| PersonalPage.RateChanged | apps/web/src/app/calories/personal/page.tsx:169 | only the rate changes; it lies in [-2,2], equals an in-range entry, and is 2 above the range and -2 below it |
| PersonalPage.BodyFatChanged | apps/web/src/app/calories/personal/page.tsx:175 | only body fat changes; it is absent exactly for empty text, lies in [0,75], equals an in-range entry, is 75 above the range and 0 below it, and on a failed parse falls back to the previous value or 0 |
| PersonalPage.TextOrAbsent | apps/web/src/app/calories/personal/page.tsx:178 | the text, or absent exactly when it is the empty string |
| PersonalPage.DietaryPreferenceChanged | apps/web/src/app/calories/personal/page.tsx:178 | only the dietary preference changes, to the text or to absent |
| PersonalPage.AllergiesChanged | apps/web/src/app/calories/personal/page.tsx:181 | only the allergies change, to the text or to absent |
| PersonalPage.MealsPerDayChanged | apps/web/src/app/calories/personal/page.tsx:184 | only meals per day changes; it is absent exactly for empty text, an integer in [1,10], the rounded entry for entries in [1, 10.5), 10 from 10.5 up, 1 below 1, or the previous value or 1 on a failed parse |
| PersonalPage.ProteinPerKgChanged | apps/web/src/app/calories/personal/page.tsx:187 | only protein per kg changes; it is absent exactly for empty text, lies in [0,3], equals an in-range entry, is 3 above the range and 0 below it, or the previous value or 0 on a failed parse |
| PersonalPage.WeightUnitChanged | apps/web/src/app/calories/personal/page.tsx:123 | only the weight unit changes, to the chosen one |
| PersonalPage.HeightUnitChanged | apps/web/src/app/calories/personal/page.tsx:133 | only the height unit changes, to the chosen one |
| PersonalPage.GenderChanged | apps/web/src/app/calories/personal/page.tsx:143 | only the gender changes, to the chosen one |
| PersonalPage.ActivityLevelChanged | apps/web/src/app/calories/personal/page.tsx:150 | only the activity level changes, to the chosen one |
| PersonalPage.GoalChanged | apps/web/src/app/calories/personal/page.tsx:160 | only the goal changes, to the chosen one |
| PersonalPage.HandlersPreserveValidity | apps/web/src/app/calories/personal/page.tsx:121-187 | every clamping, text and select handler keeps a valid profile valid; the activity select does so exactly for the six levels; the weight and height handlers do so exactly when the entry is positive or unparsable |
| JsText.Trim | apps/api/src/index.ts:98-106 | `trim()` returns no longer a string, with no white space at either end |
| JsText.TrimCutsOnlyWhiteSpace | apps/api/src/index.ts:98-106 | `trim()` keeps one contiguous slice of its input, and everything before and after that slice is white space |
| JsText.TrimStart | apps/api/src/index.ts:98-106 | the leading trim returns a suffix that does not start with white space |
| JsText.TrimEnd | apps/api/src/index.ts:98-106 | the trailing trim returns a prefix that does not end with white space |
| JsText.TrimStartCutsWhiteSpace | apps/api/src/index.ts:98-106 | all that the leading trim removes is white space, and the rest is a suffix |
| JsText.TrimEndCutsWhiteSpace | apps/api/src/index.ts:98-106 | all that the trailing trim removes is white space, and the rest is a prefix |
| JsText.TrimIdempotent | apps/api/src/index.ts:98-106 | trimming twice is trimming once |
| JsText.ToLower | apps/api/src/index.ts:99-106 | `toLowerCase()` keeps the length, lowers each ASCII capital and leaves no capital A–Z |
| JsText.ToLowerOfLowerCase | apps/api/src/index.ts:543 | text without capitals A–Z is its own lower case, so the default "food" stays as it is |
| JsText.ToLowerIdempotent | apps/api/src/index.ts:99-106 | lowering twice is lowering once |
| JsText.NonEmpty | apps/api/src/index.ts:107 | `filter(Boolean)` keeps exactly the non-empty strings |
| JsText.NonEmptyAppend | apps/api/src/index.ts:107 | filtering a concatenation filters each part, so the kept pieces keep their order |
| JsText.Join | apps/api/src/index.ts:107 | `join(sep)` of no pieces is empty; otherwise it starts with the first piece, followed by the separator when there is another piece |
| JsText.SplitJoin | apps/api/src/index.ts:107 | splitting on the separator undoes the join when no piece contains it |
| JsText.Decimal | apps/api/src/index.ts:108 | the index's decimal text is a non-empty string of digits with no leading zero |
| JsText.DecimalInjective | apps/api/src/index.ts:543 | different indexes have different decimal texts |
| ExerciseSearch.Normalize | apps/api/src/index.ts:98-106 | `String(x).trim().toLowerCase()` is the trimmed text lowered character by character: as long as it, no white space at either end and no capital A–Z |
| ExerciseSearch.BuildExerciseId | apps/api/src/index.ts:97-109 | the id is never empty: the ':'-join of the non-empty pieces among source, name, target and equipment, or `source:idx` when all are empty |
| ExerciseSearch.ExerciseIdSplits | apps/api/src/index.ts:97-109 | when no piece contains ':', the id splits back into exactly the non-empty pieces, in order |
| ExerciseSearch.ExerciseIdIgnoresIndex | apps/api/src/index.ts:107-112 | with a non-empty source (the provider), the id starts with it and does not depend on the index |
| ExerciseSearch.NormalizeExercise | apps/api/src/index.ts:111-121 | each field is the first given value of its chain: id from `id`, `exerciseId`, then the built id (non-empty when the upstream ids are); name from `name`, `exercise_name`, then "Exercise"; target from `target`, `muscle`, `bodyPart`, then ""; bodyPart from `bodyPart`, `type`, then ""; equipment and gifUrl as given or "" |
| ExerciseSearch.IdTargetIsDisplayedTarget | apps/api/src/index.ts:97-121 | the built id's target and equipment are the displayed ones, normalised, and so is its name when one is given |
| ExerciseSearch.NormalizeExercises | apps/api/src/index.ts:111-121 | one normalised record per upstream item, each with its own index |
| NutritionSearch.OrElse | apps/api/src/index.ts:543-544 | a string field with a default for falsy values: x when it is a non-empty string, d otherwise |
| NutritionSearch.ItemCalories | apps/api/src/index.ts:534-540 | the given calories; else 4p + 4c + 9f (missing as 0) when a macro is numeric; else 0 |
| NutritionSearch.ItemId | apps/api/src/index.ts:543 | the id is the lowered name, a hyphen and the index's digits, with no capital A–Z; a name without capitals appears unchanged |
| NutritionSearch.ItemIdsDistinct | apps/api/src/index.ts:543 | ids built at different indexes differ, whatever the two names |
| NutritionSearch.NutritionItem | apps/api/src/index.ts:533-551 | the id is `ItemId` of the name, or of "food" when the name is missing or empty; the name is the given one when non-empty, else "Food"; the serving size is kept when numeric (0 included), else 100; calories as above; macros copied |
| NutritionSearch.NutritionItems | apps/api/src/index.ts:533-551 | one item per upstream record, each with its own index |
| NutritionSearch.NutritionItemIdsDistinct | apps/api/src/index.ts:543 | items at different positions get different ids, whatever their names |
| NutritionSearch.DerivedCaloriesMonotone | apps/api/src/index.ts:537-540 | derived calories are non-negative for non-negative macros and grow with each macro |
| Diary.ValidDiaryPayload | apps/api/src/index.ts:478-487 | the validator's rules: positive quantity, non-negative calories, and each macro left out or a non-negative number, never `null` |
| Diary.Stored | apps/api/src/index.ts:497-499 | an accepted macro is stored as its number, or as absent when the key was left out |
| Diary.AddDiaryEntry | apps/api/src/index.ts:476-506 | the diary endpoint accepts exactly the payloads the validator accepts, refuses any with a `null` macro, and stores them field for field |
| MealPlan.ComputeTotals | apps/web/src/app/calories/meal-plan/page.tsx:51-63 | the loop's four accumulators end as the sums of calories, protein, fat and carbohydrates, with a missing macro counted as 0 |
| MealPlan.Sum | apps/web/src/app/calories/meal-plan/page.tsx:52-61 | the `reduce` fold over entries is not negative when no entry contributes a negative amount |
| MealPlan.SumAppend | apps/web/src/app/calories/meal-plan/page.tsx:52-61 | the fold over a concatenation is the sum of the folds |
| MealPlan.EntriesOfMeal | apps/web/src/app/calories/meal-plan/page.tsx:139 | the filter keeps exactly the entries of that meal |
| MealPlan.MealSubtotal | apps/web/src/app/calories/meal-plan/page.tsx:139 | a column with no entries shows 0, and no column is negative when no entry's calories are |
| MealPlan.SubtotalStep | apps/web/src/app/calories/meal-plan/page.tsx:139 | appending an entry adds its calories to its own meal's subtotal only |
| MealPlan.MealsDistinct | apps/web/src/app/calories/meal-plan/page.tsx:27 | the four meal names are distinct |
| MealPlan.ColumnsStep | apps/web/src/app/calories/meal-plan/page.tsx:133-139 | appending an entry of one of four distinct columns adds its calories to their total once |
| MealPlan.ColumnsPartition | apps/web/src/app/calories/meal-plan/page.tsx:133-139 | four distinct columns that hold every entry add up to the day's calorie total |
| MealPlan.MealSubtotalsPartitionTotal | apps/web/src/app/calories/meal-plan/page.tsx:27-63 | when every entry's meal is breakfast, lunch, dinner or snack, the four subtotals sum to `totals.cal` |
| MealPlan.DisplayedSubtotal | apps/web/src/app/calories/meal-plan/page.tsx:139 | the column shows its subtotal rounded, within half a kcal |
| MealPlan.DisplayedSubtotalsNearEaten | apps/web/src/app/calories/meal-plan/page.tsx:119-139 | the four rounded column subtotals add up to within 2 kcal of the rounded "Eaten" figure |
| MealPlan.Remaining | apps/web/src/app/calories/meal-plan/page.tsx:100 | null exactly when the target is null; otherwise target − eaten, rounded |
| MealPlan.RemainingMonotone | apps/web/src/app/calories/meal-plan/page.tsx:100 | eating more never raises the remaining budget |
| MealPlan.RemoveEntry | apps/web/src/app/calories/meal-plan/page.tsx:97 | the filter never grows the list |
| MealPlan.RemoveEntryMembers | apps/web/src/app/calories/meal-plan/page.tsx:97 | what is kept is exactly the entries whose id differs |
| MealPlan.RemoveEntryAppend | apps/web/src/app/calories/meal-plan/page.tsx:97 | removal distributes over concatenation, so the kept entries keep their original order |
| MealPlan.RemoveEntryAbsent | apps/web/src/app/calories/meal-plan/page.tsx:97 | with no matching id, nothing changes |
| MealPlan.RemoveEntryIdempotent | apps/web/src/app/calories/meal-plan/page.tsx:97 | removing twice is removing once |
| MealPlan.RemoveEntryLowersSum | apps/web/src/app/calories/meal-plan/page.tsx:97-100 | with non-negative calories, removal never raises the eaten total |
| MealPlan.RemoveEntryNeverLowersRemaining | apps/web/src/app/calories/meal-plan/page.tsx:97-100 | with non-negative calories, removal never lowers the remaining budget |
| MealPlan.AddFoodPayload | apps/web/src/app/calories/meal-plan/page.tsx:72-83 | the quantity is the serving size if non-zero, else 100; name and calories are copied; the fat and carbohydrate fields are renamed to the diary's names; a missing macro is left out of the body, never sent as `null` |
| MealPlan.Sent | apps/web/src/app/calories/meal-plan/page.tsx:80-82 | an `undefined` macro is left out of the JSON body, a number is sent as it is |
| MealPlan.AddFoodAccepted | apps/web/src/app/calories/meal-plan/page.tsx:72-83 | a search result made from non-negative upstream numbers passes the diary validator when added |
| MealPlan.LoadedTarget | apps/web/src/app/calories/meal-plan/page.tsx:45-47 | the displayed target is the stored profile's `lastTargetKcal` or null; with no profile it is left as it was |
| MealPlan.LoadedTargetAfterSave | apps/web/src/app/calories/meal-plan/page.tsx:47 | after a valid save the page shows the custom target if there is one, and the computed target otherwise |

## Left out

- The planner page's recurrence test `occursOnDate` (apps/web/src/app/(app)/planner/page.tsx:436-474) is not modelled: it works on local-time `Date` values and is outside the calorie and nutrition core.
- Express routing, middleware, logging and JSON error bodies: I/O. A refused payload is `None`, for the HTTP 400 answer.
- Prisma persistence, the diary listing's date-range query and record ordering, and the DELETE call: database I/O. `LoadedTarget` takes the most recent stored profile as a parameter.
- Estimator.SaveProfile: in the source, an update by an id that no longer exists makes the update call throw, and the handler answers 400; the model accepts every valid profile.
- The `fetch` proxies, the choice of upstream provider, API keys, upstream error forwarding, and the nutrition search's empty-query check: network I/O. Both normalisers take the already-parsed upstream items.
- The exercise proxy's `Array.isArray(data) ? data : data?.data ?? []` unwrapping: it is part of reading the upstream JSON.
- zod itself, including its defaults. `gender` defaulting to "other" and `rateLbsPerWeek` defaulting to 0 are not modelled: a `Profile` always carries both fields.
- IEEE-754: numbers are exact reals, with no NaN, no infinities and no rounding error. The browser's `Number.isNaN(bodyFatPercent)` test is therefore the `Some` case.
- `parseFloat`/`Number.isFinite`: a handler is given the parse result as an `Option<real>`.
- Estimator.ServerPal: JavaScript object-prototype keys such as "constructor" in `PAL[level] ?? 1.55` are not modelled; any key outside the table gives 1.55. A validated profile never carries such a key.
- PersonalPage.ClientPal: the same holds for the browser's `PAL[level] || 1.55`; any key outside the table gives 1.55.
- JsText.ToLower: lowers only the ASCII letters A–Z; `toLowerCase` on other Unicode letters is not modelled.
- ExerciseSearch.NormalizeExercise: `String(...)` of non-string upstream values (a numeric id, say) is not modelled; upstream fields are optional strings.
- NutritionSearch.NutritionItem: `String(it.name || ...)` of a non-string name is not modelled; a non-string name is `None`.
- Estimator.ClampBounds: requires TDEE ≥ 0, because the band property fails for the negative expenditures the validator admits (see above).
- Estimator.RecompIsRoundedTdee: requires TDEE ≥ 0, for the same reason.
- React state, effects and rendering, the pages' `save` and `search` flows, the date picker, and `setTarget`: UI.
- The layout, navigation, background and `lib/api.ts` files: they hold no logic to model.
- Diary.AddDiaryEntry: the conversion of the date string to a `Date` at noon is not modelled; the model stores the date string as given. In the source, a date string that `new Date` cannot read makes the create call fail, and the handler then answers 400; the model accepts every date string.
