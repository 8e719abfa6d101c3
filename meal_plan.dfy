/**
 * The browser's meal-plan page (apps/web/src/app/calories/meal-plan/page.tsx): the day's
 * totals, the per-meal subtotals, the remaining budget, removing an entry, the payload
 * `addFood` posts, and the target it reads from the stored profile.
 */
module MealPlan {
  import opened Wrappers
  import opened JsMath
  import opened Profiles
  import opened Estimator
  import opened NutritionSearch
  import opened Diary

  /** The four meal columns. */
  const Meals: seq<string> := ["breakfast", "lunch", "dinner", "snack"]

  datatype Nutrient = Calories | Protein | Fat | Carbohydrates

  /** What an entry contributes to a total; a missing macro counts as 0 (`e.protein_g || 0`). */
  function Amount(e: Entry, n: Nutrient): real {
    match n
    case Calories => e.calories
    case Protein => e.proteinG.GetOr(0.0)
    case Fat => e.fatG.GetOr(0.0)
    case Carbohydrates => e.carbohydratesG.GetOr(0.0)
  }

  /** The left-to-right sum `reduce` computes; it is never negative when no entry
      contributes a negative amount. */
  function Sum(es: seq<Entry>, n: Nutrient): (r: real)
    ensures (forall k :: 0 <= k < |es| ==> Amount(es[k], n) >= 0.0) ==> r >= 0.0
  {
    if es == [] then 0.0 else Sum(es[..|es| - 1], n) + Amount(es[|es| - 1], n)
  }

  datatype Totals = Totals(cal: real, p: real, f: real, c: real)

  /** The `totals` reduce: four accumulators updated entry by entry. */
  method ComputeTotals(entries: seq<Entry>) returns (t: Totals)
    ensures t.cal == Sum(entries, Calories)
    ensures t.p == Sum(entries, Protein)
    ensures t.f == Sum(entries, Fat)
    ensures t.c == Sum(entries, Carbohydrates)
  {
    var cal, p, f, c := 0.0, 0.0, 0.0, 0.0;
    for i := 0 to |entries|
      invariant cal == Sum(entries[..i], Calories)
      invariant p == Sum(entries[..i], Protein)
      invariant f == Sum(entries[..i], Fat)
      invariant c == Sum(entries[..i], Carbohydrates)
    {
      var e := entries[i];
      assert entries[..i + 1][..i] == entries[..i];
      cal := cal + e.calories;
      p := p + e.proteinG.GetOr(0.0);
      f := f + e.fatG.GetOr(0.0);
      c := c + e.carbohydratesG.GetOr(0.0);
    }
    assert entries[..|entries|] == entries;
    t := Totals(cal, p, f, c);
  }

  lemma {:induction false} SumAppend(a: seq<Entry>, b: seq<Entry>, n: Nutrient)
    ensures Sum(a + b, n) == Sum(a, n) + Sum(b, n)
    decreases |b|
  {
    if b == [] {
      assert a + b == a;
    } else {
      var b' := b[..|b| - 1];
      assert (a + b)[..|a + b| - 1] == a + b';
      SumAppend(a, b', n);
    }
  }

  /** `entries.filter(e => e.meal === m)`. */
  function EntriesOfMeal(es: seq<Entry>, m: string): (r: seq<Entry>)
    ensures forall k :: 0 <= k < |r| ==> r[k].meal == m
    ensures forall e :: e in r <==> e in es && e.meal == m
  {
    if es == [] then []
    else
      var last := es[|es| - 1];
      EntriesOfMeal(es[..|es| - 1], m) + (if last.meal == m then [last] else [])
  }

  /** A meal column's subtotal: the calories of that meal's entries; a column with no
      entries shows 0, and no column is negative when no entry is. */
  function MealSubtotal(es: seq<Entry>, m: string): (r: real)
    ensures (forall k :: 0 <= k < |es| ==> es[k].meal != m) ==> r == 0.0
    ensures (forall k :: 0 <= k < |es| ==> es[k].calories >= 0.0) ==> r >= 0.0
  {
    var mine := EntriesOfMeal(es, m);
    assert forall k :: 0 <= k < |mine| ==> mine[k] in es by {
      forall k | 0 <= k < |mine| ensures mine[k] in es {
        assert mine[k] in mine;
      }
    }
    assert mine != [] ==> mine[0] in es;
    Sum(mine, Calories)
  }

  /** The four column subtotals added up, for the columns named by `ms`. */
  function ColumnsTotal(es: seq<Entry>, ms: seq<string>): real
    requires |ms| == 4
  {
    MealSubtotal(es, ms[0]) + MealSubtotal(es, ms[1]) + MealSubtotal(es, ms[2]) + MealSubtotal(es, ms[3])
  }

  /** The subtotal a column shows: `Math.round` of the meal's calories. */
  function DisplayedSubtotal(es: seq<Entry>, m: string): (r: int)
    ensures MealSubtotal(es, m) - 0.5 < r as real <= MealSubtotal(es, m) + 0.5
  {
    Round(MealSubtotal(es, m))
  }

  /** The four rounded column subtotals add up to within 2 kcal of the rounded "Eaten" total. */
  lemma DisplayedSubtotalsNearEaten(es: seq<Entry>)
    requires forall k :: 0 <= k < |es| ==> es[k].meal in Meals
    ensures var shown := DisplayedSubtotal(es, Meals[0]) + DisplayedSubtotal(es, Meals[1])
                         + DisplayedSubtotal(es, Meals[2]) + DisplayedSubtotal(es, Meals[3]);
            -2 <= shown - Round(Sum(es, Calories)) <= 2
  {
    MealSubtotalsPartitionTotal(es);
  }

  lemma {:induction false} SubtotalStep(es: seq<Entry>, m: string)
    requires es != []
    ensures MealSubtotal(es, m) == MealSubtotal(es[..|es| - 1], m) + (if es[|es| - 1].meal == m then es[|es| - 1].calories else 0.0)
  {
    var last := es[|es| - 1];
    var tail: seq<Entry> := if last.meal == m then [last] else [];
    SumAppend(EntriesOfMeal(es[..|es| - 1], m), tail, Calories);
    if last.meal == m {
      assert [last][..0] == [];
    }
  }

  /** The four columns are distinct. */
  predicate Distinct4(ms: seq<string>)
    requires |ms| == 4
  {
    ms[0] != ms[1] && ms[0] != ms[2] && ms[0] != ms[3] && ms[1] != ms[2] && ms[1] != ms[3] && ms[2] != ms[3]
  }

  lemma MealsDistinct()
    ensures |Meals| == 4 && Distinct4(Meals)
  {
    assert Meals[0][0] == 'b' && Meals[1][0] == 'l' && Meals[2][0] == 'd' && Meals[3][0] == 's';
  }

  /** When every entry belongs to one of the four meals, the four column subtotals add up
      to the day's calorie total. */
  lemma {:induction false} MealSubtotalsPartitionTotal(es: seq<Entry>)
    requires forall k :: 0 <= k < |es| ==> es[k].meal in Meals
    ensures ColumnsTotal(es, Meals) == Sum(es, Calories)
  {
    MealsDistinct();
    ColumnsPartition(es, Meals);
  }

  /** Four distinct columns that between them hold every entry add up to the whole fold. */
  lemma {:induction false} ColumnsPartition(es: seq<Entry>, ms: seq<string>)
    requires |ms| == 4 && Distinct4(ms)
    requires forall k :: 0 <= k < |es| ==> es[k].meal in ms
    ensures ColumnsTotal(es, ms) == Sum(es, Calories)
  {
    if es != [] {
      var init := es[..|es| - 1];
      assert forall k :: 0 <= k < |init| ==> init[k].meal in ms by {
        assert forall k :: 0 <= k < |init| ==> init[k] == es[k];
      }
      ColumnsPartition(init, ms);
      ColumnsStep(es, ms);
    }
  }

  /** Appending an entry of one of the columns adds its calories to exactly one of them. */
  lemma {:induction false} ColumnsStep(es: seq<Entry>, ms: seq<string>)
    requires es != []
    requires |ms| == 4 && Distinct4(ms)
    requires es[|es| - 1].meal in ms
    ensures ColumnsTotal(es, ms) == ColumnsTotal(es[..|es| - 1], ms) + es[|es| - 1].calories
  {
    var m := es[|es| - 1].meal;
    assert m == ms[0] || m == ms[1] || m == ms[2] || m == ms[3] by {
      var i :| 0 <= i < |ms| && ms[i] == m;
      assert i == 0 || i == 1 || i == 2 || i == 3;
    }
    SubtotalStep(es, ms[0]);
    SubtotalStep(es, ms[1]);
    SubtotalStep(es, ms[2]);
    SubtotalStep(es, ms[3]);
  }

  /** `target != null ? Math.round(target - totals.cal) : null`. */
  function Remaining(target: Option<int>, eaten: real): (r: Option<int>)
    ensures r.None? <==> target.None?
    ensures r.Some? ==> (target.value as real - eaten) - 0.5 < r.value as real <= (target.value as real - eaten) + 0.5
  {
    if target.Some? then Some(Round(target.value as real - eaten)) else None
  }

  lemma RemainingMonotone(target: Option<int>, eaten1: real, eaten2: real)
    requires target.Some? && eaten1 <= eaten2
    ensures Remaining(target, eaten2).value <= Remaining(target, eaten1).value
  {
    RoundMonotone(target.value as real - eaten2, target.value as real - eaten1);
  }

  /** `removeEntry`'s `entries.filter(x => x.id !== id)`. */
  function RemoveEntry(es: seq<Entry>, id: string): (r: seq<Entry>)
    ensures |r| <= |es|
  {
    if es == [] then []
    else
      var last := es[|es| - 1];
      RemoveEntry(es[..|es| - 1], id) + (if last.id != id then [last] else [])
  }

  /** What is kept is exactly the entries whose id differs. */
  lemma {:induction false} RemoveEntryMembers(es: seq<Entry>, id: string)
    ensures forall e :: e in RemoveEntry(es, id) <==> e in es && e.id != id
  {
    if es != [] {
      var init, last := es[..|es| - 1], es[|es| - 1];
      RemoveEntryMembers(init, id);
      assert es == init + [last];
    }
  }

  /** Removal works piece by piece, so what is kept stays in its original order. */
  lemma {:induction false} RemoveEntryAppend(a: seq<Entry>, b: seq<Entry>, id: string)
    ensures RemoveEntry(a + b, id) == RemoveEntry(a, id) + RemoveEntry(b, id)
    decreases |b|
  {
    if b == [] {
      assert a + b == a;
    } else {
      var b' := b[..|b| - 1];
      assert (a + b)[..|a + b| - 1] == a + b';
      RemoveEntryAppend(a, b', id);
    }
  }

  /** Nothing is removed when no entry has the id; so a second removal changes nothing. */
  lemma {:induction false} RemoveEntryAbsent(es: seq<Entry>, id: string)
    requires forall k :: 0 <= k < |es| ==> es[k].id != id
    ensures RemoveEntry(es, id) == es
  {
    if es != [] {
      var init, last := es[..|es| - 1], es[|es| - 1];
      assert forall k :: 0 <= k < |init| ==> init[k].id != id by {
        assert forall k :: 0 <= k < |init| ==> init[k] == es[k];
      }
      RemoveEntryAbsent(init, id);
      assert RemoveEntry(es, id) == init + [last] by { assert last.id != id; }
      assert init + [last] == es;
    }
  }

  lemma {:induction false} RemoveEntryIdempotent(es: seq<Entry>, id: string)
    ensures RemoveEntry(RemoveEntry(es, id), id) == RemoveEntry(es, id)
  {
    var r := RemoveEntry(es, id);
    RemoveEntryMembers(es, id);
    forall k | 0 <= k < |r| ensures r[k].id != id {
      assert r[k] in r;
    }
    RemoveEntryAbsent(r, id);
  }

  /** With non-negative calories (which the diary validator enforces), removing entries
      never lowers the remaining budget. */
  lemma {:induction false} RemoveEntryNeverLowersRemaining(es: seq<Entry>, id: string, target: Option<int>)
    requires target.Some?
    requires forall k :: 0 <= k < |es| ==> es[k].calories >= 0.0
    ensures Sum(RemoveEntry(es, id), Calories) <= Sum(es, Calories)
    ensures Remaining(target, Sum(es, Calories)).value <= Remaining(target, Sum(RemoveEntry(es, id), Calories)).value
  {
    RemoveEntryLowersSum(es, id);
    RemainingMonotone(target, Sum(RemoveEntry(es, id), Calories), Sum(es, Calories));
  }

  lemma {:induction false} RemoveEntryLowersSum(es: seq<Entry>, id: string)
    requires forall k :: 0 <= k < |es| ==> es[k].calories >= 0.0
    ensures Sum(RemoveEntry(es, id), Calories) <= Sum(es, Calories)
  {
    if es != [] {
      var init, last := es[..|es| - 1], es[|es| - 1];
      RemoveEntryLowersSum(init, id);
      var tail: seq<Entry> := if last.id != id then [last] else [];
      SumAppend(RemoveEntry(init, id), tail, Calories);
      if last.id != id {
        assert [last][..0] == [];
      }
    }
  }

  /** The body `JSON.stringify` makes of an optional macro: an `undefined` key is left out. */
  function Sent(x: Option<real>): (j: JsonNumber)
    ensures x.None? <==> j.Absent?
    ensures x.Some? ==> j == Number(x.value)
  {
    if x.Some? then Number(x.value) else Absent
  }

  /** The payload `addFood` posts: the serving size, or 100 when it is 0
      (`serving_size_g || 100`), and the macros under the diary's field names, a
      missing one left out of the body. */
  function AddFoodPayload(date: string, meal: string, f: Food): (d: DiaryPayload)
    ensures f.servingSizeG != 0.0 ==> d.quantityGrams == f.servingSizeG
    ensures f.servingSizeG == 0.0 ==> d.quantityGrams == 100.0
    ensures d.foodName == f.name && d.calories == f.calories && d.date == date && d.meal == meal
    ensures d.proteinG == Sent(f.proteinG) && d.fatG == Sent(f.fatTotalG) && d.carbohydratesG == Sent(f.carbohydratesTotalG)
    ensures !d.proteinG.Null? && !d.fatG.Null? && !d.carbohydratesG.Null?
  {
    var qty := if f.servingSizeG != 0.0 then f.servingSizeG else 100.0;
    DiaryPayload(date, meal, f.name, qty, f.calories, Sent(f.proteinG), Sent(f.fatTotalG), Sent(f.carbohydratesTotalG))
  }

  /** A search result built from non-negative upstream numbers is accepted by the diary
      validator when added, a zero or missing serving size becoming 100 g. */
  lemma AddFoodAccepted(date: string, meal: string, raw: RawFood, i: nat)
    requires NonNegative(raw.calories) && NonNegative(raw.proteinG)
    requires NonNegative(raw.carbohydratesTotalG) && NonNegative(raw.fatTotalG)
    requires NonNegative(raw.servingSizeG)
    ensures ValidDiaryPayload(AddFoodPayload(date, meal, NutritionItem(raw, i)))
  {
  }

  /** The target the page shows: the stored profile's `lastTargetKcal`, or null when that
      is absent; with no stored profile the previous value stays. */
  function LoadedTarget(previous: Option<int>, stored: Option<SavedProfile>): (r: Option<int>)
    ensures stored.None? ==> r == previous
    ensures stored.Some? ==> r == stored.value.data.lastTargetKcal
  {
    match stored
    case None => previous
    case Some(s) => s.data.lastTargetKcal
  }

  /** After a valid profile is saved, the page shows its custom target if it has one,
      and the computed target otherwise. */
  lemma LoadedTargetAfterSave(previous: Option<int>, p: Profile)
    requires ValidProfile(p)
    ensures LoadedTarget(previous, SaveProfile(p)) == Some(p.customTargetKcal.GetOr(ComputeTargetKcal(p)))
  {
  }
}
