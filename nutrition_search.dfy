/**
 * The nutrition search proxy's normalisation of upstream items
 * (apps/api/src/index.ts, the `num` helper and the `items.map`).
 * Each numeric field is given as what `num` makes of it: `Some(n)` for a finite
 * number, `None` otherwise. `name` is `None` for non-string values.
 */
module NutritionSearch {
  import opened Wrappers
  import opened JsText

  datatype RawFood = RawFood(
    name: Option<string>,
    calories: Option<real>,
    proteinG: Option<real>,
    carbohydratesTotalG: Option<real>,
    fatTotalG: Option<real>,
    servingSizeG: Option<real>)

  /** The normalised item, which the meal-plan page also receives as its `Food`. */
  datatype Food = Food(
    id: string,
    name: string,
    servingSizeG: real,
    calories: real,
    proteinG: Option<real>,
    fatTotalG: Option<real>,
    carbohydratesTotalG: Option<real>)

  const KcalPerGramProtein: real := 4.0
  const KcalPerGramCarbohydrate: real := 4.0
  const KcalPerGramFat: real := 9.0
  const DefaultServingG: real := 100.0

  /** `x || d` on a string field: the empty string is falsy. */
  function OrElse(x: Option<string>, d: string): (r: string)
    ensures x.Some? && x.value != [] ==> r == x.value
    ensures x.None? || x.value == [] ==> r == d
  {
    if x.Some? && x.value != [] then x.value else d
  }

  /** The item's calories: the given number, or else derived from the macros at
      4/4/9 kcal per gram when at least one macro is a number, or else 0. */
  function ItemCalories(it: RawFood): (cal: real)
    ensures it.calories.Some? ==> cal == it.calories.value
    ensures it.calories.None? && (it.proteinG.Some? || it.carbohydratesTotalG.Some? || it.fatTotalG.Some?) ==>
      cal == 4.0 * it.proteinG.GetOr(0.0) + 4.0 * it.carbohydratesTotalG.GetOr(0.0) + 9.0 * it.fatTotalG.GetOr(0.0)
    ensures it.calories.None? && it.proteinG.None? && it.carbohydratesTotalG.None? && it.fatTotalG.None? ==> cal == 0.0
  {
    var p, c, f := it.proteinG, it.carbohydratesTotalG, it.fatTotalG;
    var given := it.calories;
    var cal :=
      if given.None? && (p.Some? || c.Some? || f.Some?) then
        Some(p.GetOr(0.0) * KcalPerGramProtein + c.GetOr(0.0) * KcalPerGramCarbohydrate + f.GetOr(0.0) * KcalPerGramFat)
      else given;
    cal.GetOr(0.0)
  }

  /** The id `${name.toLowerCase()}-${i}`: the lowered name, a hyphen, and the index. */
  function ItemId(name: string, i: nat): (id: string)
    ensures |id| > |Decimal(i)| && id[|id| - |Decimal(i)| - 1..] == "-" + Decimal(i)
    ensures id[..|id| - |Decimal(i)| - 1] == ToLower(name)
    ensures forall k :: 0 <= k < |id| ==> !('A' <= id[k] <= 'Z')
    ensures (forall k :: 0 <= k < |name| ==> !('A' <= name[k] <= 'Z')) ==> id[..|id| - |Decimal(i)| - 1] == name
  {
    ToLowerOfLowerCase(name);
    HyphenJoinShape(ToLower(name), Decimal(i));
    ToLower(name) + ['-'] + Decimal(i)
  }

  lemma HyphenJoinShape(base: string, digits: string)
    requires forall k :: 0 <= k < |base| ==> !('A' <= base[k] <= 'Z')
    requires forall k :: 0 <= k < |digits| ==> IsDigit(digits[k])
    ensures var id := base + ['-'] + digits;
      && id[..|base|] == base && id[|base|..] == "-" + digits
      && forall k :: 0 <= k < |id| ==> !('A' <= id[k] <= 'Z')
  {
    var id := base + ['-'] + digits;
    assert id[..|base|] == base && id[|base|..] == "-" + digits;
    assert forall k :: |base| < k < |id| ==> id[k] == digits[k - |base| - 1];
  }

  /** Ids at different indexes differ, whatever the names: the digits after the last
      '-' tell them apart. */
  lemma ItemIdsDistinct(a: string, i: nat, b: string, j: nat)
    requires i != j
    ensures ItemId(a, i) != ItemId(b, j)
  {
    if ItemId(a, i) == ItemId(b, j) {
      HyphenDigitsSuffix(ToLower(a), Decimal(i), ToLower(b), Decimal(j));
      DecimalInjective(i, j);
    }
  }

  /** The `i`-th normalised item. */
  function NutritionItem(it: RawFood, i: nat): (r: Food)
    ensures it.name.Some? && it.name.value != [] ==> r.id == ItemId(it.name.value, i)
    ensures it.name.None? || it.name.value == [] ==> r.id == ItemId("food", i)
    ensures it.name.Some? && it.name.value != [] ==> r.name == it.name.value
    ensures it.name.None? || it.name.value == [] ==> r.name == "Food"
    ensures it.servingSizeG.Some? ==> r.servingSizeG == it.servingSizeG.value
    ensures it.servingSizeG.None? ==> r.servingSizeG == 100.0
    ensures r.calories == ItemCalories(it)
    ensures r.proteinG == it.proteinG && r.fatTotalG == it.fatTotalG && r.carbohydratesTotalG == it.carbohydratesTotalG
  {
    Food(
      id := ItemId(OrElse(it.name, "food"), i),
      name := OrElse(it.name, "Food"),
      servingSizeG := it.servingSizeG.GetOr(DefaultServingG),
      calories := ItemCalories(it),
      proteinG := it.proteinG,
      fatTotalG := it.fatTotalG,
      carbohydratesTotalG := it.carbohydratesTotalG)
  }

  function NutritionItems(items: seq<RawFood>): (r: seq<Food>)
    ensures |r| == |items|
    ensures forall i :: 0 <= i < |items| ==> r[i] == NutritionItem(items[i], i)
  {
    seq(|items|, i requires 0 <= i < |items| => NutritionItem(items[i], i))
  }

  /** Items at different positions get different ids, whatever their names: the index
      after the last '-' tells them apart. */
  lemma NutritionItemIdsDistinct(items: seq<RawFood>, i: nat, j: nat)
    requires i < |items| && j < |items| && i != j
    ensures NutritionItems(items)[i].id != NutritionItems(items)[j].id
  {
    ItemIdsDistinct(OrElse(items[i].name, "food"), i, OrElse(items[j].name, "food"), j);
  }

  /** With non-negative macros and no given calories, the derived calories are non-negative
      and grow with every macro. */
  lemma DerivedCaloriesMonotone(it: RawFood, more: RawFood)
    requires it.calories.None? && more.calories.None?
    requires it.proteinG.Some? && it.carbohydratesTotalG.Some? && it.fatTotalG.Some?
    requires more.proteinG.Some? && more.carbohydratesTotalG.Some? && more.fatTotalG.Some?
    requires 0.0 <= it.proteinG.value <= more.proteinG.value
    requires 0.0 <= it.carbohydratesTotalG.value <= more.carbohydratesTotalG.value
    requires 0.0 <= it.fatTotalG.value <= more.fatTotalG.value
    ensures 0.0 <= ItemCalories(it) <= ItemCalories(more)
  {
  }
}
