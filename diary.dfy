/**
 * The calorie diary endpoint that stores one meal entry (apps/api/src/index.ts,
 * POST /api/nutrition/diary): its payload validator, and the entry record the diary
 * listing returns.
 *
 * The optional macros of the JSON body are told apart three ways: the key left out,
 * the key given as `null`, and the key given a number. The validator marks them
 * optional but not nullable, so it accepts the first and the last and refuses `null`.
 */
module Diary {
  import opened Wrappers

  /** An optional number-valued key of the request body. */
  datatype JsonNumber = Absent | Null | Number(value: real)

  datatype DiaryPayload = DiaryPayload(
    date: string,
    meal: string,
    foodName: string,
    quantityGrams: real,
    calories: real,
    proteinG: JsonNumber,
    fatG: JsonNumber,
    carbohydratesG: JsonNumber)

  /** A stored meal entry; `id` is chosen by the database, and a macro left out of the
      payload is stored as `None`. */
  datatype Entry = Entry(
    id: string,
    date: string,
    meal: string,
    foodName: string,
    quantityGrams: real,
    calories: real,
    proteinG: Option<real>,
    fatG: Option<real>,
    carbohydratesG: Option<real>)

  predicate NonNegative(x: Option<real>) { x.Some? ==> x.value >= 0.0 }

  /** `z.number().nonnegative().optional()`: left out, or a number that is not negative. */
  predicate ValidOptionalMacro(x: JsonNumber) { x.Absent? || (x.Number? && x.value >= 0.0) }

  /** The stored value of an accepted optional macro. */
  function Stored(x: JsonNumber): (r: Option<real>)
    requires ValidOptionalMacro(x)
    ensures x.Absent? <==> r.None?
    ensures x.Number? ==> r == Some(x.value) && x.value >= 0.0
  {
    if x.Number? then Some(x.value) else None
  }

  /** The payload validator: positive quantity, non-negative calories, and each macro
      left out or non-negative; a macro sent as `null` is refused. */
  predicate ValidDiaryPayload(d: DiaryPayload) {
    && d.quantityGrams > 0.0
    && d.calories >= 0.0
    && ValidOptionalMacro(d.proteinG) && ValidOptionalMacro(d.fatG) && ValidOptionalMacro(d.carbohydratesG)
  }

  /** The POST handler: an invalid payload is refused (HTTP 400); a valid one is stored
      field for field under the id the database assigns. */
  function AddDiaryEntry(id: string, d: DiaryPayload): (r: Option<Entry>)
    ensures r.Some? <==> ValidDiaryPayload(d)
    ensures r.Some? ==> r.value.id == id && r.value.calories == d.calories >= 0.0
    ensures d.proteinG.Null? || d.fatG.Null? || d.carbohydratesG.Null? ==> r.None?
    ensures r.Some? ==> r.value == Entry(id, d.date, d.meal, d.foodName, d.quantityGrams, d.calories,
                                         Stored(d.proteinG), Stored(d.fatG), Stored(d.carbohydratesG))
  {
    if ValidDiaryPayload(d) then
      Some(Entry(id, d.date, d.meal, d.foodName, d.quantityGrams, d.calories,
                 Stored(d.proteinG), Stored(d.fatG), Stored(d.carbohydratesG)))
    else None
  }
}
