/**
 * The exercise search proxy's normalisation of upstream records
 * (apps/api/src/index.ts, `buildExerciseId` and the `items.map`).
 * Upstream fields are optional strings: `None` is `undefined` or `null`.
 */
module ExerciseSearch {
  import opened Wrappers
  import opened JsText

  datatype RawExercise = RawExercise(
    id: Option<string>,
    exerciseId: Option<string>,
    name: Option<string>,
    exerciseName: Option<string>,    // the upstream exercise_name field
    target: Option<string>,
    muscle: Option<string>,
    bodyPart: Option<string>,
    equipment: Option<string>,
    kind: Option<string>,    // the upstream `type` field
    gifUrl: Option<string>)

  datatype Exercise = Exercise(
    id: string, name: string, target: string, equipment: string, bodyPart: string, gifUrl: string)

  /** `String(x).trim().toLowerCase()`. */
  function Normalize(s: string): (r: string)
    ensures |r| == |Trim(s)|
    ensures r == [] || (!IsWhiteSpace(r[0]) && !IsWhiteSpace(r[|r| - 1]))
    ensures forall k :: 0 <= k < |r| ==> !('A' <= r[k] <= 'Z')
    ensures forall k :: 0 <= k < |r| ==> r[k] == LowerChar(Trim(s)[k])
  {
    var t := Trim(s);
    ToLowerKeepsEnds(t);
    ToLower(t)
  }

  function IdName(it: RawExercise): string { Normalize(it.name.GetOr(it.exerciseName.GetOr(""))) }

  function IdTarget(it: RawExercise): string {
    Normalize(it.target.GetOr(it.muscle.GetOr(it.bodyPart.GetOr(""))))
  }

  function IdEquipment(it: RawExercise): string { Normalize(it.equipment.GetOr("")) }

  /** The pieces of the id, before the empty ones are dropped. */
  function IdParts(source: string, it: RawExercise): seq<string> {
    [source, IdName(it), IdTarget(it), IdEquipment(it)]
  }

  /** `buildExerciseId`: the non-empty pieces joined with ':', or `source:idx` when
      every piece is empty. */
  function BuildExerciseId(source: string, it: RawExercise, idx: nat): (r: string)
    ensures r != []
    ensures NonEmpty(IdParts(source, it)) != [] ==> r == Join(NonEmpty(IdParts(source, it)), ':')
    ensures NonEmpty(IdParts(source, it)) == [] ==> r == source + ":" + Decimal(idx)
  {
    var parts := NonEmpty(IdParts(source, it));
    var base := Join(parts, ':');
    assert parts != [] ==> parts[0] != [];
    if base != [] then base else source + ":" + Decimal(idx)
  }

  /** When no piece contains ':', the id splits back into exactly the non-empty pieces,
      in the order source, name, target, equipment. */
  lemma ExerciseIdSplits(source: string, it: RawExercise, idx: nat)
    requires forall k :: 0 <= k < 4 ==> ':' !in IdParts(source, it)[k]
    requires NonEmpty(IdParts(source, it)) != []
    ensures Split(BuildExerciseId(source, it, idx), ':') == NonEmpty(IdParts(source, it))
  {
    var parts := NonEmpty(IdParts(source, it));
    forall k | 0 <= k < |parts| ensures ':' !in parts[k] {
      assert parts[k] in IdParts(source, it);
    }
    SplitJoin(parts, ':');
  }

  /** The index takes part only when the source is empty too: with a non-empty source
      name (the provider, always set in the proxy), records without name, target and
      equipment all get the same id. */
  lemma ExerciseIdIgnoresIndex(source: string, it: RawExercise, i: nat, j: nat)
    requires source != []
    ensures BuildExerciseId(source, it, i) == BuildExerciseId(source, it, j)
    ensures BuildExerciseId(source, it, i)[..|source|] == source
  {
    var parts := NonEmpty(IdParts(source, it));
    assert parts[0] == source;
  }

  /** The normalised record: each field through its own fallback chain. */
  function NormalizeExercise(source: string, it: RawExercise, idx: nat): (r: Exercise)
    ensures it.id.Some? ==> r.id == it.id.value
    ensures it.id.None? && it.exerciseId.Some? ==> r.id == it.exerciseId.value
    ensures it.id.None? && it.exerciseId.None? ==> r.id == BuildExerciseId(source, it, idx)
    ensures (it.id.Some? ==> it.id.value != []) && (it.exerciseId.Some? ==> it.exerciseId.value != []) ==> r.id != []
    ensures it.name.Some? ==> r.name == it.name.value
    ensures it.name.None? && it.exerciseName.Some? ==> r.name == it.exerciseName.value
    ensures it.name.None? && it.exerciseName.None? ==> r.name == "Exercise"
    ensures it.target.Some? ==> r.target == it.target.value
    ensures it.target.None? && it.muscle.Some? ==> r.target == it.muscle.value
    ensures it.target.None? && it.muscle.None? ==> r.target == it.bodyPart.GetOr("")
    ensures it.equipment.Some? ==> r.equipment == it.equipment.value
    ensures it.equipment.None? ==> r.equipment == ""
    ensures it.bodyPart.Some? ==> r.bodyPart == it.bodyPart.value
    ensures it.bodyPart.None? ==> r.bodyPart == it.kind.GetOr("")
    ensures it.gifUrl.Some? ==> r.gifUrl == it.gifUrl.value
    ensures it.gifUrl.None? ==> r.gifUrl == ""
  {
    Exercise(
      id := it.id.GetOr(it.exerciseId.GetOr(BuildExerciseId(source, it, idx))),
      name := it.name.GetOr(it.exerciseName.GetOr("Exercise")),
      target := it.target.GetOr(it.muscle.GetOr(it.bodyPart.GetOr(""))),
      equipment := it.equipment.GetOr(""),
      bodyPart := it.bodyPart.GetOr(it.kind.GetOr("")),
      gifUrl := it.gifUrl.GetOr(""))
  }

  /** The fallback id uses the displayed target, through the same chain, normalised. */
  lemma IdTargetIsDisplayedTarget(source: string, it: RawExercise, idx: nat)
    ensures IdTarget(it) == Normalize(NormalizeExercise(source, it, idx).target)
    ensures IdEquipment(it) == Normalize(NormalizeExercise(source, it, idx).equipment)
    ensures it.name.Some? || it.exerciseName.Some? ==> IdName(it) == Normalize(NormalizeExercise(source, it, idx).name)
  {
  }

  /** `items.map(...)`: one normalised record per upstream item, each given its index. */
  function NormalizeExercises(source: string, items: seq<RawExercise>): (r: seq<Exercise>)
    ensures |r| == |items|
    ensures forall i :: 0 <= i < |items| ==> r[i] == NormalizeExercise(source, items[i], i)
  {
    seq(|items|, i requires 0 <= i < |items| => NormalizeExercise(source, items[i], i))
  }
}
