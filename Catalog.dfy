/**
 * The static content the workout screen reads: finding a workout or an
 * exercise by id, resolving a workout's id list to exercises, and the
 * translation lookup that falls back to its key.
 */
module Catalog {
  import opened Wrappers

  datatype Language = Pt | En

  datatype LocalizedString = LocalizedString(pt: string, en: string) {
    function In(lang: Language): string {
      match lang
      case Pt => pt
      case En => en
    }
  }

  /** The fields of an exercise this model uses; the display texts are left out. */
  datatype Exercise = Exercise(id: string, name: LocalizedString, videoUrl: Option<string>)

  datatype ReadyWorkout = ReadyWorkout(id: string, title: LocalizedString, exercises: seq<string>)

  /** `Array.prototype.find` by id, as the index of the first element whose id is `id`. */
  function FindIndex<T>(xs: seq<T>, idOf: T -> string, id: string): (r: Option<nat>)
    ensures r.Some? ==> r.value < |xs| && idOf(xs[r.value]) == id
    ensures r.Some? ==> forall j | 0 <= j < r.value :: idOf(xs[j]) != id
    ensures r.None? ==> forall j | 0 <= j < |xs| :: idOf(xs[j]) != id
  {
    if xs == [] then None
    else if idOf(xs[0]) == id then Some(0)
    else match FindIndex(xs[1..], idOf, id)
      case None => None
      case Some(k) => Some(k + 1)
  }

  function FindWorkout(workouts: seq<ReadyWorkout>, id: string): (r: Option<ReadyWorkout>)
    ensures r.Some? ==> r.value in workouts && r.value.id == id
    ensures r.None? <==> forall k | 0 <= k < |workouts| :: workouts[k].id != id
  {
    match FindIndex(workouts, (w: ReadyWorkout) => w.id, id)
    case None => None
    case Some(k) => Some(workouts[k])
  }

  function FindExercise(catalog: seq<Exercise>, id: string): (r: Option<Exercise>)
    ensures r.Some? ==> r.value in catalog && r.value.id == id
    ensures r.None? <==> !Known(catalog, id)
  {
    match FindIndex(catalog, (e: Exercise) => e.id, id)
    case None => None
    case Some(k) => Some(catalog[k])
  }

  /** Some exercise of the catalogue has this id. */
  predicate Known(catalog: seq<Exercise>, id: string) {
    exists k | 0 <= k < |catalog| :: catalog[k].id == id
  }

  /** Reference definition: the workout's ids with the unknown ones removed, order kept. */
  function KnownIds(catalog: seq<Exercise>, ids: seq<string>): seq<string> {
    if ids == [] then []
    else (if Known(catalog, ids[0]) then [ids[0]] else []) + KnownIds(catalog, ids[1..])
  }

  function IdsOf(exs: seq<Exercise>): seq<string> {
    seq(|exs|, k requires 0 <= k < |exs| => exs[k].id)
  }

  /** `workout.exercises.map(find).filter(found)`. */
  function ResolveExercises(catalog: seq<Exercise>, ids: seq<string>): (r: seq<Exercise>)
    ensures |r| <= |ids|
    ensures forall k | 0 <= k < |r| :: r[k] in catalog && r[k].id in ids
  {
    if ids == [] then []
    else
      var rest := ResolveExercises(catalog, ids[1..]);
      match FindExercise(catalog, ids[0])
      case Some(e) => [e] + rest
      case None => rest
  }

  /** The exercise list of the screen for workout `id`; `None` when the workout is unknown (the source redirects). */
  function SessionExercises(workouts: seq<ReadyWorkout>, catalog: seq<Exercise>, id: string): (r: Option<seq<Exercise>>)
    ensures r.None? <==> forall k | 0 <= k < |workouts| :: workouts[k].id != id
  {
    match FindWorkout(workouts, id)
    case None => None
    case Some(w) => Some(ResolveExercises(catalog, w.exercises))
  }

  /** `t(key)`: the entry for the language, or the key itself when it is missing or empty. */
  function Translate(table: map<string, LocalizedString>, lang: Language, key: string): (r: string)
    ensures r == key || (key in table && r == table[key].In(lang))
    ensures key in table && table[key].In(lang) != "" ==> r == table[key].In(lang)
    ensures key !in table || table[key].In(lang) == "" ==> r == key
    ensures key != "" ==> r != ""
  {
    if key in table && table[key].In(lang) != "" then table[key].In(lang) else key
  }

  // ---------------------------------------------------------------------
  // Properties of the resolution.

  /** Resolution keeps exactly the known ids, in the workout's order. */
  lemma {:induction false} ResolveKeepsKnownIdsInOrder(catalog: seq<Exercise>, ids: seq<string>)
    ensures IdsOf(ResolveExercises(catalog, ids)) == KnownIds(catalog, ids)
  {
    if ids != [] {
      ResolveKeepsKnownIdsInOrder(catalog, ids[1..]);
      var rest := ResolveExercises(catalog, ids[1..]);
      match FindExercise(catalog, ids[0])
      case Some(e) =>
        assert Known(catalog, ids[0]);
        assert IdsOf([e] + rest) == [e.id] + IdsOf(rest);
      case None =>
        assert !Known(catalog, ids[0]);
    }
  }

  /** When every id is in the catalogue, the screen gets one exercise per id, in order. */
  lemma {:induction false} ResolveAllKnown(catalog: seq<Exercise>, ids: seq<string>)
    requires forall k | 0 <= k < |ids| :: Known(catalog, ids[k])
    ensures var r := ResolveExercises(catalog, ids);
      |r| == |ids| && forall k | 0 <= k < |r| :: r[k].id == ids[k]
  {
    if ids != [] {
      assert Known(catalog, ids[0]);
      ResolveAllKnown(catalog, ids[1..]);
    }
  }
}
