/** The workout planner of src/_root/main/WorkoutManager.tsx: the week's
    days of the first plan, each with its exercise entries. Saving, editing
    and deleting an entry touch only the selected day; adding a day appends
    it empty. */
module Workout {
  import opened Wrappers
  import Lists

  /** A catalogue exercise. The entries of a loaded plan lose the id. */
  datatype Exercise = Exercise(id: Option<string>, name: string, targetMuscle: string)

  /** A JavaScript number after `Number(...)`: finite, or NaN. */
  datatype Num = NaN | Finite(value: real)

  /** An exercise placed on a day. */
  datatype ExerciseOnDay = ExerciseOnDay(id: string, order: int, sets: Num, reps: string,
                                         weight: Option<real>, restTime: Option<real>,
                                         exercise: Exercise)

  /** A day of the plan; `day` is the week-day name ("MONDAY", ...). */
  datatype WorkoutDay = WorkoutDay(id: string, day: string, dayLabel: Option<string>,
                                   exercises: seq<ExerciseOnDay>)

  /** A plan as the server sends it. */
  datatype Plan = Plan(id: string, days: seq<WorkoutDay>)

  /** The exercise form, its number fields already through `Number(...)`. */
  datatype ExerciseForm = ExerciseForm(exerciseId: string, sets: Num, reps: string, weight: Num, restTime: Num)

  /** The body sent for an entry. */
  datatype ExercisePayload = ExercisePayload(exerciseId: string, order: int, sets: Num, reps: string,
                                             weight: Option<real>, restTime: Option<real>)

  /** `PUT /private/exercises-on-day/{entry}` when editing, else
      `POST /private/days/{day}/exercises`. */
  datatype ExerciseRequest = Put(entryId: string, payload: ExercisePayload)
                           | Post(dayId: string, payload: ExercisePayload)

  /** The saved entry the server answers with. */
  datatype SavedEntry = SavedEntry(id: string, order: int, sets: Num, reps: string,
                                   weight: Option<real>, restTime: Option<real>)

  /** The day record the server answers `handleSaveDay` with. */
  datatype SavedDay = SavedDay(id: string, day: string, dayLabel: Option<string>)

  /** `Number(x) || null`: 0 and NaN are falsy and become null. */
  function OrNull(n: Num): (r: Option<real>)
    ensures r.None? <==> n.NaN? || n.value == 0.0
    ensures r.Some? ==> r.value == n.value
  {
    match n
    case NaN => None
    case Finite(v) => if v == 0.0 then None else Some(v)
  }

  /** `currentDayData`: the first day whose name is the selected one. */
  function CurrentDay(days: seq<WorkoutDay>, selectedDay: string): (r: Option<WorkoutDay>)
    ensures r.None? <==> forall j :: 0 <= j < |days| ==> days[j].day != selectedDay
    ensures r.Some? ==> exists i :: 0 <= i < |days| && days[i] == r.value && days[i].day == selectedDay &&
                                    forall j :: 0 <= j < i ==> days[j].day != selectedDay
  {
    Lists.Find(days, (d: WorkoutDay) => d.day == selectedDay)
  }

  /** `globalExercises.find(ex => ex.id === exerciseId)`. */
  function CatalogueExercise(catalogue: seq<Exercise>, exerciseId: string): (r: Option<Exercise>)
    ensures r.None? <==> forall j :: 0 <= j < |catalogue| ==> catalogue[j].id != Some(exerciseId)
    ensures r.Some? ==> r.value in catalogue && r.value.id == Some(exerciseId)
  {
    Lists.Find(catalogue, (ex: Exercise) => ex.id == Some(exerciseId))
  }

  /** What `handleSaveExercise` sends, or `None` when it returns early: no
      day matches the selection, or the chosen exercise is not in the
      catalogue. */
  function ExerciseRequestOf(days: seq<WorkoutDay>, selectedDay: string, catalogue: seq<Exercise>,
                             editing: Option<ExerciseOnDay>, form: ExerciseForm): Option<ExerciseRequest>
  {
    match CurrentDay(days, selectedDay)
    case None => None
    case Some(current) =>
      if CatalogueExercise(catalogue, form.exerciseId).None? then None
      else
        var order := if editing.Some? then editing.value.order else |current.exercises| + 1;
        var payload := ExercisePayload(form.exerciseId, order, form.sets, form.reps,
                                       OrNull(form.weight), OrNull(form.restTime));
        if editing.Some? then Some(Put(editing.value.id, payload))
        else Some(Post(current.id, payload))
  }

  /** A request goes out iff some day is selected and the exercise is in the
      catalogue. Its order is the edited entry's, or one past the day's
      entries when creating; an edit is a PUT of the edited entry, a
      creation a POST to the current day; weight and rest time of 0 or NaN
      are sent as null. */
  lemma ExerciseRequestFields(days: seq<WorkoutDay>, selectedDay: string, catalogue: seq<Exercise>,
                              editing: Option<ExerciseOnDay>, form: ExerciseForm)
    ensures var r := ExerciseRequestOf(days, selectedDay, catalogue, editing, form);
      var current := CurrentDay(days, selectedDay);
      (r.None? <==> current.None? || CatalogueExercise(catalogue, form.exerciseId).None?) &&
      (r.Some? ==>
        r.value.payload.exerciseId == form.exerciseId &&
        r.value.payload.order == (if editing.Some? then editing.value.order else |current.value.exercises| + 1) &&
        (r.value.Put? <==> editing.Some?) &&
        (r.value.Put? ==> r.value.entryId == editing.value.id) &&
        (r.value.Post? ==> r.value.dayId == current.value.id) &&
        r.value.payload.weight == OrNull(form.weight) && r.value.payload.restTime == OrNull(form.restTime))
  {
  }

  /** The entry stored locally for a saved reply: the server's fields with
      the catalogue exercise. */
  function EntryOf(saved: SavedEntry, exercise: Exercise): ExerciseOnDay {
    ExerciseOnDay(saved.id, saved.order, saved.sets, saved.reps, saved.weight, saved.restTime, exercise)
  }

  /** The `setWorkoutDays` updater of `handleSaveExercise`: inside the days
      with the current day's id, an edit replaces the edited entry and a
      creation appends the new one. */
  function SavedDays(days: seq<WorkoutDay>, dayId: string, editing: Option<ExerciseOnDay>,
                     entry: ExerciseOnDay): seq<WorkoutDay>
  {
    Lists.UpdateWhere(days, (d: WorkoutDay) => d.id == dayId,
      (d: WorkoutDay) =>
        if editing.Some? then
          d.(exercises := Lists.UpdateWhere(d.exercises, (ex: ExerciseOnDay) => ex.id == editing.value.id,
                                            (ex: ExerciseOnDay) => entry))
        else d.(exercises := d.exercises + [entry]))
  }

  /** Saving touches only the current day, and there only its entries: an
      edit keeps the number of entries and replaces exactly the ones with the
      edited id; a creation appends exactly one entry at the end. */
  lemma SavedDaysTouchOnlyCurrentDay(days: seq<WorkoutDay>, dayId: string, editing: Option<ExerciseOnDay>,
                                     entry: ExerciseOnDay)
    ensures var r := SavedDays(days, dayId, editing, entry);
      |r| == |days| &&
      (forall i :: 0 <= i < |days| && days[i].id != dayId ==> r[i] == days[i]) &&
      (forall i :: 0 <= i < |days| && days[i].id == dayId ==>
        r[i].(exercises := days[i].exercises) == days[i] &&
        (editing.None? ==> r[i].exercises == days[i].exercises + [entry]) &&
        (editing.Some? ==>
          |r[i].exercises| == |days[i].exercises| &&
          forall k :: 0 <= k < |days[i].exercises| ==>
            r[i].exercises[k] == if days[i].exercises[k].id == editing.value.id then entry else days[i].exercises[k]))
  {
  }

  /** The `setWorkoutDays` updater of `deleteExercise`: the entry leaves the
      days with the current day's id. */
  function WithoutEntry(days: seq<WorkoutDay>, dayId: string, entryId: string): seq<WorkoutDay> {
    Lists.UpdateWhere(days, (d: WorkoutDay) => d.id == dayId,
      (d: WorkoutDay) => d.(exercises := Lists.Filter(d.exercises, (ex: ExerciseOnDay) => ex.id != entryId)))
  }

  /** Deleting touches only the current day, where exactly the entries with
      that id disappear. */
  lemma WithoutEntryTouchesOnlyCurrentDay(days: seq<WorkoutDay>, dayId: string, entryId: string)
    ensures var r := WithoutEntry(days, dayId, entryId);
      |r| == |days| &&
      (forall i :: 0 <= i < |days| && days[i].id != dayId ==> r[i] == days[i]) &&
      (forall i :: 0 <= i < |days| && days[i].id == dayId ==>
        r[i].(exercises := days[i].exercises) == days[i] &&
        forall ex :: ex in r[i].exercises <==> ex in days[i].exercises && ex.id != entryId)
  {
  }

  /** The plan mapping of `loadPlan`: every entry keeps its fields, its
      exercise keeps name and target muscle but loses the id. */
  function LoadedEntry(ex: ExerciseOnDay): ExerciseOnDay {
    ex.(exercise := Exercise(None, ex.exercise.name, ex.exercise.targetMuscle))
  }

  function LoadedEntries(exs: seq<ExerciseOnDay>): (r: seq<ExerciseOnDay>)
    ensures |r| == |exs|
    ensures forall k :: 0 <= k < |exs| ==> r[k] == LoadedEntry(exs[k])
  {
    if exs == [] then [] else [LoadedEntry(exs[0])] + LoadedEntries(exs[1..])
  }

  function LoadedDays(days: seq<WorkoutDay>): (r: seq<WorkoutDay>)
    ensures |r| == |days|
    ensures forall i :: 0 <= i < |days| ==> r[i] == days[i].(exercises := LoadedEntries(days[i].exercises))
  {
    if days == [] then [] else [days[0].(exercises := LoadedEntries(days[0].exercises))] + LoadedDays(days[1..])
  }

  /** A loaded plan keeps its days, their order, their entries and every
      entry's fields; only the exercise ids are gone. */
  lemma {:induction false} LoadedDaysShape(days: seq<WorkoutDay>, i: nat, k: nat)
    requires i < |days| && k < |days[i].exercises|
    ensures var r := LoadedDays(days);
      r[i].id == days[i].id && r[i].day == days[i].day && r[i].dayLabel == days[i].dayLabel &&
      r[i].exercises[k].(exercise := days[i].exercises[k].exercise) == days[i].exercises[k] &&
      r[i].exercises[k].exercise.id.None? &&
      r[i].exercises[k].exercise.name == days[i].exercises[k].exercise.name
  {
  }

  /** Ascending by `order`, each entry against the next. */
  predicate SortedByOrder(s: seq<ExerciseOnDay>) {
    |s| < 2 || (s[0].order <= s[1].order && SortedByOrder(s[1..]))
  }

  /** Neighbour to neighbour ascending is ascending between any two
      entries. */
  lemma {:induction false} SortedByOrderPairwise(s: seq<ExerciseOnDay>)
    requires SortedByOrder(s)
    ensures forall i, j :: 0 <= i < j < |s| ==> s[i].order <= s[j].order
  {
    if |s| >= 2 {
      SortedByOrderPairwise(s[1..]);
      forall i, j | 0 <= i < j < |s|
        ensures s[i].order <= s[j].order
      {
        if 0 < i {
          assert s[i] == s[1..][i - 1] && s[j] == s[1..][j - 1];
        } else if 1 < j {
          assert s[1] == s[1..][0] && s[j] == s[1..][j - 1];
        }
      }
    }
  }

  /** One step of the display sort: `e` goes in front of the first entry
      whose order is not below its own. */
  function InsertByOrder(e: ExerciseOnDay, s: seq<ExerciseOnDay>): (r: seq<ExerciseOnDay>)
    ensures multiset(r) == multiset(s) + multiset{e}
    ensures |r| == |s| + 1 && (r[0] == e || (s != [] && r[0] == s[0]))
  {
    if s == [] || e.order <= s[0].order then [e] + s
    else
      assert s == [s[0]] + s[1..];
      [s[0]] + InsertByOrder(e, s[1..])
  }

  /** Inserting into a sorted list keeps it sorted. */
  lemma {:induction false} InsertByOrderSorted(e: ExerciseOnDay, s: seq<ExerciseOnDay>)
    requires SortedByOrder(s)
    ensures SortedByOrder(InsertByOrder(e, s))
  {
    if s != [] && e.order > s[0].order {
      var rest := InsertByOrder(e, s[1..]);
      InsertByOrderSorted(e, s[1..]);
      var r := [s[0]] + rest;
      assert InsertByOrder(e, s) == r;
      assert r[1..] == rest;
    }
  }

  /** `exercises.sort((a, b) => a.order - b.order)`: the same entries, by
      repeated insertion. */
  function SortByOrder(s: seq<ExerciseOnDay>): (r: seq<ExerciseOnDay>)
    ensures multiset(r) == multiset(s)
  {
    if s == [] then []
    else
      assert s == [s[0]] + s[1..];
      InsertByOrder(s[0], SortByOrder(s[1..]))
  }

  /** The sorted entries are ascending by order, and are the same entries. */
  lemma {:induction false} SortByOrderSorted(s: seq<ExerciseOnDay>)
    ensures SortedByOrder(SortByOrder(s))
    ensures multiset(SortByOrder(s)) == multiset(s) && |SortByOrder(s)| == |s|
  {
    if s != [] {
      SortByOrderSorted(s[1..]);
      InsertByOrderSorted(s[0], SortByOrder(s[1..]));
    }
    assert |multiset(SortByOrder(s))| == |multiset(s)|;
  }

  class WorkoutManager {
    var workoutDays: seq<WorkoutDay>
    var planId: Option<string>
    var globalExercises: seq<Exercise>
    var selectedDay: string
    var isModalOpen: bool
    var isSecondModalOpen: bool
    var editingExercise: Option<ExerciseOnDay>

    constructor ()
      ensures workoutDays == [] && planId == None && globalExercises == [] && selectedDay == "MONDAY"
      ensures !isModalOpen && !isSecondModalOpen && editingExercise == None
    {
      workoutDays := [];
      planId := None;
      globalExercises := [];
      selectedDay := "MONDAY";
      isModalOpen := false;
      isSecondModalOpen := false;
      editingExercise := None;
    }

    /** `currentDayData`. */
    function CurrentDayData(): Option<WorkoutDay>
      reads this
    {
      CurrentDay(workoutDays, selectedDay)
    }

    /** `loadPlan` with both requests answered: the catalogue is stored;
        without plans nothing else changes, otherwise only the first plan is
        loaded. */
    method LoadPlan(plans: seq<Plan>, exercises: seq<Exercise>)
      modifies this
      ensures globalExercises == exercises
      ensures plans == [] ==> workoutDays == old(workoutDays) && planId == old(planId)
      ensures plans != [] ==> planId == Some(plans[0].id) && workoutDays == LoadedDays(plans[0].days)
      ensures selectedDay == old(selectedDay) && isModalOpen == old(isModalOpen)
      ensures isSecondModalOpen == old(isSecondModalOpen) && editingExercise == old(editingExercise)
    {
      globalExercises := exercises;
      if plans == [] {
        return;
      }
      planId := Some(plans[0].id);
      workoutDays := LoadedDays(plans[0].days);
    }

    /** A day button selects its day. */
    method SelectDay(day: string)
      modifies this
      ensures selectedDay == day
      ensures workoutDays == old(workoutDays) && planId == old(planId) && globalExercises == old(globalExercises)
      ensures isModalOpen == old(isModalOpen) && isSecondModalOpen == old(isSecondModalOpen)
      ensures editingExercise == old(editingExercise)
    {
      selectedDay := day;
    }

    /** `openModal`: given an entry it becomes the one being edited; without
        one, the entry being edited is kept. */
    method OpenModal(exercise: Option<ExerciseOnDay>)
      modifies this
      ensures isModalOpen
      ensures editingExercise == if exercise.Some? then exercise else old(editingExercise)
      ensures workoutDays == old(workoutDays) && planId == old(planId) && globalExercises == old(globalExercises)
      ensures selectedDay == old(selectedDay) && isSecondModalOpen == old(isSecondModalOpen)
    {
      if exercise.Some? {
        editingExercise := exercise;
      }
      isModalOpen := true;
    }

    /** `closeModal`. */
    method CloseModal()
      modifies this
      ensures !isModalOpen && editingExercise == None
      ensures workoutDays == old(workoutDays) && planId == old(planId) && globalExercises == old(globalExercises)
      ensures selectedDay == old(selectedDay) && isSecondModalOpen == old(isSecondModalOpen)
    {
      isModalOpen := false;
      editingExercise := None;
    }

    /** `handleSaveExercise`: `request` is what is sent (`None`: nothing
        is), `reply` the saved entry, `None` when the request fails. Only a
        saved entry changes the page: the days are updated and the modal
        closes. */
    method SaveExercise(form: ExerciseForm, reply: Option<SavedEntry>) returns (request: Option<ExerciseRequest>)
      modifies this
      ensures request == ExerciseRequestOf(old(workoutDays), old(selectedDay), old(globalExercises),
                                           old(editingExercise), form)
      ensures request.Some? && reply.Some? ==>
        var current := CurrentDay(old(workoutDays), old(selectedDay)).value;
        var exercise := CatalogueExercise(old(globalExercises), form.exerciseId).value;
        workoutDays == SavedDays(old(workoutDays), current.id, old(editingExercise), EntryOf(reply.value, exercise)) &&
        !isModalOpen && editingExercise == None
      ensures request.None? || reply.None? ==>
        workoutDays == old(workoutDays) && isModalOpen == old(isModalOpen) && editingExercise == old(editingExercise)
      ensures planId == old(planId) && globalExercises == old(globalExercises)
      ensures selectedDay == old(selectedDay) && isSecondModalOpen == old(isSecondModalOpen)
    {
      request := ExerciseRequestOf(workoutDays, selectedDay, globalExercises, editingExercise, form);
      if request.None? || reply.None? {
        return;
      }
      var current := CurrentDay(workoutDays, selectedDay).value;
      var exercise := CatalogueExercise(globalExercises, form.exerciseId).value;
      workoutDays := SavedDays(workoutDays, current.id, editingExercise, EntryOf(reply.value, exercise));
      CloseModal();
    }

    /** `handleSaveDay`: nothing without a day name; otherwise `{day, label}`
        is posted and a created day is appended with no entries, closing the
        second modal. A failed request changes nothing. */
    method SaveDay(day: string, dayLabel: Option<string>, reply: Option<SavedDay>)
      returns (request: Option<(string, Option<string>)>)
      modifies this
      ensures request.None? <==> day == ""
      ensures request.Some? ==> request.value == (day, dayLabel)
      ensures request.Some? && reply.Some? ==>
        workoutDays == old(workoutDays) + [WorkoutDay(reply.value.id, reply.value.day, reply.value.dayLabel, [])] &&
        !isSecondModalOpen
      ensures request.None? || reply.None? ==>
        workoutDays == old(workoutDays) && isSecondModalOpen == old(isSecondModalOpen)
      ensures planId == old(planId) && globalExercises == old(globalExercises) && selectedDay == old(selectedDay)
      ensures isModalOpen == old(isModalOpen) && editingExercise == old(editingExercise)
    {
      if day == "" {
        return None;
      }
      request := Some((day, dayLabel));
      if reply.Some? {
        workoutDays := workoutDays + [WorkoutDay(reply.value.id, reply.value.day, reply.value.dayLabel, [])];
        isSecondModalOpen := false;
      }
    }

    /** `deleteExercise`: nothing without a current day or without the
        user's confirmation; otherwise the request is sent (`deleted` tells
        whether it succeeded) and only a success removes the entry, from the
        current day alone. */
    method DeleteExercise(id: string, confirmed: bool, deleted: bool) returns (sent: bool)
      modifies this
      ensures sent <==> CurrentDay(old(workoutDays), old(selectedDay)).Some? && confirmed
      ensures sent && deleted ==>
        workoutDays == WithoutEntry(old(workoutDays), CurrentDay(old(workoutDays), old(selectedDay)).value.id, id)
      ensures !sent || !deleted ==> workoutDays == old(workoutDays)
      ensures planId == old(planId) && globalExercises == old(globalExercises) && selectedDay == old(selectedDay)
      ensures isModalOpen == old(isModalOpen) && isSecondModalOpen == old(isSecondModalOpen)
      ensures editingExercise == old(editingExercise)
    {
      var current := CurrentDay(workoutDays, selectedDay);
      if current.None? || !confirmed {
        return false;
      }
      sent := true;
      if deleted {
        workoutDays := WithoutEntry(workoutDays, current.value.id, id);
      }
    }
  }
}
