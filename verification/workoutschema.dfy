/** `workoutExerciseSchema` and `workoutSchema`, whose `exercises` is an optional list of the former. */
module WorkoutSchema {
  import opened Wrappers
  import opened JsText
  import opened Zod
  import opened SharedFields

  const ExerciseNameBounds: Bounds :=
    Bounds(1, Some(100), Some("Exercise name is required"), Some("Exercise name must be less than 100 characters"))
  const NotesBounds: Bounds :=
    Bounds(0, Some(1000), None, Some("Notes must be less than 1000 characters"))
  const NameBounds: Bounds :=
    Bounds(1, Some(100), Some("Workout name is required"), Some("Name must be less than 100 characters"))

  const SetsChecks: seq<NumberCheck> := [Integer, Positive(None), AtMost(100.0, None)]
  const RepsChecks: seq<NumberCheck> := [Integer, Positive(None), AtMost(1000.0, None)]
  const WeightChecks: seq<NumberCheck> := [Positive(None), AtMost(10000.0, None)]
  const OrderChecks: seq<NumberCheck> := [Integer, NonNegative]
  const DurationChecks: seq<NumberCheck> := [Integer, Positive(None), AtMost(1440.0, None)]

  /** An exercise accepted by `workoutExerciseSchema`, normalised. */
  datatype WorkoutExercise = WorkoutExercise(
    exerciseName: string,
    sets: Field<real>,
    reps: Field<real>,
    weight: Field<real>,
    notes: Field<string>,
    orderIndex: real)

  /** A workout accepted by `workoutSchema`, normalised. */
  datatype WorkoutInput = WorkoutInput(
    name: string,
    workoutDate: string,
    durationMinutes: Field<real>,
    notes: Field<string>,
    exercises: Option<seq<WorkoutExercise>>)

  predicate NotesOk(x: Value) { Nullish(x) || TrimmedIn(x, 0, 1000) }
  predicate WeightOk(x: Value) { Nullish(x) || (x.Num? && 0.0 < x.n <= 10000.0) }
  predicate OrderOk(x: Value) { x.Undefined? || (x.Num? && IsInteger(x.n) && x.n >= 0.0) }

  /** The inputs `workoutExerciseSchema` accepts. */
  predicate ValidExercise(v: Value) {
    && v.Obj?
    && TrimmedIn(Get(v, "exercise_name"), 1, 100)
    && (Nullish(Get(v, "sets")) || IntegerIn(Get(v, "sets"), 1, 100))
    && (Nullish(Get(v, "reps")) || IntegerIn(Get(v, "reps"), 1, 1000))
    && WeightOk(Get(v, "weight"))
    && NotesOk(Get(v, "notes"))
    && OrderOk(Get(v, "order_index"))
  }

  /** The inputs `workoutSchema` accepts. */
  predicate ValidWorkout(v: Value) {
    && v.Obj?
    && TrimmedIn(Get(v, "name"), 1, 100)
    && NonEmptyText(Get(v, "workout_date"))
    && (Nullish(Get(v, "duration_minutes")) || IntegerIn(Get(v, "duration_minutes"), 1, 1440))
    && NotesOk(Get(v, "notes"))
    && (Get(v, "exercises").Undefined? || (Get(v, "exercises").Arr? && AllValid(Get(v, "exercises").items)))
  }

  /** An optional nullable whole number in `1..hi`. */
  function BoundedCount(v: Value, key: string, path: seq<PathSeg>, hi: int): (r: Parsed<Field<real>>)
    requires v.Obj? && hi >= 1
    ensures r.Success? <==> Nullish(Get(v, key)) || IntegerIn(Get(v, key), 1, hi)
    ensures r.Success? ==> (Get(v, key).Undefined? <==> r.value.Omitted?)
    ensures r.Success? ==> (Get(v, key).Null? <==> r.value.NullValue?)
    ensures r.Success? && r.value.Given? ==> Get(v, key).Num? && r.value.value == Get(v, key).n
    ensures Reported(r)
  {
    var x := Get(v, key);
    IntegerPositiveAtMost(if x.Num? then x.n else 0.0, hi);
    OptionalNullable(x, Number(x, path + [Key(key)], [Integer, Positive(None), AtMost(hi as real, None)]))
  }

  function NotesField(v: Value, path: seq<PathSeg>): (r: Parsed<Field<string>>)
    requires v.Obj?
    ensures r.Success? <==> NotesOk(Get(v, "notes"))
    ensures r.Success? ==> (Get(v, "notes").Undefined? <==> r.value.Omitted?)
    ensures r.Success? ==> (Get(v, "notes").Null? <==> r.value.NullValue?)
    ensures r.Success? && r.value.Given? ==> Get(v, "notes").Str? && r.value.value == Trim(Get(v, "notes").s)
    ensures Reported(r)
  {
    OptionalNullable(Get(v, "notes"), TrimmedText(Get(v, "notes"), path + [Key("notes")], NotesBounds))
  }

  function ExerciseNameField(v: Value, path: seq<PathSeg>): (r: Parsed<string>)
    requires v.Obj?
    ensures r.Success? <==> TrimmedIn(Get(v, "exercise_name"), 1, 100)
    ensures r.Success? ==> r.value == Trim(Get(v, "exercise_name").s)
    ensures Reported(r)
  {
    TrimmedText(Get(v, "exercise_name"), path + [Key("exercise_name")], ExerciseNameBounds)
  }

  function WeightField(v: Value, path: seq<PathSeg>): (r: Parsed<Field<real>>)
    requires v.Obj?
    ensures r.Success? <==> WeightOk(Get(v, "weight"))
    ensures r.Success? ==> (Get(v, "weight").Undefined? <==> r.value.Omitted?)
    ensures r.Success? ==> (Get(v, "weight").Null? <==> r.value.NullValue?)
    ensures r.Success? && r.value.Given? ==> Get(v, "weight").Num? && r.value.value == Get(v, "weight").n
    ensures Reported(r)
  {
    var x := Get(v, "weight");
    PositiveAtMost(if x.Num? then x.n else 0.0, None, 10000.0, None);
    OptionalNullable(x, Number(x, path + [Key("weight")], WeightChecks))
  }

  function OrderField(v: Value, path: seq<PathSeg>): (r: Parsed<real>)
    requires v.Obj?
    ensures r.Success? <==> OrderOk(Get(v, "order_index"))
    ensures r.Success? ==> r.value == if Get(v, "order_index").Undefined? then 0.0 else Get(v, "order_index").n
    ensures Reported(r)
  {
    var x := Get(v, "order_index");
    IntegerNonNegative(if x.Num? then x.n else 0.0);
    WithDefault(x, 0.0, Number(x, path + [Key("order_index")], OrderChecks))
  }

  /** `workoutExerciseSchema` applied to `v`, found at `path`. */
  function ParseExercise(v: Value, path: seq<PathSeg>): (r: Parsed<WorkoutExercise>)
    ensures r.Success? <==> ValidExercise(v)
    ensures Reported(r)
  {
    if !v.Obj? then NotAnObject(path)
    else
      var name := ExerciseNameField(v, path);
      var sets := BoundedCount(v, "sets", path, 100);
      var reps := BoundedCount(v, "reps", path, 1000);
      var weight := WeightField(v, path);
      var notes := NotesField(v, path);
      var order := OrderField(v, path);
      if name.Success? && sets.Success? && reps.Success? && weight.Success? && notes.Success? && order.Success?
      then Success(WorkoutExercise(name.value, sets.value, reps.value, weight.value, notes.value, order.value))
      else
        Failure(IssuesOf(name) + IssuesOf(sets) + IssuesOf(reps) + IssuesOf(weight) + IssuesOf(notes)
                + IssuesOf(order))
  }

  /**
   * Where an exercise sits changes only the paths of its issues: parsed at
   * `q` rather than at `p`, it is accepted or rejected alike, an accepted
   * one gives the same output, and a rejected one reports the same issues
   * in the same order, each with the place `p` in its path replaced by `q`.
   */
  lemma ExercisePathFree(v: Value, p: seq<PathSeg>, q: seq<PathSeg>)
    ensures ParseExercise(v, q).Success? <==> ParseExercise(v, p).Success?
    ensures ParseExercise(v, p).Success? ==> ParseExercise(v, q) == ParseExercise(v, p)
    ensures ParseExercise(v, p).Failure? ==> ParseExercise(v, q).error == Relocated(ParseExercise(v, p).error, p, q)
  {
    if !v.Obj? {
      NotAnObjectMoved<WorkoutExercise>(p, q);
    } else {
      var name := ExerciseNameField(v, p);
      var sets := BoundedCount(v, "sets", p, 100);
      var reps := BoundedCount(v, "reps", p, 1000);
      var weight := WeightField(v, p);
      var notes := NotesField(v, p);
      var order := OrderField(v, p);
      TrimmedTextMoved(Get(v, "exercise_name"), [Key("exercise_name")], ExerciseNameBounds, p, q);
      CountMoved(v, "sets", 100, p, q);
      CountMoved(v, "reps", 1000, p, q);
      NumberMoved(Get(v, "weight"), [Key("weight")], WeightChecks, p, q);
      ModifiersMoved(Get(v, "weight"), 0.0, Number(Get(v, "weight"), p + [Key("weight")], WeightChecks),
                     Number(Get(v, "weight"), q + [Key("weight")], WeightChecks), p, q);
      TrimmedTextMoved(Get(v, "notes"), [Key("notes")], NotesBounds, p, q);
      ModifiersMoved(Get(v, "notes"), "", TrimmedText(Get(v, "notes"), p + [Key("notes")], NotesBounds),
                     TrimmedText(Get(v, "notes"), q + [Key("notes")], NotesBounds), p, q);
      NumberMoved(Get(v, "order_index"), [Key("order_index")], OrderChecks, p, q);
      ModifiersMoved(Get(v, "order_index"), 0.0, Number(Get(v, "order_index"), p + [Key("order_index")], OrderChecks),
                     Number(Get(v, "order_index"), q + [Key("order_index")], OrderChecks), p, q);
      assert ExerciseNameField(v, q) == RelocatedParse(name, p, q);
      assert BoundedCount(v, "sets", q, 100) == RelocatedParse(sets, p, q);
      assert BoundedCount(v, "reps", q, 1000) == RelocatedParse(reps, p, q);
      assert WeightField(v, q) == RelocatedParse(weight, p, q);
      assert NotesField(v, q) == RelocatedParse(notes, p, q);
      assert OrderField(v, q) == RelocatedParse(order, p, q);
      if ParseExercise(v, p).Failure? {
        var a := IssuesOf(name) + IssuesOf(sets) + IssuesOf(reps) + IssuesOf(weight) + IssuesOf(notes);
        RelocatedAppend(IssuesOf(name), IssuesOf(sets), p, q);
        RelocatedAppend(IssuesOf(name) + IssuesOf(sets), IssuesOf(reps), p, q);
        RelocatedAppend(IssuesOf(name) + IssuesOf(sets) + IssuesOf(reps), IssuesOf(weight), p, q);
        RelocatedAppend(IssuesOf(name) + IssuesOf(sets) + IssuesOf(reps) + IssuesOf(weight), IssuesOf(notes), p, q);
        RelocatedAppend(a, IssuesOf(order), p, q);
      }
    }
  }

  /** A bounded count of an exercise parsed at `q` rather than at `p`. */
  lemma CountMoved(v: Value, key: string, hi: int, p: seq<PathSeg>, q: seq<PathSeg>)
    requires v.Obj? && hi >= 1
    ensures BoundedCount(v, key, q, hi) == RelocatedParse(BoundedCount(v, key, p, hi), p, q)
  {
    var x := Get(v, key);
    var checks := [Integer, Positive(None), AtMost(hi as real, None)];
    NumberMoved(x, [Key(key)], checks, p, q);
    ModifiersMoved(x, 0.0, Number(x, p + [Key(key)], checks), Number(x, q + [Key(key)], checks), p, q);
  }

  lemma ExerciseParserReports()
    ensures forall v, path :: Reported(ParseExercise(v, path))
  {
  }

  /** Every item is a valid exercise. */
  predicate AllValid(items: seq<Value>) {
    forall i :: 0 <= i < |items| ==> ValidExercise(items[i])
  }

  function NameField(v: Value): (r: Parsed<string>)
    requires v.Obj?
    ensures r.Success? <==> TrimmedIn(Get(v, "name"), 1, 100)
    ensures r.Success? ==> r.value == Trim(Get(v, "name").s)
    ensures Reported(r)
  {
    TrimmedText(Get(v, "name"), [Key("name")], NameBounds)
  }

  /** `exercises: z.array(workoutExerciseSchema).optional()`. */
  function ExercisesField(v: Value): (r: Parsed<Option<seq<WorkoutExercise>>>)
    requires v.Obj?
    ensures r.Success? <==>
      (Get(v, "exercises").Undefined?
       || (Get(v, "exercises").Arr? && AllValid(Get(v, "exercises").items)))
    ensures r.Success? ==> (Get(v, "exercises").Undefined? <==> r.value.None?)
    ensures r.Success? && r.value.Some? ==>
      var items := Get(v, "exercises").items;
      && |r.value.value| == |items|
      && forall i :: 0 <= i < |items| ==> r.value.value[i] == ParseExercise(items[i], [Key("exercises"), Index(i)]).value
    ensures Reported(r)
  {
    var x := Get(v, "exercises");
    Optional(x, if x.Arr? then ArrayItems(x.items, [Key("exercises")], 0, ParseExercise)
                else Failure([Issue([Key("exercises")], InvalidType, None)]))
  }

  /** `workoutSchema.safeParse(v)`. */
  function ParseWorkout(v: Value): (r: Parsed<WorkoutInput>)
    ensures r.Success? <==> ValidWorkout(v)
    ensures Reported(r)
  {
    if !v.Obj? then NotAnObject([])
    else
      var name := NameField(v);
      var date := DateField(v, "workout_date");
      var duration := BoundedCount(v, "duration_minutes", [], 1440);
      var notes := NotesField(v, []);
      var exercises := ExercisesField(v);
      if name.Success? && date.Success? && duration.Success? && notes.Success? && exercises.Success?
      then Success(WorkoutInput(name.value, date.value, duration.value, notes.value, exercises.value))
      else Failure(IssuesOf(name) + IssuesOf(date) + IssuesOf(duration) + IssuesOf(notes) + IssuesOf(exercises))
  }

  // ---------------------------------------------------------------------
  // Normal forms and re-validation
  // ---------------------------------------------------------------------

  predicate CountIn(f: Field<real>, hi: int) {
    f.Given? ==> IsInteger(f.value) && 1.0 <= f.value <= hi as real
  }

  predicate NotesNormal(f: Field<string>) {
    f.Given? ==> IsTrimmed(f.value) && JsLength(f.value) <= 1000
  }

  /** The shape of every exercise the schema outputs. */
  predicate NormalExercise(e: WorkoutExercise) {
    && IsTrimmed(e.exerciseName) && 1 <= JsLength(e.exerciseName) <= 100
    && CountIn(e.sets, 100) && CountIn(e.reps, 1000)
    && (e.weight.Given? ==> 0.0 < e.weight.value <= 10000.0)
    && NotesNormal(e.notes)
    && IsInteger(e.orderIndex) && e.orderIndex >= 0.0
  }

  /** The shape of every workout the schema outputs. */
  predicate NormalWorkout(w: WorkoutInput) {
    && IsTrimmed(w.name) && 1 <= JsLength(w.name) <= 100
    && JsLength(w.workoutDate) >= 1
    && CountIn(w.durationMinutes, 1440)
    && NotesNormal(w.notes)
    && (w.exercises.Some? ==> forall i :: 0 <= i < |w.exercises.value| ==> NormalExercise(w.exercises.value[i]))
  }

  /**
   * What an accepted exercise holds: the name and notes trimmed, counts,
   * weight and order index as given, and an order index of 0 when none was
   * given.
   */
  lemma ExerciseNormalised(v: Value, path: seq<PathSeg>)
    requires ParseExercise(v, path).Success?
    ensures var e := ParseExercise(v, path).value;
      && e.exerciseName == Trim(Get(v, "exercise_name").s)
      && (Get(v, "order_index").Undefined? ==> e.orderIndex == 0.0)
      && (!Get(v, "order_index").Undefined? ==> e.orderIndex == Get(v, "order_index").n)
      && (Get(v, "sets").Undefined? <==> e.sets.Omitted?)
      && (Get(v, "sets").Null? <==> e.sets.NullValue?)
      && (e.sets.Given? ==> e.sets.value == Get(v, "sets").n)
      && (Get(v, "reps").Undefined? <==> e.reps.Omitted?)
      && (Get(v, "reps").Null? <==> e.reps.NullValue?)
      && (e.reps.Given? ==> e.reps.value == Get(v, "reps").n)
      && (Get(v, "weight").Undefined? <==> e.weight.Omitted?)
      && (Get(v, "weight").Null? <==> e.weight.NullValue?)
      && (e.weight.Given? ==> e.weight.value == Get(v, "weight").n)
      && (Get(v, "notes").Undefined? <==> e.notes.Omitted?)
      && (Get(v, "notes").Null? <==> e.notes.NullValue?)
      && (e.notes.Given? ==> e.notes.value == Trim(Get(v, "notes").s))
      && NormalExercise(e)
  {
    var e := ParseExercise(v, path).value;
    assert e == WorkoutExercise(ExerciseNameField(v, path).value, BoundedCount(v, "sets", path, 100).value,
      BoundedCount(v, "reps", path, 1000).value, WeightField(v, path).value, NotesField(v, path).value,
      OrderField(v, path).value);
  }

  /**
   * What an accepted workout holds: the name and notes trimmed, the date
   * and duration as given with absent and null kept apart, and every
   * exercise normalised.
   */
  lemma WorkoutNormalised(v: Value)
    requires ParseWorkout(v).Success?
    ensures var w := ParseWorkout(v).value;
      && w.name == Trim(Get(v, "name").s)
      && w.workoutDate == Get(v, "workout_date").s
      && (Get(v, "duration_minutes").Undefined? <==> w.durationMinutes.Omitted?)
      && (Get(v, "duration_minutes").Null? <==> w.durationMinutes.NullValue?)
      && (w.durationMinutes.Given? ==> w.durationMinutes.value == Get(v, "duration_minutes").n)
      && (Get(v, "notes").Undefined? <==> w.notes.Omitted?)
      && (Get(v, "notes").Null? <==> w.notes.NullValue?)
      && (w.notes.Given? ==> w.notes.value == Trim(Get(v, "notes").s))
      && (Get(v, "exercises").Undefined? <==> w.exercises.None?)
      && (w.exercises.Some? ==> |w.exercises.value| == |Get(v, "exercises").items|)
      && NormalWorkout(w)
  {
    var w := ParseWorkout(v).value;
    assert w == WorkoutInput(NameField(v).value, DateField(v, "workout_date").value,
      BoundedCount(v, "duration_minutes", [], 1440).value, NotesField(v, []).value, ExercisesField(v).value);
    if w.exercises.Some? {
      ExercisesNormalised(v);
    }
  }

  lemma ExercisesNormalised(v: Value)
    requires v.Obj? && ExercisesField(v).Success? && ExercisesField(v).value.Some?
    ensures forall i :: 0 <= i < |ExercisesField(v).value.value| ==> NormalExercise(ExercisesField(v).value.value[i])
  {
    var items := Get(v, "exercises").items;
    var es := ExercisesField(v).value.value;
    forall i | 0 <= i < |es|
      ensures NormalExercise(es[i])
    {
      ExerciseNormalised(items[i], [Key("exercises"), Index(i)]);
    }
  }

  function FieldNum(f: Field<real>): Value { FieldValue(f, NumValue) }
  function FieldStr(f: Field<string>): Value { FieldValue(f, StrValue) }

  /** A normalised exercise as the object a form would submit. */
  function EncodeExercise(e: WorkoutExercise): Value {
    Obj(map["exercise_name" := Str(e.exerciseName), "order_index" := Num(e.orderIndex)]
        + Entry("sets", FieldNum(e.sets)) + Entry("reps", FieldNum(e.reps))
        + Entry("weight", FieldNum(e.weight)) + Entry("notes", FieldStr(e.notes)))
  }

  function EncodeExercises(es: seq<WorkoutExercise>): (r: seq<Value>)
    ensures |r| == |es|
  {
    if es == [] then [] else [EncodeExercise(es[0])] + EncodeExercises(es[1..])
  }

  function ExercisesValue(es: Option<seq<WorkoutExercise>>): Value {
    if es.Some? then Arr(EncodeExercises(es.value)) else Undefined
  }

  /** A normalised workout as the object a form would submit. */
  function EncodeWorkout(w: WorkoutInput): Value {
    Obj(map["name" := Str(w.name), "workout_date" := Str(w.workoutDate)]
        + Entry("duration_minutes", FieldNum(w.durationMinutes)) + Entry("notes", FieldStr(w.notes))
        + Entry("exercises", ExercisesValue(w.exercises)))
  }

  lemma EncodeExerciseFields(e: WorkoutExercise)
    ensures Get(EncodeExercise(e), "exercise_name") == Str(e.exerciseName)
    ensures Get(EncodeExercise(e), "order_index") == Num(e.orderIndex)
    ensures Get(EncodeExercise(e), "sets") == FieldNum(e.sets)
    ensures Get(EncodeExercise(e), "reps") == FieldNum(e.reps)
    ensures Get(EncodeExercise(e), "weight") == FieldNum(e.weight)
    ensures Get(EncodeExercise(e), "notes") == FieldStr(e.notes)
  {
    EncodeExerciseRequired(e);
    EncodeExerciseCounts(e);
    EncodeExerciseExtras(e);
  }

  lemma EncodeExerciseRequired(e: WorkoutExercise)
    ensures Get(EncodeExercise(e), "exercise_name") == Str(e.exerciseName)
    ensures Get(EncodeExercise(e), "order_index") == Num(e.orderIndex)
  {
    var m0 := map["exercise_name" := Str(e.exerciseName), "order_index" := Num(e.orderIndex)];
    var m1 := m0 + Entry("sets", FieldNum(e.sets));
    var m2 := m1 + Entry("reps", FieldNum(e.reps));
    var m3 := m2 + Entry("weight", FieldNum(e.weight));
    assert EncodeExercise(e) == Obj(m3 + Entry("notes", FieldStr(e.notes)));
    forall k | k == "exercise_name" || k == "order_index"
      ensures Get(EncodeExercise(e), k) == Get(Obj(m0), k)
    {
      GetPastEntry(m3, "notes", FieldStr(e.notes), k);
      GetPastEntry(m2, "weight", FieldNum(e.weight), k);
      GetPastEntry(m1, "reps", FieldNum(e.reps), k);
      GetPastEntry(m0, "sets", FieldNum(e.sets), k);
    }
  }

  lemma EncodeExerciseCounts(e: WorkoutExercise)
    ensures Get(EncodeExercise(e), "sets") == FieldNum(e.sets)
    ensures Get(EncodeExercise(e), "reps") == FieldNum(e.reps)
  {
  }

  lemma EncodeExerciseExtras(e: WorkoutExercise)
    ensures Get(EncodeExercise(e), "weight") == FieldNum(e.weight)
    ensures Get(EncodeExercise(e), "notes") == FieldStr(e.notes)
  {
  }

  lemma EncodedCount(v: Value, key: string, path: seq<PathSeg>, hi: int, f: Field<real>)
    requires v.Obj? && hi >= 1 && Get(v, key) == FieldNum(f) && CountIn(f, hi)
    ensures BoundedCount(v, key, path, hi) == Success(f)
  {
  }

  lemma EncodedExerciseNumbers(x: Value, e: WorkoutExercise, path: seq<PathSeg>)
    requires x.Obj? && NormalExercise(e)
    requires Get(x, "sets") == FieldNum(e.sets) && Get(x, "reps") == FieldNum(e.reps)
    requires Get(x, "weight") == FieldNum(e.weight) && Get(x, "order_index") == Num(e.orderIndex)
    ensures BoundedCount(x, "sets", path, 100) == Success(e.sets)
    ensures BoundedCount(x, "reps", path, 1000) == Success(e.reps)
    ensures WeightField(x, path) == Success(e.weight)
    ensures OrderField(x, path) == Success(e.orderIndex)
  {
    EncodedCount(x, "sets", path, 100, e.sets);
    EncodedCount(x, "reps", path, 1000, e.reps);
  }

  lemma EncodedExerciseTexts(x: Value, e: WorkoutExercise, path: seq<PathSeg>)
    requires x.Obj? && NormalExercise(e)
    requires Get(x, "exercise_name") == Str(e.exerciseName) && Get(x, "notes") == FieldStr(e.notes)
    ensures ExerciseNameField(x, path) == Success(e.exerciseName)
    ensures NotesField(x, path) == Success(e.notes)
  {
    TrimmedTextOfTrimmed(e.exerciseName, path + [Key("exercise_name")], ExerciseNameBounds);
    if e.notes.Given? {
      TrimmedTextOfTrimmed(e.notes.value, path + [Key("notes")], NotesBounds);
    }
  }

  lemma ParseExerciseFromFields(x: Value, path: seq<PathSeg>, e: WorkoutExercise)
    requires x.Obj?
    requires ExerciseNameField(x, path) == Success(e.exerciseName)
    requires BoundedCount(x, "sets", path, 100) == Success(e.sets)
    requires BoundedCount(x, "reps", path, 1000) == Success(e.reps)
    requires WeightField(x, path) == Success(e.weight)
    requires NotesField(x, path) == Success(e.notes)
    requires OrderField(x, path) == Success(e.orderIndex)
    ensures ParseExercise(x, path) == Success(e)
  {
  }

  /** Every normalised exercise, submitted as an object, is accepted unchanged. */
  lemma ExerciseRoundTrip(e: WorkoutExercise, path: seq<PathSeg>)
    requires NormalExercise(e)
    ensures ParseExercise(EncodeExercise(e), path) == Success(e)
  {
    EncodeExerciseFields(e);
    var x := EncodeExercise(e);
    EncodedExerciseNumbers(x, e, path);
    EncodedExerciseTexts(x, e, path);
    ParseExerciseFromFields(x, path, e);
  }

  /** A list of normalised exercises is accepted unchanged, item by item. */
  lemma ExerciseListRoundTrip(es: seq<WorkoutExercise>, path: seq<PathSeg>)
    requires forall i :: 0 <= i < |es| ==> NormalExercise(es[i])
    ensures ArrayItems(EncodeExercises(es), path, 0, ParseExercise) == Success(es)
  {
    assert AllNormal(es);
    EncodedExerciseItems(es, path);
    ExerciseParserReports();
    ArrayItemsOf(EncodeExercises(es), path, 0, ParseExercise, es);
  }

  /** Every exercise of the list is in normal form. */
  ghost predicate AllNormal(es: seq<WorkoutExercise>) {
    forall i :: 0 <= i < |es| ==> NormalExercise(es[i])
  }

  lemma EncodedExerciseItems(es: seq<WorkoutExercise>, path: seq<PathSeg>)
    requires AllNormal(es)
    ensures ItemsParseTo(EncodeExercises(es), path, 0, ParseExercise, es)
  {
    forall i | 0 <= i < |es| {
      EncodedExerciseItem(es, path, i);
    }
  }

  lemma EncodedExerciseItem(es: seq<WorkoutExercise>, path: seq<PathSeg>, i: nat)
    requires i < |es| && AllNormal(es)
    ensures ItemParsesTo(EncodeExercises(es)[i], path + [Index(i)], ParseExercise, es[i])
  {
    EncodeExercisesAt(es, i);
    ExerciseRoundTrip(es[i], path + [Index(i)]);
  }

  lemma {:induction false} EncodeExercisesAt(es: seq<WorkoutExercise>, i: nat)
    requires i < |es|
    ensures EncodeExercises(es)[i] == EncodeExercise(es[i])
  {
    if i > 0 {
      EncodeExercisesAt(es[1..], i - 1);
    }
  }

  lemma EncodeWorkoutFields(w: WorkoutInput)
    ensures Get(EncodeWorkout(w), "name") == Str(w.name)
    ensures Get(EncodeWorkout(w), "workout_date") == Str(w.workoutDate)
    ensures Get(EncodeWorkout(w), "duration_minutes") == FieldNum(w.durationMinutes)
    ensures Get(EncodeWorkout(w), "notes") == FieldStr(w.notes)
    ensures Get(EncodeWorkout(w), "exercises") == ExercisesValue(w.exercises)
  {
    EncodeWorkoutRequired(w);
    EncodeWorkoutOptional(w);
  }

  lemma EncodeWorkoutRequired(w: WorkoutInput)
    ensures Get(EncodeWorkout(w), "name") == Str(w.name)
    ensures Get(EncodeWorkout(w), "workout_date") == Str(w.workoutDate)
  {
    var m0 := map["name" := Str(w.name), "workout_date" := Str(w.workoutDate)];
    var m1 := m0 + Entry("duration_minutes", FieldNum(w.durationMinutes));
    var m2 := m1 + Entry("notes", FieldStr(w.notes));
    assert EncodeWorkout(w) == Obj(m2 + Entry("exercises", ExercisesValue(w.exercises)));
    forall k | k == "name" || k == "workout_date"
      ensures Get(EncodeWorkout(w), k) == Get(Obj(m0), k)
    {
      GetPastEntry(m2, "exercises", ExercisesValue(w.exercises), k);
      GetPastEntry(m1, "notes", FieldStr(w.notes), k);
      GetPastEntry(m0, "duration_minutes", FieldNum(w.durationMinutes), k);
    }
  }

  lemma EncodeWorkoutOptional(w: WorkoutInput)
    ensures Get(EncodeWorkout(w), "duration_minutes") == FieldNum(w.durationMinutes)
    ensures Get(EncodeWorkout(w), "notes") == FieldStr(w.notes)
    ensures Get(EncodeWorkout(w), "exercises") == ExercisesValue(w.exercises)
  {
  }

  lemma EncodedWorkoutTexts(x: Value, w: WorkoutInput)
    requires x.Obj? && NormalWorkout(w)
    requires Get(x, "name") == Str(w.name) && Get(x, "workout_date") == Str(w.workoutDate)
    requires Get(x, "notes") == FieldStr(w.notes)
    ensures NameField(x) == Success(w.name)
    ensures DateField(x, "workout_date") == Success(w.workoutDate)
    ensures NotesField(x, []) == Success(w.notes)
  {
    TrimmedTextOfTrimmed(w.name, [Key("name")], NameBounds);
    if w.notes.Given? {
      TrimmedTextOfTrimmed(w.notes.value, [] + [Key("notes")], NotesBounds);
    }
  }

  lemma EncodedWorkoutExercises(x: Value, w: WorkoutInput)
    requires x.Obj? && NormalWorkout(w) && Get(x, "exercises") == ExercisesValue(w.exercises)
    ensures ExercisesField(x) == Success(w.exercises)
  {
    if w.exercises.Some? {
      ExerciseListRoundTrip(w.exercises.value, [Key("exercises")]);
    }
  }

  lemma ParseWorkoutFromFields(x: Value, w: WorkoutInput)
    requires x.Obj?
    requires NameField(x) == Success(w.name) && DateField(x, "workout_date") == Success(w.workoutDate)
    requires BoundedCount(x, "duration_minutes", [], 1440) == Success(w.durationMinutes)
    requires NotesField(x, []) == Success(w.notes)
    requires ExercisesField(x) == Success(w.exercises)
    ensures ParseWorkout(x) == Success(w)
  {
  }

  /** Every normalised workout, submitted as an object, is accepted unchanged. */
  lemma WorkoutRoundTrip(w: WorkoutInput)
    requires NormalWorkout(w)
    ensures ParseWorkout(EncodeWorkout(w)) == Success(w)
  {
    EncodeWorkoutFields(w);
    var x := EncodeWorkout(w);
    EncodedWorkoutTexts(x, w);
    EncodedCount(x, "duration_minutes", [], 1440, w.durationMinutes);
    EncodedWorkoutExercises(x, w);
    ParseWorkoutFromFields(x, w);
  }

  /** Re-validating a validated workout gives the same workout back. */
  lemma WorkoutRevalidation(v: Value)
    requires ParseWorkout(v).Success?
    ensures ParseWorkout(EncodeWorkout(ParseWorkout(v).value)) == ParseWorkout(v)
  {
    WorkoutNormalised(v);
    WorkoutRoundTrip(ParseWorkout(v).value);
  }

  /** Re-validating a validated exercise gives the same exercise back. */
  lemma ExerciseRevalidation(v: Value, path: seq<PathSeg>)
    requires ParseExercise(v, path).Success?
    ensures ParseExercise(EncodeExercise(ParseExercise(v, path).value), path) == ParseExercise(v, path)
  {
    ExerciseNormalised(v, path);
    ExerciseRoundTrip(ParseExercise(v, path).value, path);
  }

  /** A workout name of whitespace only is rejected with its "required" message. */
  lemma BlankWorkoutNameRejected(v: Value)
    requires v.Obj? && Blank(Get(v, "name"))
    ensures ParseWorkout(v).Failure?
    ensures Issue([Key("name")], TooSmall, Some("Workout name is required")) in ParseWorkout(v).error
  {
    BlankTextTooShort(Get(v, "name"), [Key("name")], NameBounds);
  }

  /** One invalid exercise rejects the whole workout. */
  lemma InvalidExerciseRejectsWorkout(v: Value, i: nat)
    requires v.Obj? && Get(v, "exercises").Arr?
    requires i < |Get(v, "exercises").items| && !ValidExercise(Get(v, "exercises").items[i])
    ensures ParseWorkout(v).Failure?
  {
  }
}
