/**
  The exercise entity: the `ExerciseDifficulty` enum, the `exercises` table's
  columns and the field rules of `ExerciseSchema`.
*/
module ExerciseModel {
  import opened Wrappers
  import opened Zod
  import Tables

  datatype Difficulty = EASY | MEDIUM | HARD

  function DifficultyName(d: Difficulty): string {
    match d
    case EASY => "EASY"
    case MEDIUM => "MEDIUM"
    case HARD => "HARD"
  }

  const DifficultyNames: seq<string> := ["EASY", "MEDIUM", "HARD"]

  function DifficultyFromName(s: string): (r: Option<Difficulty>)
    ensures r.Some? <==> s in DifficultyNames
    ensures r.Some? ==> DifficultyName(r.value) == s
  {
    if s == "EASY" then Some(EASY)
    else if s == "MEDIUM" then Some(MEDIUM)
    else if s == "HARD" then Some(HARD)
    else None
  }

  lemma DifficultyNameRoundTrip(d: Difficulty)
    ensures DifficultyFromName(DifficultyName(d)) == Some(d)
  {
  }

  /** `ExerciseSchema.difficulty`, i.e. `z.nativeEnum(ExerciseDifficulty)`. */
  function DifficultySchema(v: Value): (r: Result<Difficulty, Issue>)
    ensures r.Success? <==> v.Str? && v.s in DifficultyNames
    ensures r.Success? ==> DifficultyName(r.value) == v.s
  {
    match v
    case Str(s) =>
      (match DifficultyFromName(s)
       case Some(d) => Success(d)
       case None => Failure(Issue(InvalidEnumValue(DifficultyNames), [])))
    case Number(_) => Failure(Issue(InvalidEnumValue(DifficultyNames), []))
    case _ => Failure(Issue(InvalidType("'EASY' | 'MEDIUM' | 'HARD'", TypeName(v)), []))
  }

  /** A row of `exercises`; `programId` is the nullable foreign key. */
  datatype Exercise = Exercise(id: int, name: string, difficulty: Difficulty, programId: Option<int>)

  /** `ExerciseSchema.id`. */
  predicate ValidId(id: int) {
    id >= 1
  }

  /** `ExerciseSchema.name`: 1 to 200 UTF-16 units. */
  predicate ValidExerciseName(s: string) {
    1 <= Utf16Length(s) <= 200
  }

  /** `ExerciseSchema.programId`: null, or a number >= 1. */
  predicate ValidProgramRef(programId: Option<int>) {
    programId.None? || programId.value >= 1
  }

  /** The `ExerciseSchema` rules an exercise's fields follow. */
  predicate FollowsSchema(e: Exercise) {
    ValidId(e.id) && ValidExerciseName(e.name) && ValidProgramRef(e.programId)
  }

  /** What a stored row meets: a serial id, a name within STRING(200)
      (counted in characters), and a program reference that is null or a key. */
  predicate FitsColumns(e: Exercise) {
    e.id >= 1 && |e.name| <= 200 && ValidProgramRef(e.programId)
  }

  /** An exercise whose schema fields are valid fits the table's columns. */
  lemma SchemaFitsColumns(e: Exercise)
    requires FollowsSchema(e)
    ensures FitsColumns(e)
  {
    Utf16LengthBounds(e.name);
  }

  /** The unique index on `name`. */
  predicate UniqueNames(rows: seq<Exercise>) {
    forall i, j :: 0 <= i < j < |rows| ==> rows[i].name != rows[j].name
  }

  function WithName(name: string): Exercise -> bool {
    (e: Exercise) => e.name == name
  }

  /** Under the unique index, a name selects at most one exercise. */
  lemma UniqueNamesAtMostOne(rows: seq<Exercise>, name: string)
    requires UniqueNames(rows)
    ensures |Tables.Filter(rows, WithName(name))| <= 1
  {
    Tables.FilterAtMostOne(rows, WithName(name));
  }
}
