/**
  `ExerciseRepository`: the `exercises` table in memory, rows in insertion
  order, with the database's own guarantees (fresh ids from the id sequence,
  the unique index on `name`, the STRING(200) limit on `name`).
*/
module ExerciseRepo {
  import opened Wrappers
  import opened Tables
  import opened SqlLike
  import opened ExerciseModel

  /** The database errors an insert or update of `exercises` can raise. */
  datatype StorageError = UniqueViolation(column: string) | ValueTooLong(column: string)

  /** The fields `update` may set; `None` means the key is absent from the body. */
  datatype ExercisePatch = ExercisePatch(name: Option<string>, difficulty: Option<Difficulty>)

  /** The WHERE clause of `list`: `programId` only when it is truthy (present
      and not 0), the name search only when it is a non-empty string. */
  predicate Matches(e: Exercise, programId: Option<int>, search: Option<string>) {
    (programId.Some? && programId.value != 0 ==> e.programId == Some(programId.value))
    && (search.Some? && search.value != "" ==> ILike(e.name, ContainsPattern(search.value)))
  }

  function Where(programId: Option<int>, search: Option<string>): Exercise -> bool {
    (e: Exercise) => Matches(e, programId, search)
  }

  function HasId(id: int): Exercise -> bool {
    (e: Exercise) => e.id == id
  }

  function OtherThan(id: int): Exercise -> bool {
    (e: Exercise) => e.id != id
  }

  predicate NameTaken(rows: seq<Exercise>, name: string) {
    exists i :: 0 <= i < |rows| && rows[i].name == name
  }

  /** A row other than the one with primary key `id` holds `name`. */
  predicate NameTakenByOther(rows: seq<Exercise>, name: string, id: int) {
    exists i :: 0 <= i < |rows| && rows[i].name == name && rows[i].id != id
  }

  predicate AllSpaces(s: string) {
    forall i :: 0 <= i < |s| ==> s[i] == ' '
  }

  /** Writing text into the STRING(200) column, i.e. PostgreSQL's
      `character varying(200)`: text of at most 200 characters is stored as
      it is, an excess made only of spaces is cut off, any other excess is
      an error. */
  function StoredName(name: string): (r: Result<string, StorageError>)
    ensures r.Success? <==> |name| <= 200 || AllSpaces(name[200..])
    ensures r.Success? ==> |r.value| == Min(|name|, 200) && r.value == name[..|r.value|]
    ensures r.Failure? ==> r.error == ValueTooLong("name")
  {
    if |name| <= 200 then Success(name)
    else if AllSpaces(name[200..]) then Success(name[..200])
    else Failure(ValueTooLong("name"))
  }

  /** A stored name is stored again unchanged. */
  lemma StoredNameIdempotent(name: string)
    requires StoredName(name).Success?
    ensures StoredName(StoredName(name).value) == StoredName(name)
  {
  }

  /** A 200-character name followed by spaces is stored without them. */
  lemma StoredNameDropsTrailingSpaces(name: string, spaces: string)
    requires |name| == 200 && spaces != [] && AllSpaces(spaces)
    ensures StoredName(name + spaces) == Success(name)
  {
    assert (name + spaces)[200..] == spaces;
    assert (name + spaces)[..200] == name;
  }

  /** Two different rows: distinct primary keys and distinct names. */
  predicate Apart(a: Exercise, b: Exercise) {
    a.id != b.id && a.name != b.name
  }

  /** The table's invariant: ids drawn from the sequence below `nextId`,
      every row within its columns, and no two rows sharing an id or a name. */
  ghost predicate TableValid(rows: seq<Exercise>, nextId: int) {
    && nextId >= 1
    && (forall i :: 0 <= i < |rows| ==> rows[i].id < nextId && FitsColumns(rows[i]))
    && (forall i, j :: 0 <= i < j < |rows| ==> Apart(rows[i], rows[j]))
  }

  /** Inserting a row with the next id and an unused name that fits keeps the invariant. */
  lemma InsertKeepsValid(rows: seq<Exercise>, nextId: int, e: Exercise)
    requires TableValid(rows, nextId)
    requires e.id == nextId && FitsColumns(e) && !NameTaken(rows, e.name)
    ensures TableValid(rows + [e], nextId + 1)
  {
    assert forall i :: 0 <= i < |rows| ==> Apart(rows[i], e);
    AppendKeepsPairwise(rows, e, Apart);
    forall i | 0 <= i < |rows + [e]|
      ensures (rows + [e])[i].id < nextId + 1 && FitsColumns((rows + [e])[i])
    {
      if i < |rows| {
        assert (rows + [e])[i] == rows[i];
      }
    }
  }

  /** Replacing a row by one with the same key, columns that fit and a name no
      other row holds keeps the invariant. */
  lemma ReplaceKeepsValid(rows: seq<Exercise>, nextId: int, k: nat, e: Exercise)
    requires TableValid(rows, nextId) && k < |rows|
    requires e.id == rows[k].id && FitsColumns(e) && !NameTakenByOther(rows, e.name, e.id)
    ensures TableValid(rows[k := e], nextId)
  {
    var updated := rows[k := e];
    forall i, j | 0 <= i < j < |updated|
      ensures Apart(updated[i], updated[j])
    {
      if i == k {
        assert rows[j].id != e.id && updated[j] == rows[j];
      } else if j == k {
        assert rows[i].id != e.id && updated[i] == rows[i];
      } else {
        assert Apart(rows[i], rows[j]);
      }
    }
  }

  /** A row's own name is stored unchanged and held by no other row. */
  lemma CurrentNameFree(rows: seq<Exercise>, nextId: int, k: nat)
    requires TableValid(rows, nextId) && k < |rows|
    ensures StoredName(rows[k].name) == Success(rows[k].name)
    ensures !NameTakenByOther(rows, rows[k].name, rows[k].id)
  {
    forall i | 0 <= i < |rows| && i != k
      ensures rows[i].name != rows[k].name
    {
      if i < k {
        assert Apart(rows[i], rows[k]);
      } else {
        assert Apart(rows[k], rows[i]);
      }
    }
  }

  /** Deleting by primary key keeps the invariant. */
  lemma RemoveKeepsValid(rows: seq<Exercise>, nextId: int, id: int)
    requires TableValid(rows, nextId)
    ensures TableValid(Filter(rows, OtherThan(id)), nextId)
  {
    FilterKeepsPairwise(rows, OtherThan(id), Apart);
    var kept := Filter(rows, OtherThan(id));
    forall i | 0 <= i < |kept|
      ensures kept[i].id < nextId && FitsColumns(kept[i])
    {
      var j :| 0 <= j < |rows| && rows[j] == kept[i];
    }
  }

  class ExerciseRepository {
    /** The table, in insertion order. */
    var rows: seq<Exercise>
    /** The next value of the id sequence. */
    var nextId: int

    ghost predicate Valid()
      reads this
    {
      TableValid(rows, nextId)
    }

    constructor ()
      ensures Valid()
      ensures rows == [] && nextId == 1
    {
      rows := [];
      nextId := 1;
    }

    /** `create({ name, difficulty })`: inserts a row with a fresh id, the
        name as the column stores it, and no program. */
    method Create(name: string, difficulty: Difficulty) returns (r: Result<Exercise, StorageError>)
      requires Valid()
      modifies this
      ensures Valid()
      ensures StoredName(name).Failure? ==> r == Failure(ValueTooLong("name"))
      ensures StoredName(name).Success? && NameTaken(old(rows), StoredName(name).value) ==>
                r == Failure(UniqueViolation("name"))
      ensures r.Success? <==> StoredName(name).Success? && !NameTaken(old(rows), StoredName(name).value)
      ensures r.Failure? ==> rows == old(rows) && nextId == old(nextId)
      ensures r.Success? ==>
                && r.value == Exercise(old(nextId), StoredName(name).value, difficulty, None)
                && rows == old(rows) + [r.value]
                && nextId == old(nextId) + 1
                && FindOneById(r.value.id) == Some(r.value)
    {
      var stored := StoredName(name);
      if stored.Failure? {
        return Failure(stored.error);
      }
      if NameTaken(rows, stored.value) {
        return Failure(UniqueViolation("name"));
      }
      var e := Exercise(nextId, stored.value, difficulty, None);
      InsertKeepsValid(rows, nextId, e);
      FindFirstAppended(rows, e, HasId(e.id));
      rows := rows + [e];
      nextId := nextId + 1;
      r := Success(e);
    }

    /** `findOneById({ id })`: the row with that primary key, or null. */
    function FindOneById(id: int): (r: Option<Exercise>)
      reads this
      ensures r.Some? ==> r.value in rows && r.value.id == id
      ensures r.None? <==> forall i :: 0 <= i < |rows| ==> rows[i].id != id
    {
      FindFirst(rows, HasId(id))
    }

    /** `list({ limit, page, programId, search })`: the matching rows from
        offset limit * page, at most limit of them. */
    function List(limit: nat, page: nat, programId: Option<int>, search: Option<string>): (r: seq<Exercise>)
      reads this
      ensures |r| <= limit
      ensures forall i :: 0 <= i < |r| ==> r[i] in rows && Matches(r[i], programId, search)
      ensures var selected, offset := Filter(rows, Where(programId, search)), Offset(limit, page);
              && (offset < |selected| ==>
                    |r| == Min(limit, |selected| - offset) && r == selected[offset .. offset + |r|])
              && (offset >= |selected| ==> r == [])
    {
      Paginate(Filter(rows, Where(programId, search)), limit, page)
    }

    /** `update({ exercise, body })`: sets the fields present in `body` on the
        row of `exercise`. Only a name that differs from the current one is
        written, so only such a name meets the column's rules; the current
        name always meets them, so the outcome is stated for the new name
        whether or not it is written. The instance handed back holds the
        name as set and the row holds it as stored, since an update of an
        existing record reads nothing back. */
    method Update(exercise: Exercise, body: ExercisePatch) returns (r: Result<Exercise, StorageError>)
      requires Valid()
      requires exercise in rows
      modifies this
      ensures Valid()
      ensures nextId == old(nextId)
      ensures var stored := StoredName(body.name.GetOr(exercise.name));
              && (stored.Failure? ==> r == Failure(ValueTooLong("name")))
              && (stored.Success? && NameTakenByOther(old(rows), stored.value, exercise.id) ==>
                    r == Failure(UniqueViolation("name")))
              && (r.Success? <==> stored.Success? && !NameTakenByOther(old(rows), stored.value, exercise.id))
              && (r.Success? ==> r.value.name == body.name.GetOr(exercise.name))
              && (r.Success? ==>
                    && |rows| == |old(rows)|
                    && forall i :: 0 <= i < |rows| ==>
                         rows[i] == (if old(rows)[i].id == exercise.id then r.value.(name := stored.value)
                                     else old(rows)[i]))
      ensures r.Failure? ==> rows == old(rows)
      ensures r.Success? ==>
                && r.value.id == exercise.id
                && r.value.programId == exercise.programId
                && r.value.difficulty == body.difficulty.GetOr(exercise.difficulty)
    {
      var k :| 0 <= k < |rows| && rows[k] == exercise;
      CurrentNameFree(rows, nextId, k);
      var name := exercise.name;
      if body.name.Some? && body.name.value != exercise.name {
        var stored := StoredName(body.name.value);
        if stored.Failure? {
          return Failure(stored.error);
        }
        if NameTakenByOther(rows, stored.value, exercise.id) {
          return Failure(UniqueViolation("name"));
        }
        name := stored.value;
      }
      var updated := Exercise(exercise.id, name, body.difficulty.GetOr(exercise.difficulty), exercise.programId);
      assert forall i :: 0 <= i < |rows| ==> (rows[i].id == exercise.id <==> i == k);
      ReplaceKeepsValid(rows, nextId, k, updated);
      rows := rows[k := updated];
      r := Success(updated.(name := body.name.GetOr(exercise.name)));
    }

    /** `delete({ exercise })`: removes the row with the exercise's primary key. */
    method Delete(exercise: Exercise)
      requires Valid()
      modifies this
      ensures Valid()
      ensures nextId == old(nextId)
      ensures rows == Filter(old(rows), OtherThan(exercise.id))
      ensures exercise in old(rows) ==> |rows| == |old(rows)| - 1
    {
      RemoveKeepsValid(rows, nextId, exercise.id);
      if exercise in rows {
        var k :| 0 <= k < |rows| && rows[k] == exercise;
        FilterDropsOne(rows, OtherThan(exercise.id), k);
      }
      rows := Filter(rows, OtherThan(exercise.id));
    }
  }

  /** Falsy filter arguments are no filter: a program id of 0 lists every
      program's exercises, an empty search every name. */
  lemma FalsyFiltersIgnored(repo: ExerciseRepository, limit: nat, page: nat, programId: Option<int>, search: Option<string>)
    ensures repo.List(limit, page, Some(0), search) == repo.List(limit, page, None, search)
    ensures repo.List(limit, page, programId, Some("")) == repo.List(limit, page, programId, None)
  {
    FilterSame(repo.rows, Where(Some(0), search), Where(None, search));
    FilterSame(repo.rows, Where(programId, Some("")), Where(programId, None));
  }

  /** With a program id, every listed exercise belongs to that program. */
  lemma ListByProgram(repo: ExerciseRepository, limit: nat, page: nat, programId: int, search: Option<string>)
    requires programId != 0
    ensures forall e :: e in repo.List(limit, page, Some(programId), search) ==> e.programId == Some(programId)
  {
  }

  /** With a search text free of LIKE wildcards, every listed name contains it, ignoring case. */
  lemma ListSearchContains(repo: ExerciseRepository, limit: nat, page: nat, programId: Option<int>, search: string)
    requires search != "" && NoWildcards(search)
    ensures forall e :: e in repo.List(limit, page, programId, Some(search)) ==>
              Contains(Lower(e.name), Lower(search))
  {
    forall e | e in repo.List(limit, page, programId, Some(search))
      ensures Contains(Lower(e.name), Lower(search))
    {
      ILikeContains(e.name, search);
    }
  }

  /** Under the table's invariant, listing by a name returns at most one exercise. */
  lemma NameAtMostOnce(repo: ExerciseRepository, name: string)
    requires repo.Valid()
    ensures |Filter(repo.rows, WithName(name))| <= 1
  {
    UniqueNamesAtMostOne(repo.rows, name);
  }
}
