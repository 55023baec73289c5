# good-request core in Dafny

A model of the logic of good-request, an Express/Sequelize REST service for fitness
programs, exercises, tracked exercise sessions and users. The model covers, and proves
properties about:

- the query-parameter validators (`limit`, `page`, `programId`, `search`, `id`);
- the zod request schemas of the exercise, program and user routes, with strict objects
  rejecting unknown keys;
- the user and exercise entities, and the constraints on their fields and columns;
- the exercise, program and track repositories, over in-memory tables;
- the role-based projection of `UserService.list`;
- the decision of `isAdminMiddleware`.

Module by module:

- `Wrappers` — `Option` and `Result`.
- `JsNumbers` — the parts of JavaScript's `Number.parseInt` and `Number()` that the
  validators rely on, over decimal text, with values as `real`.
- `Zod` — the zod concepts the schemas use:
  - the values a schema receives;
  - issues, each with a code and a path;
  - field lookup, where a missing key reads as `undefined`;
  - path prefixing by the enclosing object;
  - `.strict()`, which reports one `unrecognized_keys` issue.
- `Validators` — `src/core/validators.ts`. Each validator maps a value to a
  `Result<_, Issue>`, and every `ctx.addIssue` becomes the `Failure`.
- `ExerciseRouter`, `ProgramRouter`, `UserRouter` — the list and get schemas. Each one
  parses every field, collects all issues, and then prefixes them with the field's key.
  For example, a bad `limit` is reported at `query.limit.limit`: the schema path, then the
  path the validator passes to `addIssue`.
- `UserModel`, `ExerciseModel` — the enums, the field rules of `UserSchema` and
  `ExerciseSchema`, and the unique columns as invariants on a table.
- `Tables` — generic filter, first match and `LIMIT/OFFSET` paging over a sequence of rows
  in insertion order (`findAll` has no `ORDER BY`).
- `SqlLike` — PostgreSQL `LIKE`/`ILIKE` (`%`, `_`, backslash escape) with ASCII
  lower-casing.
- `ExerciseRepo`, `TrackRepo` — classes holding the table as `rows: seq<…>` plus the next
  id of the sequence.
  - `create`, `update` and `delete` are methods that change `rows`.
  - `findOneById`, `findOne` and `list` are functions of `rows`.
  - `Valid()` states the invariant: ids are fresh and below `nextId`, rows are pairwise
    distinct by id, and, for exercises, by name (the unique column), the name fits
    `STRING(200)` and `programId` is null or at least 1.
- `ProgramRepo` — the read-only program queries, as functions of the table.
- `UserService` — `list`. The user repository's `list` is a function parameter.
- `IsAdminMiddleware`, `Exceptions` — the admin gate, and the HTTP exceptions with their
  status codes.

Notes on the code:

- The user's name, surname and nickname are required strings of 3 to 200 UTF-16 units
  (`UserSchema`, NOT NULL columns).
- zod's `min` and `max` on strings compare JavaScript's `String.length`, which counts
  UTF-16 units: a character outside the Basic Multilingual Plane counts 2
  (`Zod.Utf16Length`). The database's `STRING(200)` columns count characters.
- A `STRING(200)` column is PostgreSQL's `character varying(200)`. Text longer than 200
  characters is cut to 200 when the excess is only spaces, and rejected otherwise
  (`ExerciseRepo.StoredName`).
- A track's `duration` has no positivity check in the repository or in the model:
  `track.model.ts` declares no schema for it.
- `id` is read with `Number()`, so `?id=` is read as 0 and `"5x"` is rejected.
  `limit`, `page` and `programId` are read with `parseInt`, which accepts `"5x"` as 5
  (`Validators.IdRejectsTrailingPageAccepts`).
- Because the search text is put into the `ILIKE` pattern unescaped, `%` and `_` in it act
  as wildcards: `"a_c"` finds `"abc"` (`SqlLike.UnescapedWildcard`). "Contains the search
  text" holds only for search text without wildcards.

## Model

| member | source | states |
|---|---|---|
| Validators.Limit | src/core/validators.ts:3-26 | a non-empty text is accepted if and only if its parseInt is a number in [min, max], and then as that number; a rejected absent or string value gives exactly the custom issue "Limit must be a number between min and max" at path `limit`; any other value gives the string type issue |
| Validators.LimitDefault | src/core/validators.ts:12 | an absent or empty limit is `defaultValue`, and is rejected when the default is itself out of range |
| Validators.LimitRoundTrip | src/core/validators.ts:12-24 | the decimal text of every n in [min, max] is accepted as n |
| Validators.LimitNonNumeric | src/core/validators.ts:12-22 | a non-empty text with no digit after its sign is rejected at `limit` |
| Validators.LimitOutOfRange | src/core/validators.ts:12-22 | digits (with or without trailing text) whose value lies outside [min, max] are rejected at `limit`; their negation is accepted exactly when it lies inside |
| Validators.LimitIgnoresTrailing | src/core/validators.ts:12 | digits followed by other text are read as the digits' value (parseInt prefix) |
| Validators.Page | src/core/validators.ts:28-44 | a string is accepted if and only if its parseInt is a number >= 0, and then as that number; a rejected string gives the page issue at `page`; a non-string gives a string type issue |
| Validators.PageRoundTrip | src/core/validators.ts:30-42 | the decimal text of every n >= 0 is accepted as n |
| Validators.PageNegative | src/core/validators.ts:30-32 | "-d…" is rejected when d > 0, while "-0…" is accepted as page 0 |
| Validators.PageNonNumeric | src/core/validators.ts:30-39 | text with no digit after its sign is rejected at `page` |
| Validators.ProgramId | src/core/validators.ts:46-67 | absent or "" is no program id; a non-empty text is accepted if and only if its parseInt is a number >= 0, and then as that number; a rejected string gives the issue at `programId`; a non-string gives the string type issue |
| Validators.ProgramIdRoundTrip | src/core/validators.ts:53-65 | the decimal text of every n >= 0 is accepted as program id n |
| Validators.ProgramIdNegative | src/core/validators.ts:53-55 | "-d…" is rejected at `programId` when d > 0, while "-0…" is accepted as program id 0 |
| Validators.ProgramIdNonNumeric | src/core/validators.ts:53-62 | a non-empty text with no digit after its sign is rejected at `programId` |
| Validators.Search | src/core/validators.ts:69-71 | accepted if and only if absent or of 3 to 200 UTF-16 units, returning the text itself; too short gives too_small(3), too long gives too_big(200); a non-string gives the string type issue |
| Validators.SearchCountsUtf16Units | src/core/validators.ts:69-71 | the bounds count UTF-16 units: "a" plus one emoji (2 characters) is accepted, 140 astral characters (280 units) are too big |
| Zod.Utf16LengthBounds | src/core/validators.ts:70 | a text has between one and two UTF-16 units per character |
| Zod.Utf16LengthOfBmp | src/core/validators.ts:70 | text without astral characters has as many UTF-16 units as characters |
| Zod.Utf16LengthOfEmoji | src/core/validators.ts:70 | "a" plus one emoji is 2 characters and 3 UTF-16 units |
| Validators.Id | src/core/validators.ts:73-89 | a string is accepted if and only if Number() of the whole text is an integer >= 0, and then as that number; a rejected string gives the issue at `id`; a non-string gives the string type issue |
| Validators.IdOfNumber | src/core/validators.ts:75-87 | every text whose Number() is a natural number n is accepted as id n |
| Validators.IdAcceptsOtherSpellings | src/core/validators.ts:75-87 | "+5", "05", "5.00" and "5." are all accepted as id 5 |
| Validators.IdRoundTrip | src/core/validators.ts:75-87 | the decimal text of n, and that text followed by ".0", are read as n |
| Validators.IdEmpty | src/core/validators.ts:75-77 | the empty text is read as id 0 |
| Validators.IdRejectsTrailingPageAccepts | src/core/validators.ts:30-31 | digits followed by a stray character are rejected by Id but accepted by Page and Limit |
| JsNumbers.ParseInt | src/core/validators.ts:12 | parseInt on exact integers: optional sign, then the longest run of decimal digits; no digits gives NaN (None); its behaviour is stated by the ParseInt lemmas below |
| JsNumbers.ToNumber | src/core/validators.ts:75 | Number() on exact reals: the empty text is 0, otherwise an optional sign and a decimal with optional fraction, anything else NaN (None); its behaviour is stated by the ToNumber lemmas below |
| JsNumbers.ParseIntPrefix | src/core/validators.ts:30 | parseInt of digits followed by a non-digit is the digits' value |
| JsNumbers.ParseIntMinus | src/core/validators.ts:53 | a leading "-" before unsigned text negates what parseInt reads from that text |
| JsNumbers.ParseIntNegative | src/core/validators.ts:53 | parseInt of "-" followed by digits is the negated value |
| JsNumbers.ParseIntDecimal | src/core/validators.ts:12 | parseInt inverts decimal printing |
| JsNumbers.ParseIntNaN | src/core/validators.ts:14 | parseInt is NaN exactly when no digit follows the optional sign |
| JsNumbers.ToNumberDigits | src/core/validators.ts:75 | Number() of a digit run is its value |
| JsNumbers.MagnitudeWithFraction | src/core/validators.ts:75 | Number() of unsigned "digits.fraction" text is the whole part plus the fraction's value |
| JsNumbers.ToNumberZeroFraction | src/core/validators.ts:75-77 | Number() of digits then ".0" is the digits' value, an integer |
| JsNumbers.ToNumberTrailing | src/core/validators.ts:75-77 | Number() of digits followed by a character other than a digit or '.' is NaN |
| JsNumbers.ToNumberPlus | src/core/validators.ts:75 | a leading "+" does not change Number()'s value |
| JsNumbers.ToNumberLeadingZero | src/core/validators.ts:75 | Number("05") is 5 |
| JsNumbers.ToNumberTrailingPoint | src/core/validators.ts:75 | Number("5.00") and Number("5.") are 5 |
| ExerciseRouter.QuerySchema | src/app/routes/exercise.router.ts:26-33 | the query is accepted if and only if it is an object with keys within {limit, page, programId, search} and each validator accepts its field; the result holds the validators' values; a rejection lists every field issue and the unknown keys |
| ExerciseRouter.ListExerciseSchema | src/app/routes/exercise.router.ts:24-35 | accepted if and only if the only top-level key is `query` and the query is accepted; on rejection, the query's issues under `query` plus the unknown top-level keys |
| ExerciseRouter.AcceptedBounds | src/app/routes/exercise.router.ts:28-31 | every accepted query has limit in [1, 100], page >= 0, program id >= 0 if any, search of 3 to 200 UTF-16 units if any |
| ExerciseRouter.DefaultLimit | src/app/routes/exercise.router.ts:28 | without a limit key the limit is 10 |
| ExerciseRouter.PageRequired | src/app/routes/exercise.router.ts:29 | without a page key the request is rejected with a string type issue at query.page |
| ExerciseRouter.LimitIssuePath | src/app/routes/exercise.router.ts:28 | a rejected limit string is reported at query.limit.limit |
| ExerciseRouter.UnknownQueryKey | src/app/routes/exercise.router.ts:33 | a query key outside the shape is rejected by an unrecognized_keys issue at `query` naming it |
| ExerciseRouter.UnknownTopKey | src/app/routes/exercise.router.ts:24-35 | a top-level key other than `query` is rejected and named |
| ExerciseRouter.ValidQueryRoundTrip | src/app/routes/exercise.router.ts:24-35 | the query `limit=n&page=p` is parsed to limit n, page p, no filters |
| ExerciseRouter.FiltersRoundTrip | src/app/routes/exercise.router.ts:28-31 | a page with a program id and a search is parsed to them, with the default limit 10 |
| ProgramRouter.QuerySchema | src/app/routes/program.router.ts:26-32 | the query is accepted if and only if it is an object with keys within {limit, page, search} and each validator accepts its field; the result holds their values |
| ProgramRouter.ListProgramSchema | src/app/routes/program.router.ts:24-34 | accepted if and only if the only top-level key is `query` and the query is accepted |
| ProgramRouter.AcceptedBounds | src/app/routes/program.router.ts:28-30 | every accepted query has limit in [1, 100], page >= 0, search of 3 to 200 UTF-16 units if any |
| ProgramRouter.DefaultLimit | src/app/routes/program.router.ts:28 | without a limit key the limit is 10 |
| ProgramRouter.PageRequired | src/app/routes/program.router.ts:29 | without a page key the request is rejected at query.page |
| ProgramRouter.SearchLengthChecked | src/app/routes/program.router.ts:30 | a search under 3 or over 200 UTF-16 units is rejected at query.search with too_small or too_big |
| ProgramRouter.UnknownQueryKey | src/app/routes/program.router.ts:32 | a query key outside {limit, page, search} is rejected and named |
| ProgramRouter.ProgramIdRejected | src/app/routes/program.router.ts:26-32 | a `programId` key is rejected |
| ProgramRouter.UnknownTopKey | src/app/routes/program.router.ts:24-34 | a top-level key other than `query` is rejected |
| ProgramRouter.ValidQueryRoundTrip | src/app/routes/program.router.ts:24-34 | `limit=n&page=p&search=s` is parsed back to n, p and s |
| UserRouter.OptionalId | src/app/routes/user.router.ts:41 | an absent id is no id; anything else is accepted exactly when Id accepts it, with Id's value or issue |
| UserRouter.PositiveInt | src/app/routes/user.router.ts:45 | accepted if and only if a number that is an integer >= 1, returning it; a non-number gives one type issue; a value <= 0 reports both the positive and the min(1) issue; a fraction reports the integer issue |
| UserRouter.GetQuerySchema | src/app/routes/user.router.ts:39-43 | accepted if and only if an object whose only key may be `id` and whose id is accepted |
| UserRouter.UserIdSchema | src/app/routes/user.router.ts:44-46 | accepted if and only if an object whose `id` is accepted by PositiveInt; other keys are ignored |
| UserRouter.GetUserSchema | src/app/routes/user.router.ts:37-48 | accepted if and only if the top-level keys are within {query, user} and both parts are accepted; the result holds both parts |
| UserRouter.ListQuerySchema | src/app/routes/user.router.ts:54-59 | accepted if and only if an object with keys within {limit, page} whose limit and page are accepted |
| UserRouter.RoleClaimSchema | src/app/routes/user.router.ts:60-62 | accepted if and only if an object whose `role` is accepted by the role enum |
| UserRouter.ListUserSchema | src/app/routes/user.router.ts:52-64 | accepted if and only if the top-level keys are within {query, user} and both parts are accepted |
| UserRouter.GetUserAcceptedBounds | src/app/routes/user.router.ts:41-45 | an accepted request has caller id >= 1 and target id >= 0 if any |
| UserRouter.GetUserUnknownQueryKey | src/app/routes/user.router.ts:39-43 | a query key other than `id` is rejected and named |
| UserRouter.GetUserEmptyId | src/app/routes/user.router.ts:41 | `?id=` is accepted as id 0 |
| UserRouter.GetUserRequiresUser | src/app/routes/user.router.ts:44-46 | a request without a user is rejected with an object type issue at `user` |
| UserRouter.GetUserRejectsCallerId | src/app/routes/user.router.ts:45 | a caller id that is not a whole number >= 1 is rejected with an issue at user.id |
| UserRouter.GetUserStripsClaims | src/app/routes/user.router.ts:44-46 | adding any claim other than `id` to the user leaves the result unchanged |
| UserRouter.ListUserDefaultLimit | src/app/routes/user.router.ts:56 | without a limit key the limit is 10 |
| UserRouter.ListUserAcceptedBounds | src/app/routes/user.router.ts:56-57 | an accepted list request has limit in [1, 100] and page >= 0 |
| UserRouter.ListUserPageRequired | src/app/routes/user.router.ts:57 | without a page key the list request is rejected at query.page |
| UserRouter.ListUserRole | src/app/routes/user.router.ts:60-62 | a role text outside {ADMIN, USER} is rejected with invalid_enum_value at user.role; an accepted role is the one named |
| UserRouter.ListUserStripsClaims | src/app/routes/user.router.ts:60-62 | adding any claim other than `role` leaves the result unchanged |
| UserRouter.UnknownTopKey | src/app/routes/user.router.ts:48 | a top-level key other than query and user is rejected by both schemas |
| UserRouter.ListUserRoundTrip | src/app/routes/user.router.ts:52-64 | `limit=n&page=p` with a user of either role is parsed back to them |
| UserModel.RoleFromName | src/app/models/user.model.ts:5-8 | a text names a role exactly when it is "ADMIN" or "USER", and names the role with that value |
| UserModel.RoleNameRoundTrip | src/app/models/user.model.ts:5-8 | every role is found again from its value |
| UserModel.RoleSchema | src/app/models/user.model.ts:68 | accepted if and only if a string among the enum's values, giving that role; a wrong string or a number is invalid_enum_value |
| UserModel.UniqueEmailsAtMostOne | src/app/models/user.model.ts:41-46 | under the unique email column, an email selects at most one user |
| UserModel.SchemaFitsColumns | src/app/models/user.model.ts:61-64 | a user that meets UserSchema fits the name, surname and nickName STRING(200) columns, because a text of at most 200 UTF-16 units has at most 200 characters |
| UserModel.LongEmailOverflows | src/app/models/user.model.ts:41-46 | the schema does not bound the email: a schema-valid user with an email over 200 characters does not fit its column |
| UserModel.FollowsSchema | src/app/models/user.model.ts:61-68 | id >= 1, name, surname and nickName of 3 to 200 UTF-16 units, age in [0, 200]; related to the columns by UserModel.SchemaFitsColumns |
| UserModel.FitsColumns | src/app/models/user.model.ts:23-46 | name, surname, nickName and email of at most 200 characters each |
| UserModel.ValidPersonName | src/app/models/user.model.ts:63-65 | 3 to 200 UTF-16 units |
| UserModel.ValidAge | src/app/models/user.model.ts:67 | an age in [0, 200] |
| UserModel.ValidId | src/app/models/user.model.ts:62 | an id >= 1 |
| ExerciseModel.DifficultyFromName | src/app/models/exercise.model.ts:7-11 | a text names a difficulty exactly when it is EASY, MEDIUM or HARD |
| ExerciseModel.DifficultyNameRoundTrip | src/app/models/exercise.model.ts:7-11 | every difficulty is found again from its value |
| ExerciseModel.DifficultySchema | src/app/models/exercise.model.ts:55 | accepted if and only if a string among the enum's values, giving that difficulty |
| ExerciseModel.UniqueNamesAtMostOne | src/app/models/exercise.model.ts:32-37 | under the unique name column, a name selects at most one exercise |
| ExerciseModel.SchemaFitsColumns | src/app/models/exercise.model.ts:52-57 | an exercise that meets ExerciseSchema has a positive id, a name within STRING(200) and a null or positive program reference, the row conditions of the table invariant |
| ExerciseModel.FollowsSchema | src/app/models/exercise.model.ts:52-57 | id >= 1, a name of 1 to 200 UTF-16 units, a program reference that is null or >= 1; related to the columns by ExerciseModel.SchemaFitsColumns |
| ExerciseModel.FitsColumns | src/app/models/exercise.model.ts:18-43 | a serial id, a name of at most 200 characters, a null or positive program reference |
| ExerciseModel.ValidExerciseName | src/app/models/exercise.model.ts:54 | 1 to 200 UTF-16 units |
| ExerciseModel.ValidId | src/app/models/exercise.model.ts:53 | an id >= 1 |
| Tables.Filter | src/app/repositories/exercise.repository.ts:38-46 | the selected rows are rows of the table that satisfy the condition, and every such row is selected |
| Tables.FindFirst | src/app/repositories/track.repository.ts:27 | the first row satisfying the condition, or none exactly when no row does |
| Tables.FindFirstFiltered | src/app/repositories/track.repository.ts:27 | the first matching row is the head of the matching rows in table order, and none when there are none |
| Tables.FindFirstAppended | src/app/repositories/exercise.repository.ts:23-27 | a row appended after rows that all fail the condition is the one found |
| Tables.Paginate | src/app/repositories/exercise.repository.ts:36-50 | at most `limit` rows: the contiguous slice starting at offset limit * page, or nothing past the end |
| Tables.PagesCover | src/app/repositories/exercise.repository.ts:36 | pages 0 to n-1 concatenated are the first limit * n rows, with no overlap and no gap |
| Tables.FilterDropsOne | src/app/repositories/exercise.repository.ts:63-67 | removing the rows with a distinct id drops exactly one row |
| SqlLike.ILike | src/app/repositories/exercise.repository.ts:43 | ILIKE: LIKE on the lower-cased text and pattern; related to substring search by SqlLike.ILikeContains |
| SqlLike.ContainsPattern | src/app/repositories/exercise.repository.ts:43 | the pattern `%search%`, the search text not escaped (SqlLike.UnescapedWildcard) |
| SqlLike.Lower | src/app/repositories/exercise.repository.ts:42 | lower-casing keeps the length and lower-cases each character |
| SqlLike.LikeContains | src/app/repositories/exercise.repository.ts:41-45 | for text without wildcards, LIKE '%text%' holds exactly when the name contains the text |
| SqlLike.ILikeContains | src/app/repositories/exercise.repository.ts:41-45 | for text without wildcards, ILIKE '%text%' holds exactly when the lower-cased name contains the lower-cased text |
| SqlLike.UnescapedWildcard | src/app/repositories/exercise.repository.ts:43 | the unescaped search "a_c" matches "abc", which does not contain it |
| ExerciseRepo.InsertKeepsValid | src/app/repositories/exercise.repository.ts:12-21 | inserting a row with the next id, fitting columns and an unused name keeps ids fresh, names unique and every row within its columns |
| ExerciseRepo.TableValid | src/app/models/exercise.model.ts:18-43 | ids fresh below the sequence and distinct, names unique, every row within its columns |
| ExerciseRepo.StoredName | src/app/models/exercise.model.ts:32-37 | the name the STRING(200) column stores: the text itself up to 200 characters, its first 200 characters when the excess is only spaces, otherwise a too-long error |
| ExerciseRepo.StoredNameIdempotent | src/app/models/exercise.model.ts:32-37 | a stored name is stored again unchanged |
| ExerciseRepo.StoredNameDropsTrailingSpaces | src/app/models/exercise.model.ts:32-37 | 200 characters followed by spaces are stored as the 200 characters |
| ExerciseRepo.ReplaceKeepsValid | src/app/repositories/exercise.repository.ts:54-61 | replacing a row by one with the same key, fitting columns and a name no other row holds keeps the invariant |
| ExerciseRepo.CurrentNameFree | src/app/repositories/exercise.repository.ts:54-61 | a row's current name is stored unchanged and held by no other row, so leaving the name alone cannot fail |
| ExerciseRepo.ExerciseRepository.Create | src/app/repositories/exercise.repository.ts:12-21 | a name the column cannot store fails as too long; a stored name already taken fails as a unique violation; otherwise exactly one row with a fresh id, the name as stored, the given difficulty and no program is appended, and findOneById finds it; the table invariant is kept |
| ExerciseRepo.ExerciseRepository.FindOneById | src/app/repositories/exercise.repository.ts:23-27 | the row with that id, or none exactly when no row has it |
| ExerciseRepo.ExerciseRepository.List | src/app/repositories/exercise.repository.ts:29-52 | at most `limit` rows, all matching the filters, forming the slice of the matching rows at offset limit * page |
| ExerciseRepo.Matches | src/app/repositories/exercise.repository.ts:39-46 | the WHERE clause: the program id only when truthy, the ILIKE search only when non-empty |
| ExerciseRepo.ExerciseRepository.Update | src/app/repositories/exercise.repository.ts:54-61 | only the fields present in the body change; id and programId stay; the new name fails as too long when the column cannot store it and as a unique violation when another row holds it as stored; the returned instance holds the name as set, while the row, replaced in place, holds it as stored; every other row is unchanged; the invariant is kept |
| ExerciseRepo.RemoveKeepsValid | src/app/repositories/exercise.repository.ts:63-67 | deleting by primary key keeps ids fresh and distinct and names unique and short enough |
| ExerciseRepo.ExerciseRepository.Delete | src/app/repositories/exercise.repository.ts:63-67 | the rows with the exercise's id are removed and every other row stays, in order; a present exercise shrinks the table by one |
| ExerciseRepo.FalsyFiltersIgnored | src/app/repositories/exercise.repository.ts:40-41 | program id 0 lists the same rows as no program id, and an empty search the same as none |
| ExerciseRepo.ListByProgram | src/app/repositories/exercise.repository.ts:40 | with a non-zero program id every listed exercise belongs to that program |
| ExerciseRepo.ListSearchContains | src/app/repositories/exercise.repository.ts:41-45 | with a wildcard-free search every listed name contains it, ignoring case |
| ExerciseRepo.NameAtMostOnce | src/app/models/exercise.model.ts:32-37 | in a valid table a name selects at most one exercise |
| ProgramRepo.FindOneById | src/app/repositories/program.repository.ts:12-16 | the row with that id, or none exactly when no row has it |
| ProgramRepo.List | src/app/repositories/program.repository.ts:18-35 | at most `limit` rows, all matching the search, forming the slice of the matching rows at offset limit * page |
| ProgramRepo.Matches | src/app/repositories/program.repository.ts:23-29 | the WHERE clause: the ILIKE search only when non-empty |
| ProgramRepo.ListWithoutSearch | src/app/repositories/program.repository.ts:24-28 | without a search, or with an empty one, every row is a candidate |
| ProgramRepo.ListSearchContains | src/app/repositories/program.repository.ts:24-28 | with a wildcard-free search every listed name contains it, ignoring case |
| ProgramRepo.ListPagesCover | src/app/repositories/program.repository.ts:20 | pages 0 and 1 together are the first 2 * limit matching rows |
| TrackRepo.TrackRepository.Create | src/app/repositories/track.repository.ts:11-22 | exactly one row is appended, with a fresh id, the given exercise id, user id and duration, and `now` as completion date; every earlier row is unchanged |
| TrackRepo.TrackRepository.FindOne | src/app/repositories/track.repository.ts:24-28 | the first row matching both exercise id and user id, or none exactly when no row matches both |
| TrackRepo.TrackRepository.List | src/app/repositories/track.repository.ts:30-42 | at most `limit` rows, all of that user, forming the slice of the user's rows at offset limit * page |
| TrackRepo.RemoveKeepsValid | src/app/repositories/track.repository.ts:44-48 | deleting by primary key keeps ids fresh and distinct |
| TrackRepo.TableValid | src/app/models/track.model.ts:11-17 | ids fresh below the sequence and distinct |
| TrackRepo.TrackRepository.Delete | src/app/repositories/track.repository.ts:44-48 | the rows with the track's id are removed and every other row stays; a present track shrinks the table by one |
| TrackRepo.CreatedTrackListedLast | src/app/repositories/track.repository.ts:14-21 | a new track comes after all earlier tracks of its user |
| TrackRepo.ListOnlyOwn | src/app/repositories/track.repository.ts:34-37 | another user's track is never listed |
| UserService.Project | src/app/services/user.service.ts:20-33 | an admin caller gets the full profile, from which the user is read back exactly; any other caller gets id and nickname only; both carry the user's id and nickname |
| UserService.List | src/app/services/user.service.ts:8-36 | the message is "List of users", the data has the repository's rows in the same order and number, each projected for the caller's role |
| UserService.ListAgreesAcrossRoles | src/app/services/user.service.ts:21-32 | for the same page, both roles get the same number of entries with the same ids and nicknames |
| UserService.AdminListIsLossless | src/app/services/user.service.ts:20-29 | an admin's entries are full profiles of exactly the repository's users |
| UserService.PeerListIsMinimal | src/app/services/user.service.ts:30-33 | any other caller's entries are id and nickname only |
| IsAdminMiddleware.IsAdmin | src/app/middlewares/is-admin.middleware.ts:6-22 | the request passes exactly when a user is present with role ADMIN; an absent user gives UserNotFound; another role gives Forbidden |
| IsAdminMiddleware.ExistenceBeforeRole | src/app/middlewares/is-admin.middleware.ts:10-16 | Forbidden only for a present user; UserNotFound exactly for an absent one |
| IsAdminMiddleware.RejectionStatus | src/app/middlewares/is-admin.middleware.ts:10-16 | a rejection is a 403 for a present user and a 404 for an absent one |
| IsAdminMiddleware.OnlyRoleDecides | src/app/middlewares/is-admin.middleware.ts:14 | the id plays no part; a USER token is forbidden |
| Exceptions.Status | src/app/exceptions/user.exception.ts:4-20 | the not-found exceptions are 404, the name and email conflicts 409, the wrong password 400, forbidden 403 |

## Left out

- Server setup, database connection, seeding, environment, and the route handler bodies:
  these are I/O and plumbing. Only the schemas of the routes are modelled.
- The auth service and the JWT strategy (password hashing, token signing and checking)
  are foreign cryptographic calls. `req.user` is taken as an input value.
- The user repository is not part of this model. `UserService.List` receives its `list`
  as a function parameter, since the source of that call is not available.
- The exercise and program services only pass calls through to the repositories and are
  not modelled separately.
- `src/db/models/*` is an older model set that the running service does not load.
- The HTTP exception base module is not part of this model. Forbidden is given status 403,
  and its message is not modelled.
- JsNumbers.ParseInt: models decimal text with an optional sign. It leaves out leading
  whitespace, `0x` prefixes and the loss of precision above 2^53, and reads `"-0"` as 0
  rather than -0.
- Validators.Page: `parseInt` of a digit run beyond `Number.MAX_VALUE` gives `Infinity`,
  which `Number.isInteger` rejects; the model accepts it with its exact value. Above 2^53
  the source returns a rounded value.
- Validators.PageRoundTrip: claims acceptance of every natural's decimal text; in the
  source this holds only up to `Number.MAX_VALUE`, and exactly only up to 2^53.
- Validators.ProgramId: the same `Infinity` and rounding gap as Validators.Page.
- Validators.ProgramIdRoundTrip: the same bound as Validators.PageRoundTrip.
- Validators.Limit: a `limit` text beyond `Number.MAX_VALUE` gives `Infinity`, which the
  range check rejects in the source as in the model; the rounding above 2^53 is not modelled.
- Validators.Id: `Number()` of a numeral beyond `Number.MAX_VALUE` gives `Infinity`, which
  is rejected; the model accepts it with its exact value.
- Validators.IdRoundTrip: the same bound as Validators.PageRoundTrip.
- JsNumbers.ToNumber: models decimal text with an optional fraction. It leaves out
  whitespace trimming, exponents, the `0x`, `0b` and `0o` prefixes, `Infinity` and double
  rounding, and reads `"-0"` as 0 rather than -0.
- The message texts zod produces for its own issue codes (type, size, enum and key
  issues) are not modelled. The codes are, with these parameters: `expected` and
  `received` of invalid_type, `minimum` or `maximum` and `inclusive` of too_small and
  too_big, `options` of invalid_enum_value, and the keys of unrecognized_keys.
- The issue datatype `Zod.IssueCode` leaves out the `type` ("string" or "number") and `exact` of too_small and
  too_big, and the `received` of invalid_enum_value. The keys of unrecognized_keys are a
  set, not an array in the input's key order.
- UserModel.FollowsSchema: the email syntax rule (`z.string().email()`) is not modelled.
- SqlLike.ILike: uses ASCII lower-casing, not the database's Unicode case folding or
  collation.
- Issue order: the contracts fix the model's order, which is zod's shape order (the
  fields in the order of the shape, then `unrecognized_keys`). Under `parseAsync`, which
  the routers call, zod reports the custom issues of the asynchronous transforms after the
  synchronous ones. That order is not modelled.
- Row order: rows are kept in insertion order, since `findAll` has no `ORDER BY`.
- ExerciseRepo.ExerciseRepository.Update: takes the loaded instance, and requires it to be
  a current row of the table. An instance that has gone stale is not modelled. The instance it
  returns holds the values as set, as Sequelize leaves an existing record after `save()`,
  which reads nothing back; Sequelize's own code is not part of this model.
- ExerciseRepo.ExerciseRepository.Create: the storage errors modelled are the
  `STRING(200)` length (with the truncation of an excess of spaces, `StoredName`) and the
  unique name. The returned instance is the stored row. A failed insert does not advance
  the id sequence in the model, although PostgreSQL's sequence does.
- TrackRepo.TrackRepository.Create: `duration`, `exerciseId` and `userId` are `INTEGER`
  columns, so a value outside [-2^31, 2^31) is an out-of-range error in the database;
  the model's create always succeeds.
- Tables.Paginate: an offset `limit * page` beyond the range of `bigint` is a database
  error, not an empty page; the model returns the empty page.
- Foreign keys between tables (exercise to program, track to exercise and user) and
  cascading deletes are not modelled.
- The timestamps `createdAt` and `updatedAt` are not modelled.
- `new Date()` in track creation is the parameter `now`.
- `limit` and `page` reach the repositories as naturals. A `LIMIT 0` returns no rows.
- IsAdminMiddleware.IsAdmin: returns the single argument passed to `next`, so "`next` is
  called exactly once" holds by construction. A downstream handler that throws inside
  `next()` is outside the model.
