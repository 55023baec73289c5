/**
  The user entity: the `UserRole` enum, the `users` table's columns and the
  field rules of `UserSchema`.
*/
module UserModel {
  import opened Wrappers
  import opened Zod
  import Tables

  datatype Role = ADMIN | USER

  /** The string value of each enum member. */
  function RoleName(r: Role): string {
    match r
    case ADMIN => "ADMIN"
    case USER => "USER"
  }

  const RoleNames: seq<string> := ["ADMIN", "USER"]

  function RoleFromName(s: string): (r: Option<Role>)
    ensures r.Some? <==> s in RoleNames
    ensures r.Some? ==> RoleName(r.value) == s
  {
    if s == "ADMIN" then Some(ADMIN) else if s == "USER" then Some(USER) else None
  }

  lemma RoleNameRoundTrip(r: Role)
    ensures RoleFromName(RoleName(r)) == Some(r)
  {
  }

  /** `UserSchema.role`, i.e. `z.nativeEnum(UserRole)`: a string or number
      must be one of the enum's values; any other type is a type error. */
  function RoleSchema(v: Value): (r: Result<Role, Issue>)
    ensures r.Success? <==> v.Str? && v.s in RoleNames
    ensures r.Success? ==> RoleName(r.value) == v.s
    ensures (v.Str? || v.Number?) && r.Failure? ==> r.error == Issue(InvalidEnumValue(RoleNames), [])
  {
    match v
    case Str(s) =>
      (match RoleFromName(s)
       case Some(role) => Success(role)
       case None => Failure(Issue(InvalidEnumValue(RoleNames), [])))
    case Number(_) => Failure(Issue(InvalidEnumValue(RoleNames), []))
    case _ => Failure(Issue(InvalidType("'ADMIN' | 'USER'", TypeName(v)), []))
  }

  /** A row of `users`; every column is NOT NULL. The password is not a column of this model. */
  datatype User = User(
    id: int,
    name: string,
    surname: string,
    nickName: string,
    email: string,
    age: int,
    role: Role)

  /** `UserSchema.id`. */
  predicate ValidId(id: int) {
    id >= 1
  }

  /** `UserSchema.name`, `.surname` and `.nickName`: 3 to 200 UTF-16 units. */
  predicate ValidPersonName(s: string) {
    3 <= Utf16Length(s) <= 200
  }

  /** `UserSchema.age`. */
  predicate ValidAge(age: int) {
    0 <= age <= 200
  }

  /** The `UserSchema` rules a user's fields follow (the email syntax rule is not modelled). */
  predicate FollowsSchema(u: User) {
    ValidId(u.id) && ValidPersonName(u.name) && ValidPersonName(u.surname)
    && ValidPersonName(u.nickName) && ValidAge(u.age)
  }

  /** The STRING(200) name columns; the database counts characters. */
  predicate NameColumnsFit(u: User) {
    |u.name| <= 200 && |u.surname| <= 200 && |u.nickName| <= 200
  }

  /** All the STRING(200) columns. */
  predicate FitsColumns(u: User) {
    NameColumnsFit(u) && |u.email| <= 200
  }

  /** The unique index on `email`. */
  predicate UniqueEmails(users: seq<User>) {
    forall i, j :: 0 <= i < j < |users| ==> users[i].email != users[j].email
  }

  function WithEmail(email: string): User -> bool {
    (u: User) => u.email == email
  }

  /** Under the unique index, an email selects at most one user. */
  lemma UniqueEmailsAtMostOne(users: seq<User>, email: string)
    requires UniqueEmails(users)
    ensures |Tables.Filter(users, WithEmail(email))| <= 1
  {
    Tables.FilterAtMostOne(users, WithEmail(email));
  }

  /** A user whose schema fields are valid fits the name columns: a name of
      at most 200 UTF-16 units has at most 200 characters. */
  lemma SchemaFitsColumns(u: User)
    requires FollowsSchema(u)
    ensures NameColumnsFit(u)
  {
    Utf16LengthBounds(u.name);
    Utf16LengthBounds(u.surname);
    Utf16LengthBounds(u.nickName);
  }

  /** The schema does not bound the email: a schema-valid user with an email
      of more than 200 characters does not fit its column. */
  lemma LongEmailOverflows(u: User, email: string)
    requires FollowsSchema(u) && |email| > 200
    ensures FollowsSchema(u.(email := email)) && !FitsColumns(u.(email := email))
  {
  }
}
