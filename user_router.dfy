/**
  The schemas of GET /user and GET /user/list. Both see
  `{ query: req.query, user: req.user }`, where `user` is the payload the
  JWT strategy attached to the request (absent without authentication).
  The outer objects and `query` are strict; `user` is not, so extra claims
  are dropped rather than rejected.
*/
module UserRouter {
  import opened Wrappers
  import opened JsNumbers
  import opened Zod
  import opened Validators
  import opened UserModel

  datatype GetUserQuery = GetUserQuery(id: Option<int>)
  datatype UserIdClaim = UserIdClaim(id: int)
  datatype GetUserDto = GetUserDto(query: GetUserQuery, user: UserIdClaim)

  datatype Pagination = Pagination(limit: int, page: int)
  datatype RoleClaim = RoleClaim(role: Role)
  datatype ListUserDto = ListUserDto(query: Pagination, user: RoleClaim)

  const TopKeys: set<string> := {"query", "user"}
  const GetQueryKeys: set<string> := {"id"}
  const ListQueryKeys: set<string> := {"limit", "page"}

  /** `{ query: q, user: u }` as the routes build it. */
  function Request(query: map<string, Value>, user: Value): Value {
    Obj(map["query" := Obj(query), "user" := user])
  }

  /** `IdValidator().optional()`: an absent id is no id; anything else goes
      to the validator. */
  function OptionalId(v: Value): (r: Result<Option<int>, Issue>)
    ensures v.Undefined? ==> r == Success(None)
    ensures !v.Undefined? ==> r.Success? == Id(v).Success?
    ensures !v.Undefined? && r.Success? ==> r.value == Some(Id(v).value)
    ensures !v.Undefined? && r.Failure? ==> r.error == Id(v).error
  {
    if v.Undefined? then Success(None)
    else match Id(v)
      case Success(id) => Success(Some(id))
      case Failure(e) => Failure(e)
  }

  /** `z.number().int().positive().min(1)`: a number, then all three checks,
      each reporting its own issue. */
  function PositiveInt(v: Value): (r: Result<int, seq<Issue>>)
    ensures r.Success? <==> v.Number? && IsInteger(v.x) && v.x >= 1.0
    ensures r.Success? ==> r.value >= 1 && r.value as real == v.x
    ensures r.Failure? ==> r.error != []
    ensures !v.Number? ==> r == Failure([Issue(InvalidType("number", TypeName(v)), [])])
    ensures v.Number? && v.x <= 0.0 ==>
              Issue(TooSmall(0, false), []) in r.error && Issue(TooSmall(1, true), []) in r.error
    ensures v.Number? && !IsInteger(v.x) ==> Issue(InvalidType("integer", "float"), []) in r.error
  {
    if !v.Number? then Failure([Issue(InvalidType("number", TypeName(v)), [])])
    else
      var issues :=
        (if IsInteger(v.x) then [] else [Issue(InvalidType("integer", "float"), [])])
        + (if v.x > 0.0 then [] else [Issue(TooSmall(0, false), [])])
        + (if v.x >= 1.0 then [] else [Issue(TooSmall(1, true), [])]);
      if issues == [] then Success(v.x.Floor) else Failure(issues)
  }

  // GET /user

  function GetQueryIssues(m: map<string, Value>): seq<Issue> {
    FieldIssues("id", OptionalId(Field(m, "id"))) + StrictIssues(m, GetQueryKeys)
  }

  function GetQuerySchema(v: Value): (r: Result<GetUserQuery, seq<Issue>>)
    ensures r.Failure? ==> r.error != []
    ensures r.Success? <==> v.Obj? && v.fields.Keys <= GetQueryKeys && OptionalId(Field(v.fields, "id")).Success?
    ensures r.Success? ==> r.value.id == OptionalId(Field(v.fields, "id")).value
    ensures v.Obj? && r.Failure? ==> r.error == GetQueryIssues(v.fields)
  {
    if !v.Obj? then Failure(NotAnObject(v))
    else
      var issues := GetQueryIssues(v.fields);
      if issues == [] then Success(GetUserQuery(OptionalId(Field(v.fields, "id")).value)) else Failure(issues)
  }

  /** The non-strict `user` object of GET /user: only `id` is read. */
  function UserIdSchema(v: Value): (r: Result<UserIdClaim, seq<Issue>>)
    ensures r.Failure? ==> r.error != []
    ensures r.Success? <==> v.Obj? && PositiveInt(Field(v.fields, "id")).Success?
    ensures r.Success? ==> r.value.id == PositiveInt(Field(v.fields, "id")).value
    ensures v.Obj? && r.Failure? ==> r.error == ObjectIssues("id", PositiveInt(Field(v.fields, "id")))
  {
    if !v.Obj? then Failure(NotAnObject(v))
    else
      var id := PositiveInt(Field(v.fields, "id"));
      if id.Success? then Success(UserIdClaim(id.value)) else Failure(ObjectIssues("id", id))
  }

  /** `GetUserSchema`. */
  function GetUserSchema(v: Value): (r: Result<GetUserDto, seq<Issue>>)
    ensures r.Success? <==>
              && v.Obj? && v.fields.Keys <= TopKeys
              && GetQuerySchema(Field(v.fields, "query")).Success?
              && UserIdSchema(Field(v.fields, "user")).Success?
    ensures r.Success? ==>
              r.value == GetUserDto(GetQuerySchema(Field(v.fields, "query")).value,
                                    UserIdSchema(Field(v.fields, "user")).value)
    ensures v.Obj? && r.Failure? ==>
              r.error == ObjectIssues("query", GetQuerySchema(Field(v.fields, "query")))
                         + ObjectIssues("user", UserIdSchema(Field(v.fields, "user")))
                         + StrictIssues(v.fields, TopKeys)
  {
    if !v.Obj? then Failure(NotAnObject(v))
    else
      var query := GetQuerySchema(Field(v.fields, "query"));
      var user := UserIdSchema(Field(v.fields, "user"));
      var issues := ObjectIssues("query", query) + ObjectIssues("user", user) + StrictIssues(v.fields, TopKeys);
      if issues == [] then Success(GetUserDto(query.value, user.value)) else Failure(issues)
  }

  // GET /user/list

  function ListQueryIssues(m: map<string, Value>): seq<Issue> {
    FieldIssues("limit", Limit(1, 100, 10, Field(m, "limit")))
    + FieldIssues("page", Page(Field(m, "page")))
    + StrictIssues(m, ListQueryKeys)
  }

  function ListQuerySchema(v: Value): (r: Result<Pagination, seq<Issue>>)
    ensures r.Failure? ==> r.error != []
    ensures r.Success? <==>
              && v.Obj? && v.fields.Keys <= ListQueryKeys
              && Limit(1, 100, 10, Field(v.fields, "limit")).Success? && Page(Field(v.fields, "page")).Success?
    ensures r.Success? ==>
              r.value == Pagination(Limit(1, 100, 10, Field(v.fields, "limit")).value, Page(Field(v.fields, "page")).value)
    ensures v.Obj? && r.Failure? ==> r.error == ListQueryIssues(v.fields)
  {
    if !v.Obj? then Failure(NotAnObject(v))
    else
      var issues := ListQueryIssues(v.fields);
      if issues == [] then
        Success(Pagination(Limit(1, 100, 10, Field(v.fields, "limit")).value, Page(Field(v.fields, "page")).value))
      else Failure(issues)
  }

  /** The non-strict `user` object of GET /user/list: only `role` is read. */
  function RoleClaimSchema(v: Value): (r: Result<RoleClaim, seq<Issue>>)
    ensures r.Failure? ==> r.error != []
    ensures r.Success? <==> v.Obj? && RoleSchema(Field(v.fields, "role")).Success?
    ensures r.Success? ==> r.value.role == RoleSchema(Field(v.fields, "role")).value
    ensures v.Obj? && r.Failure? ==> r.error == FieldIssues("role", RoleSchema(Field(v.fields, "role")))
  {
    if !v.Obj? then Failure(NotAnObject(v))
    else
      var role := RoleSchema(Field(v.fields, "role"));
      if role.Success? then Success(RoleClaim(role.value)) else Failure(FieldIssues("role", role))
  }

  /** `ListUserSchema`. */
  function ListUserSchema(v: Value): (r: Result<ListUserDto, seq<Issue>>)
    ensures r.Success? <==>
              && v.Obj? && v.fields.Keys <= TopKeys
              && ListQuerySchema(Field(v.fields, "query")).Success?
              && RoleClaimSchema(Field(v.fields, "user")).Success?
    ensures r.Success? ==>
              r.value == ListUserDto(ListQuerySchema(Field(v.fields, "query")).value,
                                     RoleClaimSchema(Field(v.fields, "user")).value)
    ensures v.Obj? && r.Failure? ==>
              r.error == ObjectIssues("query", ListQuerySchema(Field(v.fields, "query")))
                         + ObjectIssues("user", RoleClaimSchema(Field(v.fields, "user")))
                         + StrictIssues(v.fields, TopKeys)
  {
    if !v.Obj? then Failure(NotAnObject(v))
    else
      var query := ListQuerySchema(Field(v.fields, "query"));
      var user := RoleClaimSchema(Field(v.fields, "user"));
      var issues := ObjectIssues("query", query) + ObjectIssues("user", user) + StrictIssues(v.fields, TopKeys);
      if issues == [] then Success(ListUserDto(query.value, user.value)) else Failure(issues)
  }

  // Properties

  /** An accepted GET /user request names a caller id >= 1 and, if any, a target id >= 0. */
  lemma GetUserAcceptedBounds(v: Value)
    requires GetUserSchema(v).Success?
    ensures GetUserSchema(v).value.user.id >= 1
    ensures GetUserSchema(v).value.query.id.Some? ==> GetUserSchema(v).value.query.id.value >= 0
  {
  }

  /** The only query key of GET /user is `id`; any other is rejected. */
  lemma GetUserUnknownQueryKey(query: map<string, Value>, user: Value, key: string)
    requires key in query && key != "id"
    ensures GetUserSchema(Request(query, user)).Failure?
    ensures Issue(UnrecognizedKeys(query.Keys - GetQueryKeys), ["query"]) in GetUserSchema(Request(query, user)).error
    ensures key in query.Keys - GetQueryKeys
  {
    assert Field(Request(query, user).fields, "query") == Obj(query);
    var e := Issue(UnrecognizedKeys(query.Keys - GetQueryKeys), []);
    assert key in query.Keys - GetQueryKeys;
    assert StrictIssues(query, GetQueryKeys) == [e];
    assert e in GetQueryIssues(query);
    NestKeeps("query", GetQuerySchema(Obj(query)).error, e);
    assert ["query"] + e.path == ["query"];
  }

  /** `?id=` is read as id 0, since Number("") is 0. */
  lemma GetUserEmptyId(user: Value)
    requires UserIdSchema(user).Success?
    ensures GetUserSchema(Request(map["id" := Str("")], user)).Success?
    ensures GetUserSchema(Request(map["id" := Str("")], user)).value.query.id == Some(0)
  {
    var query := map["id" := Str("")];
    assert Field(Request(query, user).fields, "query") == Obj(query);
    assert Field(Request(query, user).fields, "user") == user;
    IdEmpty();
  }

  /** Without an authenticated user, GET /user is rejected at `user`. */
  lemma GetUserRequiresUser(query: map<string, Value>)
    ensures GetUserSchema(Request(query, Undefined)).Failure?
    ensures Issue(InvalidType("object", "undefined"), ["user"]) in GetUserSchema(Request(query, Undefined)).error
  {
    var e := Issue(InvalidType("object", "undefined"), []);
    assert Field(Request(query, Undefined).fields, "user") == Undefined;
    assert UserIdSchema(Undefined).error == [e];
    NestKeeps("user", [e], e);
    assert ["user"] + e.path == ["user"];
  }

  /** A caller id that is not a whole number >= 1 is rejected at user.id. */
  lemma GetUserRejectsCallerId(query: map<string, Value>, claims: map<string, Value>)
    requires "id" in claims
    requires !(claims["id"].Number? && IsInteger(claims["id"].x) && claims["id"].x >= 1.0)
    ensures GetUserSchema(Request(query, Obj(claims))).Failure?
    ensures HasIssueAt(GetUserSchema(Request(query, Obj(claims))).error, ["user", "id"])
  {
    var v := Request(query, Obj(claims));
    assert Field(v.fields, "user") == Obj(claims);
    var errs := PositiveInt(Field(claims, "id")).error;
    var e := errs[0];
    assert e.path == [];
    NestKeeps("id", errs, e);
    var inner := Issue(e.code, ["id"]);
    assert ["id"] + e.path == ["id"];
    assert UserIdSchema(Obj(claims)).error == Nest("id", errs);
    NestKeeps("user", UserIdSchema(Obj(claims)).error, inner);
    var full := Issue(e.code, ["user", "id"]);
    assert ["user"] + inner.path == ["user", "id"];
    assert full in ObjectIssues("user", UserIdSchema(Field(v.fields, "user")));
    var r := GetUserSchema(v).error;
    assert full in r;
    var i :| 0 <= i < |r| && r[i] == full;
  }

  /** Extra claims in the `user` object change nothing: they are dropped. */
  lemma GetUserStripsClaims(query: map<string, Value>, claims: map<string, Value>, key: string, x: Value)
    requires key != "id"
    ensures GetUserSchema(Request(query, Obj(claims[key := x]))) == GetUserSchema(Request(query, Obj(claims)))
  {
    assert Field(claims[key := x], "id") == Field(claims, "id");
    assert Request(query, Obj(claims[key := x])).fields.Keys == Request(query, Obj(claims)).fields.Keys;
  }

  /** Without a `limit` key the list limit is 10. */
  lemma ListUserDefaultLimit(query: map<string, Value>, user: Value)
    requires "limit" !in query
    requires ListUserSchema(Request(query, user)).Success?
    ensures ListUserSchema(Request(query, user)).value.query.limit == 10
  {
    assert Field(query, "limit") == Undefined;
  }

  /** An accepted list request has its limit in [1, 100] and a page >= 0. */
  lemma ListUserAcceptedBounds(v: Value)
    requires ListUserSchema(v).Success?
    ensures 1 <= ListUserSchema(v).value.query.limit <= 100
    ensures ListUserSchema(v).value.query.page >= 0
  {
  }

  /** Without a `page` key the list request is rejected at query.page. */
  lemma ListUserPageRequired(query: map<string, Value>, user: Value)
    requires "page" !in query
    ensures ListUserSchema(Request(query, user)).Failure?
    ensures Issue(InvalidType("string", "undefined"), ["query", "page"]) in ListUserSchema(Request(query, user)).error
  {
    assert Field(Request(query, user).fields, "query") == Obj(query);
    assert Field(query, "page") == Undefined;
    var e := Issue(InvalidType("string", "undefined"), ["page"]);
    assert Page(Undefined) == Failure(Issue(InvalidType("string", "undefined"), []));
    assert ["page"] + [] == ["page"];
    assert FieldIssues("page", Page(Field(query, "page"))) == [e];
    assert e in ListQueryIssues(query);
    NestKeeps("query", ListQuerySchema(Obj(query)).error, e);
    assert ["query"] + e.path == ["query", "page"];
  }

  /** The caller's role must be one of the enum's values; it is read as that role. */
  lemma ListUserRole(query: map<string, Value>, claims: map<string, Value>, role: string)
    requires "role" in claims && claims["role"] == Str(role)
    ensures role !in RoleNames ==> ListUserSchema(Request(query, Obj(claims))).Failure?
    ensures role !in RoleNames ==>
              Issue(InvalidEnumValue(RoleNames), ["user", "role"]) in ListUserSchema(Request(query, Obj(claims))).error
    ensures ListUserSchema(Request(query, Obj(claims))).Success? ==>
              RoleName(ListUserSchema(Request(query, Obj(claims))).value.user.role) == role
  {
    assert Field(Request(query, Obj(claims)).fields, "user") == Obj(claims);
    if role !in RoleNames {
      var e := Issue(InvalidEnumValue(RoleNames), ["role"]);
      assert ["role"] + [] == ["role"];
      assert RoleClaimSchema(Obj(claims)).error == [e];
      NestKeeps("user", [e], e);
      assert ["user"] + e.path == ["user", "role"];
    }
  }

  /** Extra claims in the `user` object of a list request are dropped. */
  lemma ListUserStripsClaims(query: map<string, Value>, claims: map<string, Value>, key: string, x: Value)
    requires key != "role"
    ensures ListUserSchema(Request(query, Obj(claims[key := x]))) == ListUserSchema(Request(query, Obj(claims)))
  {
    assert Field(claims[key := x], "role") == Field(claims, "role");
    assert Request(query, Obj(claims[key := x])).fields.Keys == Request(query, Obj(claims)).fields.Keys;
  }

  /** A top-level key beside `query` and `user` is rejected by both schemas. */
  lemma UnknownTopKey(fields: map<string, Value>, key: string)
    requires key in fields && key !in TopKeys
    ensures GetUserSchema(Obj(fields)).Failure? && ListUserSchema(Obj(fields)).Failure?
    ensures Issue(UnrecognizedKeys(fields.Keys - TopKeys), []) in GetUserSchema(Obj(fields)).error
    ensures Issue(UnrecognizedKeys(fields.Keys - TopKeys), []) in ListUserSchema(Obj(fields)).error
  {
  }

  /** A list request for a page, with limit n, by a caller with a valid role, parses back. */
  lemma ListUserRoundTrip(n: nat, p: nat, role: Role)
    requires 1 <= n <= 100
    ensures ListUserSchema(Request(map["limit" := Str(Decimal(n)), "page" := Str(Decimal(p))],
                                   Obj(map["role" := Str(RoleName(role))])))
            == Success(ListUserDto(Pagination(n, p), RoleClaim(role)))
  {
    var query := map["limit" := Str(Decimal(n)), "page" := Str(Decimal(p))];
    var user := Obj(map["role" := Str(RoleName(role))]);
    assert Field(Request(query, user).fields, "query") == Obj(query);
    assert Field(Request(query, user).fields, "user") == user;
    LimitRoundTrip(1, 100, 10, n);
    PageRoundTrip(p);
    RoleNameRoundTrip(role);
  }
}
