/**
  `ListExerciseSchema` of GET /exercise/list: a strict object holding only
  `query`, itself a strict object of the four list parameters.
*/
module ExerciseRouter {
  import opened Wrappers
  import opened JsNumbers
  import opened Zod
  import opened Validators

  datatype ListExerciseQuery = ListExerciseQuery(limit: int, page: int, programId: Option<int>, search: Option<string>)

  datatype ListExerciseDto = ListExerciseDto(query: ListExerciseQuery)

  const QueryKeys: set<string> := {"limit", "page", "programId", "search"}
  const TopKeys: set<string> := {"query"}

  function LimitField(m: map<string, Value>): Result<int, Issue> {
    Limit(1, 100, 10, Field(m, "limit"))
  }

  /** The issues of the `query` object: every field's issues, in shape
      order, then the keys outside the shape. */
  function QueryIssues(m: map<string, Value>): (issues: seq<Issue>)
  {
    FieldIssues("limit", LimitField(m))
    + FieldIssues("page", Page(Field(m, "page")))
    + FieldIssues("programId", ProgramId(Field(m, "programId")))
    + FieldIssues("search", Search(Field(m, "search")))
    + StrictIssues(m, QueryKeys)
  }

  /** The `query` object: accepted when no field and no key raises an issue. */
  function QuerySchema(v: Value): (r: Result<ListExerciseQuery, seq<Issue>>)
    ensures r.Failure? ==> r.error != []
    ensures r.Success? <==>
              && v.Obj? && v.fields.Keys <= QueryKeys
              && LimitField(v.fields).Success? && Page(Field(v.fields, "page")).Success?
              && ProgramId(Field(v.fields, "programId")).Success? && Search(Field(v.fields, "search")).Success?
    ensures r.Success? ==>
              && r.value.limit == LimitField(v.fields).value
              && r.value.page == Page(Field(v.fields, "page")).value
              && r.value.programId == ProgramId(Field(v.fields, "programId")).value
              && r.value.search == Search(Field(v.fields, "search")).value
    ensures v.Obj? && r.Failure? ==> r.error == QueryIssues(v.fields)
  {
    if !v.Obj? then Failure(NotAnObject(v))
    else
      var m := v.fields;
      var issues := QueryIssues(m);
      if issues == [] then
        Success(ListExerciseQuery(LimitField(m).value, Page(Field(m, "page")).value,
                                  ProgramId(Field(m, "programId")).value, Search(Field(m, "search")).value))
      else Failure(issues)
  }

  /** `ListExerciseSchema`, applied to `{ query: req.query }`. */
  function ListExerciseSchema(v: Value): (r: Result<ListExerciseDto, seq<Issue>>)
    ensures r.Success? <==> v.Obj? && v.fields.Keys <= TopKeys && QuerySchema(Field(v.fields, "query")).Success?
    ensures r.Success? ==> r.value.query == QuerySchema(Field(v.fields, "query")).value
    ensures v.Obj? && r.Failure? ==>
              r.error == ObjectIssues("query", QuerySchema(Field(v.fields, "query"))) + StrictIssues(v.fields, TopKeys)
  {
    if !v.Obj? then Failure(NotAnObject(v))
    else
      var query := QuerySchema(Field(v.fields, "query"));
      var issues := ObjectIssues("query", query) + StrictIssues(v.fields, TopKeys);
      if issues == [] then Success(ListExerciseDto(query.value)) else Failure(issues)
  }

  /** `{ query: q }` as the route builds it. */
  function Request(query: map<string, Value>): Value {
    Obj(map["query" := Obj(query)])
  }

  /** Every accepted query has its limit in [1, 100], a page >= 0, a program
      id >= 0 if any, and a search of 3 to 200 characters if any. */
  lemma AcceptedBounds(v: Value)
    requires ListExerciseSchema(v).Success?
    ensures var q := ListExerciseSchema(v).value.query;
            && 1 <= q.limit <= 100 && q.page >= 0
            && (q.programId.Some? ==> q.programId.value >= 0)
            && (q.search.Some? ==> 3 <= Utf16Length(q.search.value) <= 200)
  {
  }

  /** Without a `limit` key the limit is 10. */
  lemma DefaultLimit(query: map<string, Value>)
    requires "limit" !in query
    requires ListExerciseSchema(Request(query)).Success?
    ensures ListExerciseSchema(Request(query)).value.query.limit == 10
  {
    assert Field(query, "limit") == Undefined;
  }

  /** Without a `page` key the request is rejected, with a type issue at query.page. */
  lemma PageRequired(query: map<string, Value>)
    requires "page" !in query
    ensures ListExerciseSchema(Request(query)).Failure?
    ensures Issue(InvalidType("string", "undefined"), ["query", "page"]) in ListExerciseSchema(Request(query)).error
  {
    assert Field(Request(query).fields, "query") == Obj(query);
    assert Field(query, "page") == Undefined;
    var e := Issue(InvalidType("string", "undefined"), ["page"]);
    assert Page(Undefined) == Failure(Issue(InvalidType("string", "undefined"), []));
    assert ["page"] + [] == ["page"];
    assert FieldIssues("page", Page(Field(query, "page"))) == [e];
    assert e in QueryIssues(query);
    NestKeeps("query", QuerySchema(Obj(query)).error, e);
    assert ["query"] + e.path == ["query", "page"];
  }

  /** A rejected limit is reported at query.limit.limit: the field's path
      followed by the path the validator gives. */
  lemma LimitIssuePath(query: map<string, Value>)
    requires "limit" in query && query["limit"].Str?
    requires LimitField(query).Failure?
    ensures ListExerciseSchema(Request(query)).Failure?
    ensures Issue(Custom(LimitMessage(1, 100)), ["query", "limit", "limit"]) in ListExerciseSchema(Request(query)).error
  {
    assert Field(Request(query).fields, "query") == Obj(query);
    var e := Issue(Custom(LimitMessage(1, 100)), ["limit", "limit"]);
    assert ["limit"] + ["limit"] == ["limit", "limit"];
    assert FieldIssues("limit", LimitField(query)) == [e];
    assert e in QueryIssues(query);
    NestKeeps("query", QuerySchema(Obj(query)).error, e);
    assert ["query"] + e.path == ["query", "limit", "limit"];
  }

  /** A query key outside the shape is rejected, and named in the issue. */
  lemma UnknownQueryKey(query: map<string, Value>, key: string)
    requires key in query && key !in QueryKeys
    ensures ListExerciseSchema(Request(query)).Failure?
    ensures Issue(UnrecognizedKeys(query.Keys - QueryKeys), ["query"]) in ListExerciseSchema(Request(query)).error
    ensures key in query.Keys - QueryKeys
  {
    assert Field(Request(query).fields, "query") == Obj(query);
    var e := Issue(UnrecognizedKeys(query.Keys - QueryKeys), []);
    assert key in query.Keys - QueryKeys;
    assert StrictIssues(query, QueryKeys) == [e];
    assert e in QueryIssues(query);
    NestKeeps("query", QuerySchema(Obj(query)).error, e);
    assert ["query"] + e.path == ["query"];
  }

  /** A top-level key beside `query` is rejected. */
  lemma UnknownTopKey(fields: map<string, Value>, key: string)
    requires key in fields && key != "query"
    ensures ListExerciseSchema(Obj(fields)).Failure?
    ensures Issue(UnrecognizedKeys(fields.Keys - TopKeys), []) in ListExerciseSchema(Obj(fields)).error
    ensures key in fields.Keys - TopKeys
  {
  }

  /** The query a client writes for limit n and page p parses back to them. */
  lemma ValidQueryRoundTrip(n: nat, p: nat)
    requires 1 <= n <= 100
    ensures ListExerciseSchema(Request(map["limit" := Str(Decimal(n)), "page" := Str(Decimal(p))]))
            == Success(ListExerciseDto(ListExerciseQuery(n, p, None, None)))
  {
    var query := map["limit" := Str(Decimal(n)), "page" := Str(Decimal(p))];
    assert Field(Request(query).fields, "query") == Obj(query);
    assert Field(query, "programId") == Undefined && Field(query, "search") == Undefined;
    assert Field(query, "limit") == Str(Decimal(n)) && Field(query, "page") == Str(Decimal(p));
    LimitRoundTrip(1, 100, 10, n);
    PageRoundTrip(p);
  }

  /** The optional filters parse to what the client wrote. */
  lemma FiltersRoundTrip(p: nat, programId: nat, search: string)
    requires 3 <= Utf16Length(search) <= 200
    ensures ListExerciseSchema(Request(map["page" := Str(Decimal(p)), "programId" := Str(Decimal(programId)),
                                           "search" := Str(search)]))
            == Success(ListExerciseDto(ListExerciseQuery(10, p, Some(programId), Some(search))))
  {
    var query := map["page" := Str(Decimal(p)), "programId" := Str(Decimal(programId)), "search" := Str(search)];
    assert Field(Request(query).fields, "query") == Obj(query);
    assert Field(query, "limit") == Undefined && Field(query, "page") == Str(Decimal(p));
    assert Field(query, "programId") == Str(Decimal(programId));
    assert Search(Field(query, "search")) == Success(Some(search));
    LimitDefault(1, 100, 10, Undefined);
    PageRoundTrip(p);
    ProgramIdRoundTrip(programId);
  }
}
