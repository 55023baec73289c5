/**
  `ListProgramSchema` of GET /program/list: a strict object holding only
  `query`, itself a strict object of limit, page and search.
*/
module ProgramRouter {
  import opened Wrappers
  import opened JsNumbers
  import opened Zod
  import opened Validators

  datatype ListProgramQuery = ListProgramQuery(limit: int, page: int, search: Option<string>)

  datatype ListProgramDto = ListProgramDto(query: ListProgramQuery)

  const QueryKeys: set<string> := {"limit", "page", "search"}
  const TopKeys: set<string> := {"query"}

  function LimitField(m: map<string, Value>): Result<int, Issue> {
    Limit(1, 100, 10, Field(m, "limit"))
  }

  /** The issues of the `query` object, field by field, then the unknown keys. */
  function QueryIssues(m: map<string, Value>): seq<Issue> {
    FieldIssues("limit", LimitField(m))
    + FieldIssues("page", Page(Field(m, "page")))
    + FieldIssues("search", Search(Field(m, "search")))
    + StrictIssues(m, QueryKeys)
  }

  /** The `query` object: accepted when no field and no key raises an issue. */
  function QuerySchema(v: Value): (r: Result<ListProgramQuery, seq<Issue>>)
    ensures r.Failure? ==> r.error != []
    ensures r.Success? <==>
              && v.Obj? && v.fields.Keys <= QueryKeys
              && LimitField(v.fields).Success? && Page(Field(v.fields, "page")).Success?
              && Search(Field(v.fields, "search")).Success?
    ensures r.Success? ==>
              && r.value.limit == LimitField(v.fields).value
              && r.value.page == Page(Field(v.fields, "page")).value
              && r.value.search == Search(Field(v.fields, "search")).value
    ensures v.Obj? && r.Failure? ==> r.error == QueryIssues(v.fields)
  {
    if !v.Obj? then Failure(NotAnObject(v))
    else
      var m := v.fields;
      var issues := QueryIssues(m);
      if issues == [] then
        Success(ListProgramQuery(LimitField(m).value, Page(Field(m, "page")).value, Search(Field(m, "search")).value))
      else Failure(issues)
  }

  /** `ListProgramSchema`, applied to `{ query: req.query }`. */
  function ListProgramSchema(v: Value): (r: Result<ListProgramDto, seq<Issue>>)
    ensures r.Success? <==> v.Obj? && v.fields.Keys <= TopKeys && QuerySchema(Field(v.fields, "query")).Success?
    ensures r.Success? ==> r.value.query == QuerySchema(Field(v.fields, "query")).value
    ensures v.Obj? && r.Failure? ==>
              r.error == ObjectIssues("query", QuerySchema(Field(v.fields, "query"))) + StrictIssues(v.fields, TopKeys)
  {
    if !v.Obj? then Failure(NotAnObject(v))
    else
      var query := QuerySchema(Field(v.fields, "query"));
      var issues := ObjectIssues("query", query) + StrictIssues(v.fields, TopKeys);
      if issues == [] then Success(ListProgramDto(query.value)) else Failure(issues)
  }

  /** `{ query: q }` as the route builds it. */
  function Request(query: map<string, Value>): Value {
    Obj(map["query" := Obj(query)])
  }

  /** Every accepted query has its limit in [1, 100], a page >= 0 and a
      search of 3 to 200 characters if any. */
  lemma AcceptedBounds(v: Value)
    requires ListProgramSchema(v).Success?
    ensures var q := ListProgramSchema(v).value.query;
            && 1 <= q.limit <= 100 && q.page >= 0
            && (q.search.Some? ==> 3 <= Utf16Length(q.search.value) <= 200)
  {
  }

  /** Without a `limit` key the limit is 10. */
  lemma DefaultLimit(query: map<string, Value>)
    requires "limit" !in query
    requires ListProgramSchema(Request(query)).Success?
    ensures ListProgramSchema(Request(query)).value.query.limit == 10
  {
    assert Field(query, "limit") == Undefined;
  }

  /** Without a `page` key the request is rejected, with a type issue at query.page. */
  lemma PageRequired(query: map<string, Value>)
    requires "page" !in query
    ensures ListProgramSchema(Request(query)).Failure?
    ensures Issue(InvalidType("string", "undefined"), ["query", "page"]) in ListProgramSchema(Request(query)).error
  {
    assert Field(Request(query).fields, "query") == Obj(query);
    assert Field(query, "page") == Undefined;
    var e := Issue(InvalidType("string", "undefined"), ["page"]);
    assert Page(Undefined) == Failure(Issue(InvalidType("string", "undefined"), []));
    assert ["page"] + [] == ["page"];
    assert FieldIssues("page", Page(Field(query, "page"))) == [e];
    assert e in QueryIssues(query);
    NestKeeps("query", QuerySchema(Obj(query)).error, e);
    assert ["query"] + e.path == ["query", "page"];
  }

  /** A search of fewer than 3 or more than 200 characters is rejected at query.search. */
  lemma SearchLengthChecked(query: map<string, Value>, search: string)
    requires "search" in query && query["search"] == Str(search)
    requires Utf16Length(search) < 3 || Utf16Length(search) > 200
    ensures ListProgramSchema(Request(query)).Failure?
    ensures Utf16Length(search) < 3 ==>
              Issue(TooSmall(3, true), ["query", "search"]) in ListProgramSchema(Request(query)).error
    ensures Utf16Length(search) > 200 ==>
              Issue(TooBig(200, true), ["query", "search"]) in ListProgramSchema(Request(query)).error
  {
    assert Field(Request(query).fields, "query") == Obj(query);
    var e := Search(Str(search)).error;
    assert ["search"] + [] == ["search"];
    assert FieldIssues("search", Search(Field(query, "search"))) == [Issue(e.code, ["search"])];
    assert Issue(e.code, ["search"]) in QueryIssues(query);
    NestKeeps("query", QuerySchema(Obj(query)).error, Issue(e.code, ["search"]));
    assert ["query"] + ["search"] == ["query", "search"];
  }

  /** A query key outside the shape is rejected, and named in the issue. */
  lemma UnknownQueryKey(query: map<string, Value>, key: string)
    requires key in query && key !in QueryKeys
    ensures ListProgramSchema(Request(query)).Failure?
    ensures Issue(UnrecognizedKeys(query.Keys - QueryKeys), ["query"]) in ListProgramSchema(Request(query)).error
    ensures key in query.Keys - QueryKeys
  {
    assert Field(Request(query).fields, "query") == Obj(query);
    var e := Issue(UnrecognizedKeys(query.Keys - QueryKeys), []);
    assert key in query.Keys - QueryKeys;
    assert StrictIssues(query, QueryKeys) == [e];
    assert e in QueryIssues(query);
    NestKeeps("query", QuerySchema(Obj(query)).error, e);
    assert ["query"] + e.path == ["query"];
  }

  /** In particular `programId`, which the exercise list accepts, is rejected here. */
  lemma ProgramIdRejected(query: map<string, Value>)
    requires "programId" in query
    ensures ListProgramSchema(Request(query)).Failure?
    ensures Issue(UnrecognizedKeys(query.Keys - QueryKeys), ["query"]) in ListProgramSchema(Request(query)).error
    ensures "programId" in query.Keys - QueryKeys
  {
    UnknownQueryKey(query, "programId");
  }

  /** A top-level key beside `query` is rejected. */
  lemma UnknownTopKey(fields: map<string, Value>, key: string)
    requires key in fields && key != "query"
    ensures ListProgramSchema(Obj(fields)).Failure?
    ensures Issue(UnrecognizedKeys(fields.Keys - TopKeys), []) in ListProgramSchema(Obj(fields)).error
    ensures key in fields.Keys - TopKeys
  {
  }

  /** The query a client writes for limit n, page p and a search parses back to them. */
  lemma ValidQueryRoundTrip(n: nat, p: nat, search: string)
    requires 1 <= n <= 100 && 3 <= Utf16Length(search) <= 200
    ensures ListProgramSchema(Request(map["limit" := Str(Decimal(n)), "page" := Str(Decimal(p)), "search" := Str(search)]))
            == Success(ListProgramDto(ListProgramQuery(n, p, Some(search))))
  {
    var query := map["limit" := Str(Decimal(n)), "page" := Str(Decimal(p)), "search" := Str(search)];
    assert Field(Request(query).fields, "query") == Obj(query);
    assert Field(query, "limit") == Str(Decimal(n)) && Field(query, "page") == Str(Decimal(p));
    assert Search(Field(query, "search")) == Success(Some(search));
    LimitRoundTrip(1, 100, 10, n);
    PageRoundTrip(p);
  }
}
