/**
  `ProgramRepository`: read-only queries over the `programs` table, given as
  its rows in insertion order.
*/
module ProgramRepo {
  import opened Wrappers
  import opened Tables
  import opened SqlLike

  /** A row of `programs`: primary key and unique name. */
  datatype Program = Program(id: int, name: string)

  /** The WHERE clause of `list`: the name search only when it is a non-empty string. */
  predicate Matches(p: Program, search: Option<string>) {
    search.Some? && search.value != "" ==> ILike(p.name, ContainsPattern(search.value))
  }

  function Where(search: Option<string>): Program -> bool {
    (p: Program) => Matches(p, search)
  }

  function HasId(id: int): Program -> bool {
    (p: Program) => p.id == id
  }

  /** `findOneById({ id })`: the row with that primary key, or null. */
  function FindOneById(programs: seq<Program>, id: int): (r: Option<Program>)
    ensures r.Some? ==> r.value in programs && r.value.id == id
    ensures r.None? <==> forall i :: 0 <= i < |programs| ==> programs[i].id != id
  {
    FindFirst(programs, HasId(id))
  }

  /** `list({ limit, page, search })`: the matching rows from offset
      limit * page, at most limit of them. */
  function List(programs: seq<Program>, limit: nat, page: nat, search: Option<string>): (r: seq<Program>)
    ensures |r| <= limit
    ensures forall i :: 0 <= i < |r| ==> r[i] in programs && Matches(r[i], search)
    ensures var selected, offset := Filter(programs, Where(search)), Offset(limit, page);
            && (offset < |selected| ==>
                  |r| == Min(limit, |selected| - offset) && r == selected[offset .. offset + |r|])
            && (offset >= |selected| ==> r == [])
  {
    Paginate(Filter(programs, Where(search)), limit, page)
  }

  /** Without a (non-empty) search every row is a candidate: the result is
      the plain page of the table. */
  lemma ListWithoutSearch(programs: seq<Program>, limit: nat, page: nat, search: Option<string>)
    requires search.None? || search == Some("")
    ensures List(programs, limit, page, search) == Paginate(programs, limit, page)
  {
    FilterAll(programs, Where(search));
  }

  /** With a search text free of LIKE wildcards, every listed name contains it, ignoring case. */
  lemma ListSearchContains(programs: seq<Program>, limit: nat, page: nat, search: string)
    requires search != "" && NoWildcards(search)
    ensures forall p :: p in List(programs, limit, page, Some(search)) ==>
              Contains(Lower(p.name), Lower(search))
  {
    forall p | p in List(programs, limit, page, Some(search))
      ensures Contains(Lower(p.name), Lower(search))
    {
      ILikeContains(p.name, search);
    }
  }

  /** Consecutive pages of the same query neither overlap nor leave gaps. */
  lemma ListPagesCover(programs: seq<Program>, limit: nat, search: Option<string>)
    ensures List(programs, limit, 0, search) + List(programs, limit, 1, search)
            == Filter(programs, Where(search))[..Min(|Filter(programs, Where(search))|, limit * 2)]
  {
    FirstTwoPages(Filter(programs, Where(search)), limit);
  }
}
