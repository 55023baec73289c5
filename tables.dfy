/**
  What the repositories ask of the database, on a table held as a sequence
  of rows in insertion order (the queries have no ORDER BY): a WHERE filter,
  the first matching row, and OFFSET/LIMIT pagination.
*/
module Tables {
  import opened Wrappers

  function Min(a: int, b: int): int {
    if a <= b then a else b
  }

  /** The rows satisfying `p`, in table order. */
  function Filter<T>(s: seq<T>, p: T -> bool): (r: seq<T>)
    ensures |r| <= |s|
    ensures forall i :: 0 <= i < |r| ==> r[i] in s && p(r[i])
    ensures forall i :: 0 <= i < |s| && p(s[i]) ==> s[i] in r
  {
    if s == [] then [] else (if p(s[0]) then [s[0]] else []) + Filter(s[1..], p)
  }

  /** The first row satisfying `p`, as `findOne`/`findByPk` return it. */
  function FindFirst<T>(s: seq<T>, p: T -> bool): (r: Option<T>)
    ensures r.Some? ==> r.value in s && p(r.value)
    ensures r.None? <==> forall i :: 0 <= i < |s| ==> !p(s[i])
    ensures r.Some? ==> exists k :: 0 <= k < |s| && s[k] == r.value && forall j :: 0 <= j < k ==> !p(s[j])
  {
    if s == [] then None else if p(s[0]) then Some(s[0]) else FindFirst(s[1..], p)
  }

  /** The first row satisfying `p` is the head of the filtered rows. */
  lemma {:induction false} FindFirstFiltered<T>(s: seq<T>, p: T -> bool)
    ensures FindFirst(s, p) == (if Filter(s, p) == [] then None else Some(Filter(s, p)[0]))
  {
    if s != [] && !p(s[0]) {
      FindFirstFiltered(s[1..], p);
      assert Filter(s, p) == Filter(s[1..], p);
    }
  }

  /** `OFFSET offset LIMIT limit`: the rows from `offset` on, at most `limit` of them. */
  function Window<T>(s: seq<T>, offset: nat, limit: nat): (r: seq<T>)
    ensures |r| <= limit
    ensures offset < |s| ==> |r| == Min(limit, |s| - offset) && r == s[offset .. offset + |r|]
    ensures offset >= |s| ==> r == []
  {
    if offset >= |s| then [] else s[offset .. Min(|s|, offset + limit)]
  }

  /** The first row of page `page`. */
  function Offset(limit: nat, page: nat): nat {
    limit * page
  }

  /** `OFFSET limit * page LIMIT limit`. */
  function Paginate<T>(s: seq<T>, limit: nat, page: nat): (r: seq<T>)
    ensures |r| <= limit
    ensures var offset := Offset(limit, page);
            && (offset < |s| ==> |r| == Min(limit, |s| - offset) && r == s[offset .. offset + |r|])
            && (offset >= |s| ==> r == [])
  {
    Window(s, Offset(limit, page), limit)
  }

  /** Pages 0, 1, ..., n - 1 one after the other. */
  function Pages<T>(s: seq<T>, limit: nat, n: nat): seq<T> {
    if n == 0 then [] else Pages(s, limit, n - 1) + Window(s, Offset(limit, n - 1), limit)
  }

  /** The first n pages neither overlap nor leave gaps: together they are
      the first limit * n rows. */
  lemma {:induction false} PagesCover<T>(s: seq<T>, limit: nat, n: nat)
    ensures Pages(s, limit, n) == s[..Min(|s|, Offset(limit, n))]
  {
    if n > 0 {
      PagesCover(s, limit, n - 1);
      var offset := Offset(limit, n - 1);
      assert Pages(s, limit, n) == s[..Min(|s|, offset)] + Window(s, offset, limit);
      ExtendPrefix(s, offset, limit);
      NextOffset(limit, n);
    }
  }

  /** The window at `offset` continues the prefix that ends there. */
  lemma ExtendPrefix<T>(s: seq<T>, offset: nat, limit: nat)
    ensures s[..Min(|s|, offset)] + Window(s, offset, limit) == s[..Min(|s|, offset + limit)]
  {
    if offset < |s| {
      assert s[..offset] + s[offset .. Min(|s|, offset + limit)] == s[..Min(|s|, offset + limit)];
    }
  }

  lemma NextOffset(limit: nat, n: nat)
    requires n > 0
    ensures Offset(limit, n) == Offset(limit, n - 1) + limit
  {
  }

  /** Filtering distributes over appending rows. */
  lemma {:induction false} FilterAppend<T>(a: seq<T>, b: seq<T>, p: T -> bool)
    ensures Filter(a + b, p) == Filter(a, p) + Filter(b, p)
  {
    if a == [] {
      assert a + b == b;
    } else {
      assert (a + b)[1..] == a[1..] + b;
      FilterAppend(a[1..], b, p);
    }
  }

  /** Two predicates that agree on every row select the same rows. */
  lemma {:induction false} FilterSame<T>(s: seq<T>, p: T -> bool, q: T -> bool)
    requires forall i :: 0 <= i < |s| ==> p(s[i]) == q(s[i])
    ensures Filter(s, p) == Filter(s, q)
  {
    if s != [] {
      FilterSame(s[1..], p, q);
    }
  }

  /** A predicate that holds of every row keeps the whole table. */
  lemma {:induction false} FilterAll<T>(s: seq<T>, p: T -> bool)
    requires forall i :: 0 <= i < |s| ==> p(s[i])
    ensures Filter(s, p) == s
  {
    if s != [] {
      FilterAll(s[1..], p);
    }
  }

  /** Pages 0 and 1 together are the first 2 * limit rows. */
  lemma FirstTwoPages<T>(s: seq<T>, limit: nat)
    ensures Paginate(s, limit, 0) + Paginate(s, limit, 1) == s[..Min(|s|, limit * 2)]
  {
    PagesCover(s, limit, 2);
    assert Offset(limit, 2) == limit * 2;
    assert Pages(s, limit, 1) == [] + Window(s, 0, limit);
    assert [] + Window(s, 0, limit) == Paginate(s, limit, 0);
  }

  /** A predicate that holds of no row selects nothing. */
  lemma {:induction false} FilterNone<T>(s: seq<T>, p: T -> bool)
    requires forall i :: 0 <= i < |s| ==> !p(s[i])
    ensures Filter(s, p) == []
  {
    if s != [] {
      FilterNone(s[1..], p);
    }
  }

  /** A relation that holds between every earlier and later row still holds after filtering. */
  lemma {:induction false} FilterKeepsPairwise<T>(s: seq<T>, p: T -> bool, rel: (T, T) -> bool)
    requires forall i, j :: 0 <= i < j < |s| ==> rel(s[i], s[j])
    ensures forall i, j :: 0 <= i < j < |Filter(s, p)| ==> rel(Filter(s, p)[i], Filter(s, p)[j])
  {
    if s != [] {
      FilterKeepsPairwise(s[1..], p, rel);
      var rest := Filter(s[1..], p);
      forall j | 0 <= j < |rest|
        ensures rel(s[0], rest[j])
      {
        assert rest[j] in s[1..];
        var m :| 0 <= m < |s[1..]| && s[1..][m] == rest[j];
        assert s[m + 1] == rest[j];
      }
    }
  }

  /** When no two rows both satisfy `p`, at most one row is selected. */
  lemma {:induction false} FilterAtMostOne<T>(s: seq<T>, p: T -> bool)
    requires forall i, j :: 0 <= i < j < |s| && p(s[i]) ==> !p(s[j])
    ensures |Filter(s, p)| <= 1
  {
    if s != [] {
      FilterAtMostOne(s[1..], p);
      if p(s[0]) {
        forall i | 0 <= i < |s[1..]|
          ensures !p(s[1..][i])
        {
          assert s[1..][i] == s[i + 1];
        }
        FilterNone(s[1..], p);
      }
    }
  }

  /** Removing the rows that fail `p`, when exactly one row fails it, shortens the table by one. */
  lemma {:induction false} FilterDropsOne<T>(s: seq<T>, p: T -> bool, k: nat)
    requires k < |s| && !p(s[k])
    requires forall i :: 0 <= i < |s| && i != k ==> p(s[i])
    ensures |Filter(s, p)| == |s| - 1
  {
    if k == 0 {
      FilterAll(s[1..], p);
    } else {
      FilterDropsOne(s[1..], p, k - 1);
    }
  }

  /** A row appended after rows that all fail `p` is the first row satisfying it. */
  lemma FindFirstAppended<T>(s: seq<T>, x: T, p: T -> bool)
    requires forall i :: 0 <= i < |s| ==> !p(s[i])
    requires p(x)
    ensures FindFirst(s + [x], p) == Some(x)
  {
    FindFirstFiltered(s + [x], p);
    FilterAppend(s, [x], p);
    FilterNone(s, p);
    assert [x][1..] == [];
    assert Filter([x], p) == [x];
  }

  /** Appending a row related to every earlier row keeps a pairwise relation. */
  lemma AppendKeepsPairwise<T>(s: seq<T>, x: T, rel: (T, T) -> bool)
    requires forall i, j :: 0 <= i < j < |s| ==> rel(s[i], s[j])
    requires forall i :: 0 <= i < |s| ==> rel(s[i], x)
    ensures forall i, j :: 0 <= i < j < |s + [x]| ==> rel((s + [x])[i], (s + [x])[j])
  {
    forall i, j | 0 <= i < j < |s + [x]|
      ensures rel((s + [x])[i], (s + [x])[j])
    {
      if j < |s| {
        assert (s + [x])[i] == s[i] && (s + [x])[j] == s[j];
      } else {
        assert (s + [x])[i] == s[i] && (s + [x])[j] == x;
      }
    }
  }
}
