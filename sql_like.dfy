/**
  PostgreSQL's `ILIKE`, which the repositories use for the name search
  (`name ILIKE '%' || search || '%'`): `%` matches any run of characters,
  `_` any single character, and a backslash makes the next pattern character
  literal. Case is ignored by lower-casing both sides; only ASCII letters are
  folded here.
*/
module SqlLike {

  function LowerChar(c: char): char {
    if 'A' <= c <= 'Z' then ((c as int) + 32) as char else c
  }

  function Lower(s: string): (r: string)
    ensures |r| == |s|
    ensures forall i :: 0 <= i < |s| ==> r[i] == LowerChar(s[i])
  {
    seq(|s|, i requires 0 <= i < |s| => LowerChar(s[i]))
  }

  /** The characters that LIKE does not take literally. */
  predicate IsWildcard(c: char) {
    c == '%' || c == '_' || c == '\\'
  }

  predicate NoWildcards(s: string) {
    forall i :: 0 <= i < |s| ==> !IsWildcard(s[i])
  }

  /** `s LIKE p`. A pattern ending in a lone backslash is an error in
      PostgreSQL; the patterns built here always end in '%', so that case
      never arises, and it is read as a literal backslash. */
  predicate Like(s: string, p: string)
    decreases |p|, |s|
  {
    if p == [] then s == []
    else if p[0] == '%' then Like(s, p[1..]) || (s != [] && Like(s[1..], p))
    else if p[0] == '_' then s != [] && Like(s[1..], p[1..])
    else if p[0] == '\\' && |p| >= 2 then s != [] && s[0] == p[1] && Like(s[1..], p[2..])
    else s != [] && s[0] == p[0] && Like(s[1..], p[1..])
  }

  /** `s ILIKE p`. */
  predicate ILike(s: string, p: string) {
    Like(Lower(s), Lower(p))
  }

  /** The pattern `%${search}%` built from the search text, which is not escaped. */
  function ContainsPattern(search: string): string {
    "%" + search + "%"
  }

  predicate IsPrefix(q: string, t: string) {
    |q| <= |t| && t[..|q|] == q
  }

  /** `q` occurs in `s` as a run of consecutive characters. */
  predicate Contains(s: string, q: string) {
    exists k :: 0 <= k <= |s| && IsPrefix(q, s[k..])
  }

  lemma {:induction false} LikePercent(s: string)
    ensures Like(s, "%")
  {
    if s != [] {
      LikePercent(s[1..]);
    }
  }

  /** A literal text followed by '%' matches exactly the strings it begins. */
  lemma {:induction false} LikeLiteralPrefix(s: string, q: string)
    requires NoWildcards(q)
    ensures Like(s, q + "%") <==> IsPrefix(q, s)
  {
    if q == [] {
      assert q + "%" == "%";
      LikePercent(s);
    } else {
      var p := q + "%";
      assert p[0] == q[0] && !IsWildcard(q[0]);
      assert p[1..] == q[1..] + "%";
      if s != [] {
        LikeLiteralPrefix(s[1..], q[1..]);
        if IsPrefix(q, s) {
          assert s[1..][..|q| - 1] == s[..|q|][1..];
        }
        if s[0] == q[0] && IsPrefix(q[1..], s[1..]) {
          assert s[..|q|] == [s[0]] + s[1..][..|q| - 1];
        }
      }
    }
  }

  /** A leading '%' lets the rest of the pattern match any suffix. */
  lemma {:induction false} LikeLeadingPercent(s: string, p: string)
    ensures Like(s, "%" + p) <==> exists k :: 0 <= k <= |s| && Like(s[k..], p)
  {
    assert ("%" + p)[1..] == p;
    assert s[0..] == s;
    if s != [] {
      LikeLeadingPercent(s[1..], p);
      if Like(s[1..], "%" + p) {
        var k :| 0 <= k <= |s[1..]| && Like(s[1..][k..], p);
        assert s[1..][k..] == s[k + 1..];
      }
      if exists k :: 0 <= k <= |s| && Like(s[k..], p) {
        var k :| 0 <= k <= |s| && Like(s[k..], p);
        if k > 0 {
          assert s[1..][k - 1..] == s[k..];
        }
      }
    }
  }

  /** For a search text without wildcards, LIKE '%text%' is substring search. */
  lemma LikeContains(s: string, q: string)
    requires NoWildcards(q)
    ensures Like(s, ContainsPattern(q)) <==> Contains(s, q)
  {
    assert ContainsPattern(q) == "%" + (q + "%");
    LikeLeadingPercent(s, q + "%");
    forall k | 0 <= k <= |s|
      ensures Like(s[k..], q + "%") <==> IsPrefix(q, s[k..])
    {
      LikeLiteralPrefix(s[k..], q);
    }
  }

  /** For a search text without wildcards, ILIKE '%text%' is case-insensitive substring search. */
  lemma ILikeContains(s: string, q: string)
    requires NoWildcards(q)
    ensures ILike(s, ContainsPattern(q)) <==> Contains(Lower(s), Lower(q))
  {
    assert Lower(ContainsPattern(q)) == ContainsPattern(Lower(q));
    LikeContains(Lower(s), Lower(q));
  }

  /** The search text is not escaped: "a_c" matches the name "abc", which does not contain it. */
  lemma UnescapedWildcard()
    ensures ILike("abc", ContainsPattern("a_c"))
    ensures !Contains(Lower("abc"), Lower("a_c"))
  {
    var p := Lower(ContainsPattern("a_c"));
    var s := Lower("abc");
    assert p == "%a_c%";
    assert s == "abc";
    assert Like("", "%") by { LikePercent(""); }
    assert Like("abc", "a_c%");
    assert Like("abc", "%a_c%");
    forall k | 0 <= k <= |s|
      ensures !IsPrefix(Lower("a_c"), s[k..])
    {
      assert Lower("a_c") == "a_c";
      if k == 0 {
        assert s[k..][1] == 'b';
      }
    }
  }
}
