/**
  The parts of the zod schema library that the request schemas use: the
  values a schema receives, the issues it reports, and the object rules
  (field lookup, strict key checking, path prefixing).

  zod prefixes every issue raised while parsing a field with that field's
  path, and appends the `path` an `addIssue` call gives, so issue paths here
  are relative to the schema that raised them and an object schema adds its
  key in front.
*/
module Zod {
  import opened Wrappers

  /** A JavaScript value as a schema receives it. `Other` stands for null,
      booleans and arrays, with the type name zod reports for them. */
  datatype Value =
    | Undefined
    | Str(s: string)
    | Number(x: real)
    | Obj(fields: map<string, Value>)
    | Other(typeName: string)

  type Path = seq<string>

  datatype IssueCode =
    | Custom(message: string)
    | InvalidType(expected: string, received: string)
    | TooSmall(minimum: int, inclusive: bool)
    | TooBig(maximum: int, inclusive: bool)
    | InvalidEnumValue(options: seq<string>)
    | UnrecognizedKeys(keys: set<string>)

  datatype Issue = Issue(code: IssueCode, path: Path)

  /** The type name zod reports for a value. */
  function TypeName(v: Value): string {
    match v
    case Undefined => "undefined"
    case Str(_) => "string"
    case Number(_) => "number"
    case Obj(_) => "object"
    case Other(t) => t
  }

  /** A character outside the Basic Multilingual Plane, which JavaScript
      stores as a surrogate pair. */
  predicate IsAstral(c: char) {
    c as int > 0xFFFF
  }

  /** JavaScript's `String.length`: the number of UTF-16 code units, which is
      what zod's `min` and `max` on strings compare. */
  function Utf16Length(s: string): nat {
    if s == [] then 0 else (if IsAstral(s[0]) then 2 else 1) + Utf16Length(s[1..])
  }

  /** Every character is one or two UTF-16 units. */
  lemma {:induction false} Utf16LengthBounds(s: string)
    ensures |s| <= Utf16Length(s) <= 2 * |s|
  {
    if s != [] {
      Utf16LengthBounds(s[1..]);
    }
  }

  /** Text within the Basic Multilingual Plane has as many units as characters. */
  lemma {:induction false} Utf16LengthOfBmp(s: string)
    requires forall i :: 0 <= i < |s| ==> !IsAstral(s[i])
    ensures Utf16Length(s) == |s|
  {
    if s != [] {
      Utf16LengthOfBmp(s[1..]);
    }
  }

  /** One astral character after an ASCII letter is three units. */
  lemma Utf16LengthOfEmoji()
    ensures |"a\U{1F600}"| == 2 && Utf16Length("a\U{1F600}") == 3
  {
    assert "a\U{1F600}"[1..] == "\U{1F600}";
    assert "\U{1F600}"[1..] == "";
  }

  /** Property access: a missing key reads as `undefined`. */
  function Field(m: map<string, Value>, key: string): Value {
    if key in m then m[key] else Undefined
  }

  /** `z.string()`: the value must be a string. */
  function RequiredString(v: Value): (r: Result<string, Issue>)
    ensures r.Success? <==> v.Str?
    ensures r.Success? ==> r.value == v.s
    ensures r.Failure? ==> r.error == Issue(InvalidType("string", TypeName(v)), [])
  {
    if v.Str? then Success(v.s) else Failure(Issue(InvalidType("string", TypeName(v)), []))
  }

  /** `z.string().optional()`: absent, or a string. */
  function OptionalString(v: Value): (r: Result<Option<string>, Issue>)
    ensures r.Success? <==> v.Undefined? || v.Str?
    ensures r == Success(None) <==> v.Undefined?
    ensures v.Str? ==> r == Success(Some(v.s))
    ensures r.Failure? ==> r.error == Issue(InvalidType("string", TypeName(v)), [])
  {
    match v
    case Undefined => Success(None)
    case Str(s) => Success(Some(s))
    case _ => Failure(Issue(InvalidType("string", TypeName(v)), []))
  }

  /** The issues of a field parsed by a single-issue schema, under the field's key. */
  function FieldIssues<T>(key: string, r: Result<T, Issue>): (issues: seq<Issue>)
    ensures issues == [] <==> r.Success?
    ensures r.Failure? ==> issues == [Issue(r.error.code, [key] + r.error.path)]
  {
    if r.Success? then [] else [Issue(r.error.code, [key] + r.error.path)]
  }

  /** The issues of a field parsed by an object schema, under the field's key. */
  function ObjectIssues<T>(key: string, r: Result<T, seq<Issue>>): (issues: seq<Issue>)
    ensures r.Success? ==> issues == []
    ensures r.Failure? ==> issues == Nest(key, r.error)
  {
    if r.Success? then [] else Nest(key, r.error)
  }

  /** The issues raised under `key`, with `key` put in front of their paths. */
  function Nest(key: string, issues: seq<Issue>): (r: seq<Issue>)
    ensures |r| == |issues|
    ensures forall i :: 0 <= i < |r| ==> r[i] == Issue(issues[i].code, [key] + issues[i].path)
  {
    seq(|issues|, i requires 0 <= i < |issues| => Issue(issues[i].code, [key] + issues[i].path))
  }

  /** Every issue of a nested schema reappears under the key. */
  lemma NestKeeps(key: string, issues: seq<Issue>, e: Issue)
    requires e in issues
    ensures Issue(e.code, [key] + e.path) in Nest(key, issues)
  {
    var i :| 0 <= i < |issues| && issues[i] == e;
    assert Nest(key, issues)[i] == Issue(e.code, [key] + e.path);
  }

  /** `.strict()`: one issue listing every key outside the shape. */
  function StrictIssues(m: map<string, Value>, shape: set<string>): (r: seq<Issue>)
    ensures r == [] <==> m.Keys <= shape
    ensures r != [] ==> r == [Issue(UnrecognizedKeys(m.Keys - shape), [])]
  {
    if m.Keys <= shape then [] else [Issue(UnrecognizedKeys(m.Keys - shape), [])]
  }

  /** The expected-object issue of `z.object(...)` given something else. */
  function NotAnObject(v: Value): seq<Issue> {
    [Issue(InvalidType("object", TypeName(v)), [])]
  }

  /** Some issue in `issues` is at `path`. */
  predicate HasIssueAt(issues: seq<Issue>, path: Path) {
    exists i :: 0 <= i < |issues| && issues[i].path == path
  }
}
