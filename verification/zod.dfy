/** The fragment of the zod validation library that the application's schemas use,
    as an interpreter: a `Schema` value describes a zod type, `FieldIssues` is what
    `safeParse` reports for one property, and `ObjectIssues` is the issue list of a
    `z.object` schema. Issues keep zod's order (shape order, then check order), because
    the forms show `issues[0].message`. */
module Zod {
  import opened Wrappers
  import opened JsonValues
  import opened Ascii
  import Sequences

  /** The string formats the schemas ask for. `SlugRegex` is the regular expression
      `^[a-z0-9-]+$`; the other three are zod's built-in recognisers. */
  datatype Format = Email | Uuid | Url | SlugRegex

  /** One refinement of `z.string()`; `message` is the custom message, `None` for zod's default. */
  datatype Check =
    | MinLength(bound: nat, message: Option<string>)
    | MaxLength(bound: nat, message: Option<string>)
    | Matches(format: Format, message: Option<string>)

  datatype Schema =
    | Str(checks: seq<Check>)       // z.string() followed by its checks
    | Enum(options: seq<string>)    // z.enum([...])
    | Record                        // z.record(z.unknown())
    | ArrayOf(element: Schema)      // z.array(element)
    | Nullable(inner: Schema)       // inner.nullable()
    | Optional(inner: Schema)       // inner.optional()

  /** A z.object shape: property names with their schemas, in declaration order. */
  type Shape = seq<(string, Schema)>

  datatype PathSegment = Key(name: string) | Index(position: nat)

  datatype IssueCode =
    | InvalidType
    | TooSmall(minimum: nat)
    | TooBig(maximum: nat)
    | InvalidString(validation: Format)
    | InvalidEnumValue

  datatype Issue = Issue(path: seq<PathSegment>, code: IssueCode, message: Option<string>)

  /** zod's email, UUID and URL recognisers, which this model leaves uninterpreted. */
  datatype Recognisers = Recognisers(isEmail: string -> bool, isUuid: string -> bool, isUrl: string -> bool)

  /** One character of the class `[a-z0-9-]`. */
  predicate SlugChar(c: char)
  {
    IsLower(c) || IsDigit(c) || c == '-'
  }

  /** `/^[a-z0-9-]+$/.test(s)`: one or more characters, each from the class. */
  predicate MatchesSlugRegex(s: string)
  {
    |s| > 0 && forall i :: 0 <= i < |s| ==> SlugChar(s[i])
  }

  predicate FormatHolds(rec: Recognisers, f: Format, s: string)
  {
    match f
    case Email => rec.isEmail(s)
    case Uuid => rec.isUuid(s)
    case Url => rec.isUrl(s)
    case SlugRegex => MatchesSlugRegex(s)
  }

  /** What a check demands of a string; `.min` and `.max` bounds are inclusive. */
  predicate CheckHolds(rec: Recognisers, c: Check, s: string)
  {
    match c
    case MinLength(n, _) => |s| >= n
    case MaxLength(n, _) => |s| <= n
    case Matches(f, _) => FormatHolds(rec, f, s)
  }

  predicate AllChecksHold(rec: Recognisers, checks: seq<Check>, s: string)
  {
    forall i :: 0 <= i < |checks| ==> CheckHolds(rec, checks[i], s)
  }

  /** The issue a failing check raises. */
  function CheckIssue(path: seq<PathSegment>, c: Check): Issue
  {
    match c
    case MinLength(n, m) => Issue(path, TooSmall(n), m)
    case MaxLength(n, m) => Issue(path, TooBig(n), m)
    case Matches(f, m) => Issue(path, InvalidString(f), m)
  }

  /** `f` lists the positions of exactly the checks `s` fails, in increasing order. */
  predicate FailingPositions(rec: Recognisers, checks: seq<Check>, s: string, f: seq<nat>)
  {
    && (forall k :: 0 <= k < |f| ==> f[k] < |checks| && !CheckHolds(rec, checks[f[k]], s))
    && (forall i :: 0 <= i < |checks| && !CheckHolds(rec, checks[i], s) ==> i in f)
    && (forall a, b :: 0 <= a < b < |f| ==> f[a] < f[b])
  }

  /** The positions, from `from` on, of the checks a string fails, in increasing order. */
  function FailingFrom(rec: Recognisers, checks: seq<Check>, s: string, from: nat): (f: seq<nat>)
    requires from <= |checks|
    ensures forall k :: 0 <= k < |f| ==> from <= f[k] < |checks| && !CheckHolds(rec, checks[f[k]], s)
    decreases |checks| - from
  {
    if from == |checks| then []
    else if CheckHolds(rec, checks[from], s) then FailingFrom(rec, checks, s, from + 1)
    else [from] + FailingFrom(rec, checks, s, from + 1)
  }

  /** The scan misses no failing check and lists positions in increasing order. */
  lemma {:induction false} FailingFromCompleteSorted(rec: Recognisers, checks: seq<Check>, s: string, from: nat)
    requires from <= |checks|
    ensures forall i :: from <= i < |checks| && !CheckHolds(rec, checks[i], s) ==> i in FailingFrom(rec, checks, s, from)
    ensures forall a, b :: 0 <= a < b < |FailingFrom(rec, checks, s, from)| ==>
      FailingFrom(rec, checks, s, from)[a] < FailingFrom(rec, checks, s, from)[b]
    decreases |checks| - from
  {
    if from < |checks| {
      FailingFromCompleteSorted(rec, checks, s, from + 1);
    }
  }

  function FailingChecks(rec: Recognisers, checks: seq<Check>, s: string): (f: seq<nat>)
    ensures FailingPositions(rec, checks, s, f)
  {
    FailingFromCompleteSorted(rec, checks, s, 0);
    FailingFrom(rec, checks, s, 0)
  }

  /** The issues of the checks from `from` on, in check order. */
  function IssuesFrom(rec: Recognisers, path: seq<PathSegment>, checks: seq<Check>, s: string, from: nat): (r: seq<Issue>)
    requires from <= |checks|
    ensures |r| == |FailingFrom(rec, checks, s, from)|
    ensures forall k :: 0 <= k < |r| ==> r[k] == CheckIssue(path, checks[FailingFrom(rec, checks, s, from)[k]])
    ensures |r| <= |checks| - from
    ensures forall k :: 0 <= k < |r| ==> r[k].path == path
    decreases |checks| - from
  {
    if from == |checks| then []
    else
      var rest := IssuesFrom(rec, path, checks, s, from + 1);
      var later := FailingFrom(rec, checks, s, from + 1);
      if CheckHolds(rec, checks[from], s) then
        assert FailingFrom(rec, checks, s, from) == later;
        rest
      else
        assert FailingFrom(rec, checks, s, from) == [from] + later;
        var r := [CheckIssue(path, checks[from])] + rest;
        assert forall k :: 1 <= k < |r| ==> r[k] == rest[k - 1];
        r
  }

  /** No position from `from` on fails exactly when every check from `from` on holds. */
  lemma {:induction false} FailingFromEmptyIff(rec: Recognisers, checks: seq<Check>, s: string, from: nat)
    requires from <= |checks|
    ensures |FailingFrom(rec, checks, s, from)| == 0 <==> forall i :: from <= i < |checks| ==> CheckHolds(rec, checks[i], s)
    decreases |checks| - from
  {
    if from < |checks| {
      FailingFromEmptyIff(rec, checks, s, from + 1);
    }
  }

  /** Runs every check of a string schema in order; a failing check does not stop the rest.
      The issues are those of exactly the failing checks, one each, in check order. */
  function CheckIssues(rec: Recognisers, path: seq<PathSegment>, checks: seq<Check>, s: string): (r: seq<Issue>)
    ensures |r| == |FailingChecks(rec, checks, s)|
    ensures forall k :: 0 <= k < |r| ==> r[k] == CheckIssue(path, checks[FailingChecks(rec, checks, s)[k]])
    ensures |r| == 0 <==> AllChecksHold(rec, checks, s)
    ensures |r| <= |checks|
    ensures forall k :: 0 <= k < |r| ==> r[k].path == path
  {
    FailingFromEmptyIff(rec, checks, s, 0);
    IssuesFrom(rec, path, checks, s, 0)
  }

  /** The first issue is that of the first failing check: the one a form shows. */
  lemma FirstIssueIsFirstFailure(rec: Recognisers, path: seq<PathSegment>, checks: seq<Check>, s: string, j: nat)
    requires j < |checks| && !CheckHolds(rec, checks[j], s)
    requires forall i :: 0 <= i < j ==> CheckHolds(rec, checks[i], s)
    ensures |CheckIssues(rec, path, checks, s)| > 0
    ensures CheckIssues(rec, path, checks, s)[0] == CheckIssue(path, checks[j])
  {
    var f := FailingChecks(rec, checks, s);
    assert j in f;
    assert f[0] >= j;
  }

  /** The issues zod reports for one value, `None` being `undefined` (an absent property).
      Every issue lies at or below `path`. */
  function FieldIssues(rec: Recognisers, path: seq<PathSegment>, schema: Schema, v: Option<Json>): (r: seq<Issue>)
    ensures forall k :: 0 <= k < |r| ==> path <= r[k].path
    decreases schema, 0
  {
    match schema
    case Optional(inner) =>
      if v.None? then [] else FieldIssues(rec, path, inner, v)
    case Nullable(inner) =>
      if v == Some(JNull) then [] else FieldIssues(rec, path, inner, v)
    case Str(checks) =>
      if v.Some? && v.value.JString? then CheckIssues(rec, path, checks, v.value.s)
      else [Issue(path, InvalidType, None)]
    case Enum(options) =>
      if !(v.Some? && v.value.JString?) then [Issue(path, InvalidType, None)]
      else if v.value.s in options then []
      else [Issue(path, InvalidEnumValue, None)]
    case Record =>
      if v.Some? && v.value.JObject? then [] else [Issue(path, InvalidType, None)]
    case ArrayOf(element) =>
      if v.Some? && v.value.JArray? then ElementIssues(rec, path, element, v.value.items, 0)
      else [Issue(path, InvalidType, None)]
  }

  /** The issues of the array elements from position `i` on, each under its index. */
  function ElementIssues(rec: Recognisers, path: seq<PathSegment>, element: Schema, items: seq<Json>, i: nat): (r: seq<Issue>)
    requires i <= |items|
    ensures forall k :: 0 <= k < |r| ==> path <= r[k].path
    decreases element, |items| - i + 1
  {
    if i == |items| then []
    else
      var here := FieldIssues(rec, path + [Index(i)], element, Some(items[i]));
      assert forall k :: 0 <= k < |here| ==> path <= path + [Index(i)] <= here[k].path;
      here + ElementIssues(rec, path, element, items, i + 1)
  }

  /** What a schema admits, stated directly rather than through the issues it raises. */
  predicate Admits(rec: Recognisers, schema: Schema, v: Option<Json>)
    decreases schema
  {
    match schema
    case Optional(inner) => v.None? || Admits(rec, inner, v)
    case Nullable(inner) => v == Some(JNull) || Admits(rec, inner, v)
    case Str(checks) => v.Some? && v.value.JString? && AllChecksHold(rec, checks, v.value.s)
    case Enum(options) => v.Some? && v.value.JString? && v.value.s in options
    case Record => v.Some? && v.value.JObject?
    case ArrayOf(element) =>
      v.Some? && v.value.JArray? &&
      forall k :: 0 <= k < |v.value.items| ==> Admits(rec, element, Some(v.value.items[k]))
  }

  /** A value raises no issue exactly when its schema admits it. */
  lemma {:induction false} FieldIssuesEmptyIff(rec: Recognisers, path: seq<PathSegment>, schema: Schema, v: Option<Json>)
    ensures |FieldIssues(rec, path, schema, v)| == 0 <==> Admits(rec, schema, v)
    decreases schema, 0
  {
    match schema
    case Optional(inner) =>
      if v.Some? { FieldIssuesEmptyIff(rec, path, inner, v); }
    case Nullable(inner) =>
      if v != Some(JNull) { FieldIssuesEmptyIff(rec, path, inner, v); }
    case Str(checks) =>
    case Enum(options) =>
    case Record =>
    case ArrayOf(element) =>
      if v.Some? && v.value.JArray? {
        ElementIssuesEmptyIff(rec, path, element, v.value.items, 0);
      }
  }

  lemma {:induction false} ElementIssuesEmptyIff(rec: Recognisers, path: seq<PathSegment>, element: Schema, items: seq<Json>, i: nat)
    requires i <= |items|
    ensures |ElementIssues(rec, path, element, items, i)| == 0
            <==> forall k :: i <= k < |items| ==> Admits(rec, element, Some(items[k]))
    decreases element, |items| - i + 1
  {
    if i < |items| {
      FieldIssuesEmptyIff(rec, path + [Index(i)], element, Some(items[i]));
      ElementIssuesEmptyIff(rec, path, element, items, i + 1);
    }
  }

  function ShapeKeys(shape: Shape): set<string>
  {
    set i | 0 <= i < |shape| :: shape[i].0
  }

  /** The issues of every property of a shape, in shape order, each under its key. */
  function ShapeIssues(rec: Recognisers, shape: Shape, fields: map<string, Json>): (r: seq<Issue>)
    ensures forall k :: 0 <= k < |r| ==>
      |r[k].path| > 0 && r[k].path[0].Key? && r[k].path[0].name in ShapeKeys(shape)
  {
    if |shape| == 0 then []
    else
      var key := shape[0].0;
      var here := FieldIssues(rec, [Key(key)], shape[0].1, Lookup(fields, key));
      var rest := ShapeIssues(rec, shape[1..], fields);
      assert key in ShapeKeys(shape);
      assert forall k :: 0 <= k < |here| ==> [Key(key)] <= here[k].path;
      assert ShapeKeys(shape[1..]) <= ShapeKeys(shape) by {
        forall x | x in ShapeKeys(shape[1..]) ensures x in ShapeKeys(shape) {
          var j :| 0 <= j < |shape[1..]| && shape[1..][j].0 == x;
          assert shape[j + 1].0 == x;
        }
      }
      here + rest
  }

  /** Every property of the shape is admitted by its schema. */
  predicate ShapeAdmits(rec: Recognisers, shape: Shape, fields: map<string, Json>)
  {
    forall i :: 0 <= i < |shape| ==> Admits(rec, shape[i].1, Lookup(fields, shape[i].0))
  }

  lemma {:induction false} ShapeIssuesEmptyIff(rec: Recognisers, shape: Shape, fields: map<string, Json>)
    ensures |ShapeIssues(rec, shape, fields)| == 0 <==> ShapeAdmits(rec, shape, fields)
  {
    if |shape| > 0 {
      FieldIssuesEmptyIff(rec, [Key(shape[0].0)], shape[0].1, Lookup(fields, shape[0].0));
      ShapeIssuesEmptyIff(rec, shape[1..], fields);
      assert forall i :: 1 <= i < |shape| ==> shape[i] == shape[1..][i - 1];
    }
  }

  /** The issues of a one-property shape are that property's issues under its key. */
  lemma SingleShapeIssues(rec: Recognisers, key: string, schema: Schema, fields: map<string, Json>)
    ensures ShapeIssues(rec, [(key, schema)], fields) == FieldIssues(rec, [Key(key)], schema, Lookup(fields, key))
  {
    assert [(key, schema)][1..] == [];
  }

  /** Shape order: the issues of `a + b` are those of `a` followed by those of `b`. */
  lemma {:induction false} ShapeIssuesConcat(rec: Recognisers, a: Shape, b: Shape, fields: map<string, Json>)
    ensures ShapeIssues(rec, a + b, fields) == ShapeIssues(rec, a, fields) + ShapeIssues(rec, b, fields)
  {
    if |a| == 0 {
      assert a + b == b;
    } else {
      assert (a + b)[0] == a[0];
      assert (a + b)[1..] == a[1..] + b;
      ShapeIssuesConcat(rec, a[1..], b, fields);
      var here := FieldIssues(rec, [Key(a[0].0)], a[0].1, Lookup(fields, a[0].0));
      Sequences.ConcatAssoc(here, ShapeIssues(rec, a[1..], fields), ShapeIssues(rec, b, fields));
    }
  }

  /** The first issue of a shape, which the forms display, is the first issue of the
      first property its schema does not admit. */
  lemma {:induction false} FirstShapeIssue(rec: Recognisers, shape: Shape, fields: map<string, Json>, j: nat)
    requires j < |shape|
    requires forall i :: 0 <= i < j ==> Admits(rec, shape[i].1, Lookup(fields, shape[i].0))
    requires !Admits(rec, shape[j].1, Lookup(fields, shape[j].0))
    ensures |FieldIssues(rec, [Key(shape[j].0)], shape[j].1, Lookup(fields, shape[j].0))| > 0
    ensures |ShapeIssues(rec, shape, fields)| > 0
    ensures ShapeIssues(rec, shape, fields)[0]
            == FieldIssues(rec, [Key(shape[j].0)], shape[j].1, Lookup(fields, shape[j].0))[0]
    decreases j
  {
    FieldIssuesEmptyIff(rec, [Key(shape[j].0)], shape[j].1, Lookup(fields, shape[j].0));
    if j > 0 {
      FieldIssuesEmptyIff(rec, [Key(shape[0].0)], shape[0].1, Lookup(fields, shape[0].0));
      FirstShapeIssue(rec, shape[1..], fields, j - 1);
    }
  }

  /** The issues of `z.object(shape).safeParse(input)`; a non-object input is one type issue at the root. */
  function ObjectIssues(rec: Recognisers, shape: Shape, input: Json): seq<Issue>
  {
    if input.JObject? then ShapeIssues(rec, shape, input.fields)
    else [Issue([], InvalidType, None)]
  }

  predicate Accepts(rec: Recognisers, shape: Shape, input: Json)
  {
    |ObjectIssues(rec, shape, input)| == 0
  }

  /** An object schema accepts an input exactly when it is an object whose every
      declared property its schema admits; undeclared properties are ignored. */
  lemma AcceptsIff(rec: Recognisers, shape: Shape, input: Json)
    ensures Accepts(rec, shape, input) <==> input.JObject? && ShapeAdmits(rec, shape, input.fields)
  {
    if input.JObject? { ShapeIssuesEmptyIff(rec, shape, input.fields); }
  }

  /** `safeParse`: on success the data holds the declared properties that were present,
      unchanged (zod strips the rest); on failure the issue list, never empty. */
  function SafeParse(rec: Recognisers, shape: Shape, input: Json): (r: Result<map<string, Json>, seq<Issue>>)
    ensures r.Success? <==> Accepts(rec, shape, input)
    ensures r.Success? ==> input.JObject? && r.value.Keys == input.fields.Keys * ShapeKeys(shape)
    ensures r.Success? ==> forall k :: k in r.value ==> r.value[k] == input.fields[k]
    ensures r.Failure? ==> |r.error| > 0 && r.error == ObjectIssues(rec, shape, input)
  {
    var issues := ObjectIssues(rec, shape, input);
    if |issues| == 0 then
      Success(map k | k in input.fields && k in ShapeKeys(shape) :: input.fields[k])
    else Failure(issues)
  }
}
