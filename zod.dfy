/** The part of the zod schema library the schemas use: parsing a value yields the list of
    issues found (every failing field, not only the first); a value passes when the list is
    empty. Each issue carries the path of the field it is about. */
module Zod {
  import opened JsValues

  datatype Segment = Key(key: string) | Index(index: nat)

  datatype Code =
    | InvalidType                        // wrong type, or a required field that is undefined
    | TooSmall(message: Option<string>)  // `.min(..)`; `None` for zod's default message
    | InvalidString(text: string)        // a failed string check such as `.url(..)`
    | InvalidUnion                       // no option of a union accepted the value

  datatype Issue = Issue(path: seq<Segment>, code: Code)

  /** The issues of a child value, reported under `seg` within its parent. */
  function Nest(seg: Segment, issues: seq<Issue>): (r: seq<Issue>)
    ensures |r| == |issues|
    ensures forall k :: 0 <= k < |r| ==> r[k] == Issue([seg] + issues[k].path, issues[k].code)
  {
    if issues == [] then []
    else [Issue([seg] + issues[0].path, issues[0].code)] + Nest(seg, issues[1..])
  }

  /** The issues of an object property, reported under its key. */
  function Field(key: string, issues: seq<Issue>): (r: seq<Issue>)
    ensures |r| == |issues|
  {
    Nest(Key(key), issues)
  }

  /** Every issue is reported under one of the object keys `keys`. */
  predicate ReportedUnder(issues: seq<Issue>, keys: set<string>) {
    forall i :: 0 <= i < |issues| ==>
      issues[i].path != [] && issues[i].path[0].Key? && issues[i].path[0].key in keys
  }

  /** The issues of a property are reported under its key. */
  lemma FieldReportedUnder(key: string, issues: seq<Issue>, keys: set<string>)
    requires key in keys
    ensures ReportedUnder(Field(key, issues), keys)
  {
    var r := Field(key, issues);
    forall i | 0 <= i < |r|
      ensures r[i].path != [] && r[i].path[0] == Key(key)
    {
      assert r[i].path == [Key(key)] + issues[i].path;
    }
  }

  /** Two lists reported under `keys` make one. */
  lemma ReportedUnderConcat(a: seq<Issue>, b: seq<Issue>, keys: set<string>)
    requires ReportedUnder(a, keys) && ReportedUnder(b, keys)
    ensures ReportedUnder(a + b, keys)
  {
    forall i | 0 <= i < |a + b|
      ensures (a + b)[i] == if i < |a| then a[i] else b[i - |a|]
    {
    }
  }

  function Fail(code: Code): seq<Issue> {
    [Issue([], code)]
  }

  predicate IsNonEmptyString(v: Option<Value>) {
    v.Some? && v.value.VStr? && |v.value.s| >= 1
  }

  /** `z.string().min(1, message)`. */
  function NonEmptyString(v: Option<Value>, message: string): (r: seq<Issue>)
    ensures r == [] <==> IsNonEmptyString(v)
    ensures |r| <= 1
  {
    match v
    case Some(VStr(s)) => if |s| < 1 then Fail(TooSmall(Some(message))) else []
    case _ => Fail(InvalidType)
  }

  /** `z.string().optional()`: `undefined` or any string, the empty one included. */
  function OptionalString(v: Option<Value>): (r: seq<Issue>)
    ensures r == [] <==> v.None? || v.value.VStr?
    ensures |r| <= 1
  {
    match v
    case None => []
    case Some(VStr(_)) => []
    case Some(_) => Fail(InvalidType)
  }

  predicate IsNumberAtLeastOne(v: Option<Value>) {
    v.Some? && v.value.VNum? && v.value.n >= 1
  }

  /** `z.number().min(1, message)`; `NaN` is not a number to zod. */
  function NumberAtLeastOne(v: Option<Value>, message: Option<string>): (r: seq<Issue>)
    ensures r == [] <==> IsNumberAtLeastOne(v)
    ensures |r| <= 1
  {
    match v
    case Some(VNum(n)) => if n < 1 then Fail(TooSmall(message)) else []
    case _ => Fail(InvalidType)
  }

  /** `z.number().min(1).optional()`: `undefined`, or a number of at least 1. */
  function OptionalNumberAtLeastOne(v: Option<Value>): (r: seq<Issue>)
    ensures r == [] <==> v.None? || IsNumberAtLeastOne(v)
    ensures |r| <= 1
  {
    if v.None? then [] else NumberAtLeastOne(v, None)
  }

  /** The issues of an array schema with `.min(1, message)`, given the issues of its
      elements (for the element at index k, `elementIssues[k]`). */
  function NonEmptyArray(elems: seq<Value>, message: string, elementIssues: seq<seq<Issue>>): (r: seq<Issue>)
    requires |elementIssues| == |elems|
    ensures r == [] <==> |elems| >= 1 && forall k :: 0 <= k < |elems| ==> elementIssues[k] == []
  {
    (if |elems| < 1 then Fail(TooSmall(Some(message))) else []) + Elements(elementIssues)
  }

  /** The issues of the elements of an array, element by element, each under its index. */
  function Elements(elementIssues: seq<seq<Issue>>): (r: seq<Issue>)
    ensures r == [] <==> forall k :: 0 <= k < |elementIssues| ==> elementIssues[k] == []
  {
    if elementIssues == [] then []
    else
      var n := |elementIssues| - 1;
      Elements(elementIssues[..n]) + Nest(Index(n), elementIssues[n])
  }

  /** An issue of element `k` appears in the array's issues, under index `k`. */
  lemma {:induction false} ElementIssueReported(elementIssues: seq<seq<Issue>>, k: nat, issue: Issue)
    requires k < |elementIssues| && issue in elementIssues[k]
    ensures Issue([Index(k)] + issue.path, issue.code) in Elements(elementIssues)
  {
    var n := |elementIssues| - 1;
    var front, last := Elements(elementIssues[..n]), Nest(Index(n), elementIssues[n]);
    assert Elements(elementIssues) == front + last;
    if k < n {
      assert elementIssues[..n][k] == elementIssues[k];
      ElementIssueReported(elementIssues[..n], k, issue);
    } else {
      var j :| 0 <= j < |elementIssues[n]| && elementIssues[n][j] == issue;
      assert last[j] == Issue([Index(k)] + issue.path, issue.code);
    }
  }

  /** An issue of a property appears in the object's issues, under its key. */
  lemma FieldIssueReported(key: string, issues: seq<Issue>, issue: Issue)
    requires issue in issues
    ensures Issue([Key(key)] + issue.path, issue.code) in Field(key, issues)
  {
    var j :| 0 <= j < |issues| && issues[j] == issue;
    assert Field(key, issues)[j] == Issue([Key(key)] + issue.path, issue.code);
  }
}
