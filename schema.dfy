/**
 * Request bodies as JSON values, and the validation issues a Zod schema
 * reports for them: a path into the body and a message.
 */
module Schema {
  import opened Domain

  /** A parsed JSON value; numbers are JavaScript numbers, taken here as reals. */
  datatype Json =
    | JNull
    | JBool(b: bool)
    | JNum(n: real)
    | JStr(s: string)
    | JArr(elems: seq<Json>)
    | JObj(fields: map<string, Json>)

  /** One step of an issue path: an object key or an array index. */
  datatype PathSeg = Key(name: string) | Index(i: nat)

  /** A validation issue: where in the body, and the message to show. */
  datatype Issue = Issue(path: seq<PathSeg>, message: string)

  /** The result of `safeParse`: the parsed data, or the issues found. */
  datatype Parsed<+T> = Success(data: T) | Failure(issues: seq<Issue>)

  /** The value stored under a key; None stands for JavaScript's `undefined`. */
  function Field(fields: map<string, Json>, key: string): (r: Option<Json>)
  {
    if key in fields then Some(fields[key]) else None
  }

  /** The string under a key, or "" when there is none (read only after a successful parse). */
  function StringAt(fields: map<string, Json>, key: string): (r: string)
  {
    match Field(fields, key)
    case Some(JStr(s)) => s
    case _ => ""
  }

  /** The number under a key, or 0 when there is none. */
  function NumAt(fields: map<string, Json>, key: string): (r: real)
  {
    match Field(fields, key)
    case Some(JNum(n)) => n
    case _ => 0.0
  }

  /** The number under a key as an integer (read only once it passed the integer check). */
  function WholeAt(fields: map<string, Json>, key: string): (r: int)
  {
    NumAt(fields, key).Floor
  }

  /** The name Zod gives the type it received. */
  function Kind(v: Option<Json>): (r: string)
  {
    match v
    case None => "undefined"
    case Some(JNull) => "null"
    case Some(JBool(_)) => "boolean"
    case Some(JNum(_)) => "number"
    case Some(JStr(_)) => "string"
    case Some(JArr(_)) => "array"
    case Some(JObj(_)) => "object"
  }

  /** Zod's default message for a value of the wrong type. */
  function InvalidType(expected: string, v: Option<Json>): (r: string)
  {
    "Invalid input: expected " + expected + ", received " + Kind(v)
  }

  /** One issue at the value being checked (the empty path). */
  function Here(message: string): (r: seq<Issue>)
  {
    [Issue([], message)]
  }

  /** The issues of a nested value, with their paths placed under `seg`. */
  function Under(seg: PathSeg, issues: seq<Issue>): (r: seq<Issue>)
    ensures |r| == |issues|
    ensures forall i :: 0 <= i < |r| ==> r[i] == Issue([seg] + issues[i].path, issues[i].message)
  {
    seq(|issues|, i requires 0 <= i < |issues| => Issue([seg] + issues[i].path, issues[i].message))
  }

  /** Issues placed after others leave no issue exactly when both lists are empty. */
  lemma NoIssuesUnder(before: seq<Issue>, seg: PathSeg, issues: seq<Issue>)
    ensures before + Under(seg, issues) == [] <==> before == [] && issues == []
  {
  }

  /** The JavaScript number is a whole number (`Number.isInteger`). */
  predicate IsInteger(x: real)
  {
    x.Floor as real == x
  }
}
