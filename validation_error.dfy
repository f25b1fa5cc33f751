/**
 * handleZodValidationError: fold the issues of a failed parse into a
 * field -> message record and answer 400 with it.
 */
module ValidationError {
  import opened Domain
  import opened Schema

  /** The decimal digits of a natural number, as `String(n)` writes them. */
  function Digits(n: nat): (r: string)
    ensures |r| >= 1
    ensures forall k :: 0 <= k < |r| ==> '0' <= r[k] <= '9'
  {
    if n < 10 then [(48 + n) as char]
    else Digits(n / 10) + [(48 + n % 10) as char]
  }

  function SegmentText(seg: PathSeg): (r: string)
  {
    match seg
    case Key(name) => name
    case Index(i) => Digits(i)
  }

  /** `issue.path.join('.')`. */
  function JoinPath(path: seq<PathSeg>): (r: string)
  {
    if path == [] then ""
    else if |path| == 1 then SegmentText(path[0])
    else SegmentText(path[0]) + "." + JoinPath(path[1..])
  }

  /** The record the fold builds: each issue writes its message under its joined path, in order. */
  function FieldErrorMap(issues: seq<Issue>): (r: map<string, string>)
  {
    if issues == [] then map[]
    else
      var last := issues[|issues| - 1];
      FieldErrorMap(issues[..|issues| - 1])[JoinPath(last.path) := last.message]
  }

  /** The joined paths of all issues. */
  function IssueFields(issues: seq<Issue>): (r: set<string>)
  {
    set issue | issue in issues :: JoinPath(issue.path)
  }

  /** handleZodValidationError: the `reduce` over the issues, then a 400 reply carrying `{errors}`. */
  method HandleZodValidationError<T>(issues: seq<Issue>) returns (reply: Reply<T>)
    ensures reply == Reply(400, FieldErrors(FieldErrorMap(issues)))
  {
    var errors: map<string, string> := map[];
    for i := 0 to |issues|
      invariant errors == FieldErrorMap(issues[..i])
    {
      var field := JoinPath(issues[i].path);
      assert issues[..i + 1][..i] == issues[..i];
      errors := errors[field := issues[i].message];
    }
    assert issues[..|issues|] == issues;
    return Reply(400, FieldErrors(errors));
  }

  /** The record has exactly one entry per distinct joined path. */
  lemma {:induction false} FieldErrorMapKeys(issues: seq<Issue>)
    ensures FieldErrorMap(issues).Keys == IssueFields(issues)
  {
    if issues != [] {
      var n := |issues| - 1;
      FieldErrorMapKeys(issues[..n]);
      assert issues == issues[..n] + [issues[n]];
      assert IssueFields(issues) == IssueFields(issues[..n]) + {JoinPath(issues[n].path)};
    }
  }

  /** When several issues share a field, the message of the last one is kept. */
  lemma {:induction false} FieldErrorMapLastWins(issues: seq<Issue>, i: nat)
    requires i < |issues|
    requires forall j :: i < j < |issues| ==> JoinPath(issues[j].path) != JoinPath(issues[i].path)
    ensures JoinPath(issues[i].path) in FieldErrorMap(issues)
    ensures FieldErrorMap(issues)[JoinPath(issues[i].path)] == issues[i].message
  {
    var n := |issues| - 1;
    if i < n {
      forall j | i < j < n ensures JoinPath(issues[..n][j].path) != JoinPath(issues[..n][i].path) {
        assert issues[..n][j] == issues[j] && issues[..n][i] == issues[i];
      }
      FieldErrorMapLastWins(issues[..n], i);
      assert issues[..n][i] == issues[i];
    }
  }

  /** Appending an issue writes its message under its field. */
  lemma FieldErrorMapSnoc(issues: seq<Issue>, issue: Issue)
    ensures FieldErrorMap(issues + [issue]) == FieldErrorMap(issues)[JoinPath(issue.path) := issue.message]
  {
    assert (issues + [issue])[..|issues|] == issues;
  }

  /** A failed parse always reports at least one field. */
  lemma FieldErrorMapNonEmpty(issues: seq<Issue>)
    requires issues != []
    ensures FieldErrorMap(issues) != map[]
  {
    var n := |issues| - 1;
    assert JoinPath(issues[n].path) in FieldErrorMap(issues);
  }
}
