/**
 * Parsed JSON request bodies and the issues a schema check reports about them.
 * The two `z.object` schemas of the applications are built from the field checks
 * defined here.
 */
module Schema {

  /** A JSON value after `request.json()` has parsed the request body. */
  datatype Value =
    | Null
    | Boolean(b: bool)
    | Number(n: real)
    | Text(s: string)
    | List(items: seq<Value>)
    | Object(fields: map<string, Value>)

  /** The kinds of issue the schemas can raise. */
  datatype IssueCode =
    | InvalidType    // wrong JSON type, or a required field is missing
    | TooSmall       // a `.min(1)` length check failed
    | InvalidString  // a `.regex(...)` check failed

  /** One failed check; `path` names the field ("" for the body itself). */
  datatype Issue = Issue(path: string, code: IssueCode)

  /** The issue raised when the body is not a JSON object at all. */
  const NotAnObject: seq<Issue> := [Issue("", InvalidType)]

  /** The paths of a list of issues. */
  function Paths(issues: seq<Issue>): set<string> {
    if issues == [] then {} else {issues[0].path} + Paths(issues[1..])
  }

  /** Field `key` holds a string of at least one character. */
  predicate IsNonEmptyText(fields: map<string, Value>, key: string) {
    key in fields && fields[key].Text? && |fields[key].s| >= 1
  }

  /** `z.string().min(1)` applied to field `key`. */
  function NonEmptyTextIssues(fields: map<string, Value>, key: string): (issues: seq<Issue>)
    ensures issues == [] <==> IsNonEmptyText(fields, key)
    ensures Paths(issues) == if IsNonEmptyText(fields, key) then {} else {key}
  {
    if key !in fields || !fields[key].Text? then [Issue(key, InvalidType)]
    else if |fields[key].s| < 1 then [Issue(key, TooSmall)]
    else []
  }

  lemma {:induction false} PathsOfConcat(a: seq<Issue>, b: seq<Issue>)
    ensures Paths(a + b) == Paths(a) + Paths(b)
  {
    if a != [] {
      assert (a + b)[1..] == a[1..] + b;
      PathsOfConcat(a[1..], b);
    } else {
      assert a + b == b;
    }
  }
}
