/**
 * The `notes` record and the `insertNoteSchema` validator that both the
 * server and the note editor run on a note payload.
 *
 * The validator is a zod object schema: an ordered list of string fields,
 * each with a chain of length checks. It is modelled here as data
 * (`Shape`, `Check`) and an interpreter (`ParseShape`, `RunChecks`) that
 * follows zod's rules: every field is checked, every issue is collected,
 * and keys outside the shape are stripped.
 */
module Schema {
  import opened Wrappers

  /** The store's modification time; its value is never inspected. */
  type Timestamp = int

  /** A row of the `notes` table. Every column is NOT NULL, so every field is present. */
  datatype Note = Note(id: int, title: string, content: string, lastModified: Timestamp)

  /** What `insertNoteSchema` yields: the two caller-supplied columns and nothing else. */
  datatype InsertNote = InsertNote(title: string, content: string)

  /** A JSON value as it arrives in a request body. */
  datatype Json =
    | JNull
    | JBool(b: bool)
    | JNumber(n: int)
    | JString(s: string)
    | JArray(items: seq<Json>)
    | JObject(fields: map<string, Json>)

  /** What zod reports as the "received" type of a value; a missing key is "undefined". */
  function TypeName(v: Option<Json>): string {
    match v
    case None => "undefined"
    case Some(JNull) => "null"
    case Some(JBool(_)) => "boolean"
    case Some(JNumber(_)) => "number"
    case Some(JString(_)) => "string"
    case Some(JArray(_)) => "array"
    case Some(JObject(_)) => "object"
  }

  /** The value stored under `key`, or None when the key is absent. */
  function Get(fields: map<string, Json>, key: string): Option<Json> {
    if key in fields then Some(fields[key]) else None
  }

  /** One failed check. A message of None stands for zod's default wording. */
  datatype IssueKind =
    | InvalidType(expected: string, received: string)
    | TooSmall(minimum: nat, message: Option<string>)
    | TooBig(maximum: nat, message: Option<string>)

  /** An issue and the path of keys to the value it is about ([] is the body itself). */
  datatype Issue = Issue(path: seq<string>, kind: IssueKind)

  /** A length check in a string schema: `.min(n, message)` or `.max(n, message)`. */
  datatype Check =
    | MinLength(bound: nat, message: Option<string>)
    | MaxLength(bound: nat, message: Option<string>)

  predicate Admits(c: Check, s: string) {
    match c
    case MinLength(n, _) => |s| >= n
    case MaxLength(n, _) => |s| <= n
  }

  function Complaint(c: Check): IssueKind {
    match c
    case MinLength(n, m) => TooSmall(n, m)
    case MaxLength(n, m) => TooBig(n, m)
  }

  /** True when `s` passes every check of the chain. */
  predicate PassesAll(checks: seq<Check>, s: string) {
    forall i | 0 <= i < |checks| :: Admits(checks[i], s)
  }

  /**
   * Runs a chain of checks on a string, as zod does: every check runs, and
   * each failing one contributes one issue, in the order of the chain.
   */
  function RunChecks(path: seq<string>, checks: seq<Check>, s: string): (issues: seq<Issue>)
    ensures issues == [] <==> PassesAll(checks, s)
    ensures |issues| <= |checks|
    ensures forall i | 0 <= i < |checks| && !Admits(checks[i], s) :: Issue(path, Complaint(checks[i])) in issues
    ensures forall k | 0 <= k < |issues| ::
      exists i | 0 <= i < |checks| :: !Admits(checks[i], s) && issues[k] == Issue(path, Complaint(checks[i]))
  {
    if checks == [] then []
    else
      var rest := RunChecks(path, checks[1..], s);
      assert forall i | 1 <= i < |checks| :: checks[i] == checks[1..][i - 1];
      (if Admits(checks[0], s) then [] else [Issue(path, Complaint(checks[0]))]) + rest
  }

  /** One field of an object schema: its key and the checks its string value must pass. */
  type Field = (string, seq<Check>)

  /** The fields of a `z.object` of strings, in declaration order. */
  type Shape = seq<Field>

  /** The body holds a string under the field's key, and that string passes the field's checks. */
  predicate FieldAccepted(field: Field, fields: map<string, Json>) {
    field.0 in fields && fields[field.0].JString? && PassesAll(field.1, fields[field.0].s)
  }

  /** `z.string()` followed by its checks, applied to the value under one key. */
  function ParseString(key: string, checks: seq<Check>, v: Option<Json>): (r: Result<string, seq<Issue>>)
    ensures r.Ok? <==> v.Some? && v.value.JString? && PassesAll(checks, v.value.s)
    ensures r.Ok? ==> v == Some(JString(r.value))
    ensures r.Err? ==> r.error != [] && forall k | 0 <= k < |r.error| :: r.error[k].path == [key]
  {
    match v
    case Some(JString(s)) =>
      var issues := RunChecks([key], checks, s);
      if issues == [] then Ok(s) else Err(issues)
    case _ => Err([Issue([key], InvalidType("string", TypeName(v)))])
  }

  /**
   * Parses the fields of an object against a shape. Keys outside the shape
   * are ignored; on success the values come back in shape order; on failure
   * the issues of every failing field are reported, in shape order.
   */
  function ParseShape(shape: Shape, fields: map<string, Json>): (r: Result<seq<string>, seq<Issue>>)
    ensures r.Ok? <==> forall i | 0 <= i < |shape| :: FieldAccepted(shape[i], fields)
    ensures r.Ok? ==> |r.value| == |shape|
    ensures r.Ok? ==> forall i | 0 <= i < |shape| ::
      shape[i].0 in fields && fields[shape[i].0] == JString(r.value[i])
    ensures r.Err? ==> r.error != []
    ensures r.Err? ==> forall k | 0 <= k < |r.error| ::
      exists i | 0 <= i < |shape| :: r.error[k].path == [shape[i].0] && !FieldAccepted(shape[i], fields)
  {
    if shape == [] then Ok([])
    else
      var head := ParseString(shape[0].0, shape[0].1, Get(fields, shape[0].0));
      var tail := ParseShape(shape[1..], fields);
      assert forall i | 1 <= i < |shape| :: shape[i] == shape[1..][i - 1];
      match (head, tail)
      case (Ok(s), Ok(rest)) => Ok([s] + rest)
      case (Ok(_), Err(e)) => Err(e)
      case (Err(e), Ok(_)) => Err(e)
      case (Err(e1), Err(e2)) => Err(e1 + e2)
  }

  const TitleMax: nat := 100
  const TitleRequired := "Title is required"
  const ContentRequired := "Content is required"

  /** `z.string().min(1, "Title is required").max(100)` */
  const TitleChecks: seq<Check> := [MinLength(1, Some(TitleRequired)), MaxLength(TitleMax, None)]

  /** `z.string().min(1, "Content is required")` */
  const ContentChecks: seq<Check> := [MinLength(1, Some(ContentRequired))]

  /**
   * The shape of `insertNoteSchema`: the table's columns with `id` and
   * `lastModified` omitted and `title` and `content` replaced by the checks above.
   */
  const InsertNoteShape: Shape := [("title", TitleChecks), ("content", ContentChecks)]

  /**
   * The rule a note payload must meet, stated independently of the schema
   * machinery: an object whose `title` is a string of 1 to 100 characters and
   * whose `content` is a string of at least one character.
   */
  predicate Acceptable(body: Json) {
    && body.JObject?
    && "title" in body.fields && body.fields["title"].JString?
    && "content" in body.fields && body.fields["content"].JString?
    && 1 <= |body.fields["title"].s| <= TitleMax
    && 1 <= |body.fields["content"].s|
  }

  /** The payload an acceptable body carries, exactly as sent. */
  function Submitted(body: Json): InsertNote
    requires Acceptable(body)
  {
    InsertNote(body.fields["title"].s, body.fields["content"].s)
  }

  /** The constraints a stored note meets when it came through the schema. */
  predicate WellFormed(title: string, content: string) {
    1 <= |title| <= TitleMax && 1 <= |content|
  }

  lemma ShapeAcceptsExactly(fields: map<string, Json>)
    ensures (forall i | 0 <= i < |InsertNoteShape| :: FieldAccepted(InsertNoteShape[i], fields))
        <==> Acceptable(JObject(fields))
  {
    if Acceptable(JObject(fields)) {
      forall i | 0 <= i < |InsertNoteShape| ensures FieldAccepted(InsertNoteShape[i], fields) {
        var s := fields[InsertNoteShape[i].0].s;
        assert forall j | 0 <= j < |InsertNoteShape[i].1| :: Admits(InsertNoteShape[i].1[j], s);
      }
    }
    if FieldAccepted(InsertNoteShape[0], fields) && FieldAccepted(InsertNoteShape[1], fields) {
      var t := fields["title"].s;
      assert Admits(TitleChecks[0], t) && Admits(TitleChecks[1], t);
      assert Admits(ContentChecks[0], fields["content"].s);
    }
  }

  /**
   * `insertNoteSchema.safeParse(body)`: succeeds exactly when the body is
   * acceptable, and then yields the title and content untouched.
   */
  function SafeParse(body: Json): (r: Result<InsertNote, seq<Issue>>)
    ensures r.Ok? <==> Acceptable(body)
    ensures r.Ok? ==> r.value == Submitted(body)
    ensures r.Err? ==> r.error != []
  {
    match body
    case JObject(fields) =>
      ShapeAcceptsExactly(fields);
      (match ParseShape(InsertNoteShape, fields)
       case Ok(values) => Ok(InsertNote(values[0], values[1]))
       case Err(issues) => Err(issues))
    case _ => Err([Issue([], InvalidType("object", TypeName(Some(body))))])
  }

  /** The issues SafeParse reports for a body it rejects. */
  function Issues(body: Json): seq<Issue>
    requires !Acceptable(body)
  {
    SafeParse(body).error
  }

  /** The body the note editor sends: its two form fields as JSON strings. */
  function Form(title: string, content: string): Json {
    JObject(map["title" := JString(title), "content" := JString(content)])
  }

  /** Two bodies that agree on the shape's keys parse alike: every other key is stripped. */
  lemma {:induction false} ParseShapeReadsOnlyShapeKeys(shape: Shape, f: map<string, Json>, g: map<string, Json>)
    requires forall i | 0 <= i < |shape| :: Get(f, shape[i].0) == Get(g, shape[i].0)
    ensures ParseShape(shape, f) == ParseShape(shape, g)
  {
    if shape != [] {
      assert Get(f, shape[0].0) == Get(g, shape[0].0);
      assert forall i | 0 <= i < |shape[1..]| :: shape[1..][i] == shape[i + 1];
      ParseShapeReadsOnlyShapeKeys(shape[1..], f, g);
    }
  }

  /** Every issue of a failing field reaches the object's issue list. */
  lemma {:induction false} FieldIssuesReported(shape: Shape, fields: map<string, Json>, i: nat, issue: Issue)
    requires i < |shape|
    requires ParseString(shape[i].0, shape[i].1, Get(fields, shape[i].0)).Err?
    requires issue in ParseString(shape[i].0, shape[i].1, Get(fields, shape[i].0)).error
    ensures ParseShape(shape, fields).Err?
    ensures issue in ParseShape(shape, fields).error
  {
    if i > 0 {
      assert shape[1..][i - 1] == shape[i];
      FieldIssuesReported(shape[1..], fields, i - 1, issue);
    }
  }

  /** Keys other than `title` and `content` never change the outcome of validation. */
  lemma UnknownKeysIgnored(fields: map<string, Json>, extra: map<string, Json>)
    requires "title" !in extra && "content" !in extra
    ensures SafeParse(JObject(fields + extra)) == SafeParse(JObject(fields))
  {
    assert Get(fields + extra, "title") == Get(fields, "title");
    assert Get(fields + extra, "content") == Get(fields, "content");
    ParseShapeReadsOnlyShapeKeys(InsertNoteShape, fields + extra, fields);
  }

  /**
   * `id` and `lastModified` are omitted from the schema: whatever the caller
   * puts under them, validation comes out as if they were absent.
   */
  lemma ServerColumnsIgnored(fields: map<string, Json>)
    ensures SafeParse(JObject(fields)) == SafeParse(JObject(fields - {"id", "lastModified"}))
  {
    var stripped := fields - {"id", "lastModified"};
    assert Get(fields, "title") == Get(stripped, "title");
    assert Get(fields, "content") == Get(stripped, "content");
    ParseShapeReadsOnlyShapeKeys(InsertNoteShape, fields, stripped);
  }

  /** An empty title is rejected with the message "Title is required". */
  lemma EmptyTitleRejected(fields: map<string, Json>)
    requires Get(fields, "title") == Some(JString(""))
    ensures SafeParse(JObject(fields)).Err?
    ensures Issue(["title"], TooSmall(1, Some(TitleRequired))) in SafeParse(JObject(fields)).error
  {
    assert !Admits(TitleChecks[0], "");
    FieldIssuesReported(InsertNoteShape, fields, 0, Issue(["title"], TooSmall(1, Some(TitleRequired))));
  }

  /** A title over 100 characters is rejected by the `max(100)` check. */
  lemma LongTitleRejected(fields: map<string, Json>, title: string)
    requires Get(fields, "title") == Some(JString(title))
    requires |title| > TitleMax
    ensures SafeParse(JObject(fields)).Err?
    ensures Issue(["title"], TooBig(TitleMax, None)) in SafeParse(JObject(fields)).error
  {
    assert !Admits(TitleChecks[1], title);
    FieldIssuesReported(InsertNoteShape, fields, 0, Issue(["title"], TooBig(TitleMax, None)));
  }

  /** An empty content is rejected with the message "Content is required". */
  lemma EmptyContentRejected(fields: map<string, Json>)
    requires Get(fields, "content") == Some(JString(""))
    ensures SafeParse(JObject(fields)).Err?
    ensures Issue(["content"], TooSmall(1, Some(ContentRequired))) in SafeParse(JObject(fields)).error
  {
    assert !Admits(ContentChecks[0], "");
    FieldIssuesReported(InsertNoteShape, fields, 1, Issue(["content"], TooSmall(1, Some(ContentRequired))));
  }

  /** Validation does not stop at the first bad field: a bad title and a bad content are both reported. */
  lemma BothFieldsReported(fields: map<string, Json>)
    requires !FieldAccepted(InsertNoteShape[0], fields) && !FieldAccepted(InsertNoteShape[1], fields)
    ensures SafeParse(JObject(fields)).Err?
    ensures exists k | 0 <= k < |SafeParse(JObject(fields)).error| :: SafeParse(JObject(fields)).error[k].path == ["title"]
    ensures exists k | 0 <= k < |SafeParse(JObject(fields)).error| :: SafeParse(JObject(fields)).error[k].path == ["content"]
  {
    var e0 := ParseString("title", TitleChecks, Get(fields, "title")).error;
    var e1 := ParseString("content", ContentChecks, Get(fields, "content")).error;
    FieldIssuesReported(InsertNoteShape, fields, 0, e0[0]);
    FieldIssuesReported(InsertNoteShape, fields, 1, e1[0]);
  }

  /** Every issue reported for an object body is about `title` or `content`. */
  lemma IssuesNameFields(fields: map<string, Json>)
    ensures SafeParse(JObject(fields)).Err? ==>
      forall k | 0 <= k < |SafeParse(JObject(fields)).error| ::
        SafeParse(JObject(fields)).error[k].path in {["title"], ["content"]}
  {
  }

  /** A body that is not a JSON object is rejected with one issue about the body itself. */
  lemma NonObjectRejected(body: Json)
    requires !body.JObject?
    ensures SafeParse(body) == Err([Issue([], InvalidType("object", TypeName(Some(body))))])
  {
  }

  /** The title limit is inclusive: 100 characters pass, 101 do not. */
  lemma TitleLimitInclusive(content: string)
    requires |content| >= 1
    ensures SafeParse(Form(seq(100, _ => 'a'), content)).Ok?
    ensures SafeParse(Form(seq(101, _ => 'a'), content)).Err?
  {
  }

  /**
   * The note editor validates its form with the same schema and sends the
   * validated values: whatever it lets through, the server accepts with the
   * same payload, and what it stops, the server would stop too.
   */
  lemma EditorAndServerAgree(title: string, content: string)
    ensures SafeParse(Form(title, content)).Ok? <==> WellFormed(title, content)
    ensures SafeParse(Form(title, content)).Ok? ==>
      var p := SafeParse(Form(title, content)).value;
      p == InsertNote(title, content) && SafeParse(Form(p.title, p.content)) == Ok(p)
  {
  }

  /** Validated output, sent again, validates to itself. */
  lemma RevalidationIsIdentity(body: Json)
    requires SafeParse(body).Ok?
    ensures SafeParse(Form(SafeParse(body).value.title, SafeParse(body).value.content)) == SafeParse(body)
  {
  }
}
