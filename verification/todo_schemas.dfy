/**
 * The two request-payload schemas of the todo API (backend/src/types.js).
 *
 * Each schema is an object schema: it reads its declared properties from
 * the payload, checks each one, collects the issues of every failing
 * property in declaration order, and on success returns a value that holds
 * only the declared properties (unknown keys are dropped).
 */
module TodoSchemas {
  import opened Json
  import JsString

  const TitleMinLength: nat := 3
  const TitleMaxLength: nat := 50
  const DescriptionMinLength: nat := 10
  const DescriptionMaxLength: nat := 300

  const TitleRequired := "Title is required"
  const DescriptionRequired := "Description is required"
  const IdRequired := "Id is required"

  /** What went wrong with one property. */
  datatype IssueKind =
      /** A string property is absent; carries the schema's required message. */
    | Required(message: string)
      /** The value is present but has the wrong type. */
    | InvalidType(expected: TypeName, received: TypeName)
      /** The string is shorter than `minimum` code units. */
    | TooSmall(minimum: nat)
      /** The string is longer than `maximum` code units. */
    | TooBig(maximum: nat)

  /** An issue and the property path it is about (`[]` is the payload itself). */
  datatype Issue = Issue(path: seq<string>, kind: IssueKind)

  /** Outcome of a parse: the typed value, or every issue found. */
  datatype Parsed<T> = Ok(value: T) | Err(issues: seq<Issue>)
  {
    function Issues(): seq<Issue>
    {
      if Ok? then [] else issues
    }
  }

  /** A create payload that passed validation. */
  datatype CreateTodo = CreateTodo(title: string, description: string)

  /** An identifier payload that passed validation. */
  datatype TodoIdentifier = TodoIdentifier(id: string)

  // ---------------------------------------------------------------------
  // Reference predicates: what each schema accepts, stated directly.

  predicate IsString(f: Field)
  {
    f.Present? && f.value.String?
  }

  predicate IsBoundedString(f: Field, min: nat, max: nat)
  {
    IsString(f) && min <= JsString.Length(f.value.s) <= max
  }

  predicate TitleOk(ms: seq<Member>)
  {
    IsBoundedString(Get(ms, "title"), TitleMinLength, TitleMaxLength)
  }

  predicate DescriptionOk(ms: seq<Member>)
  {
    IsBoundedString(Get(ms, "description"), DescriptionMinLength, DescriptionMaxLength)
  }

  /** A create payload with the declared properties and nothing else. */
  function CreateToJson(v: CreateTodo): Value
  {
    Object([Member("title", String(v.title)), Member("description", String(v.description))])
  }

  /** An identifier payload with the declared property and nothing else. */
  function IdentifierToJson(v: TodoIdentifier): Value
  {
    Object([Member("id", String(v.id))])
  }

  // ---------------------------------------------------------------------
  // Property checks.

  /** The type check of a string schema whose absent-value message is `required`. */
  function ParseString(key: string, f: Field, required: string): (r: Parsed<string>)
    ensures r.Ok? <==> IsString(f)
    ensures r.Ok? ==> r.value == f.value.s
    ensures r.Err? ==> |r.issues| == 1 && r.issues[0].path == [key]
  {
    match f
    case Absent => Err([Issue([key], Required(required))])
    case Present(String(s)) => Ok(s)
    case Present(v) => Err([Issue([key], InvalidType(StringType, TypeOf(v)))])
  }

  /** The `.min(min)` and `.max(max)` checks, both run, on a string value. */
  function LengthIssues(key: string, s: string, min: nat, max: nat): (r: seq<Issue>)
    ensures r == [] <==> min <= JsString.Length(s) <= max
    ensures forall i :: 0 <= i < |r| ==> r[i].path == [key]
  {
    var n := JsString.Length(s);
    (if n < min then [Issue([key], TooSmall(min))] else [])
      + (if n > max then [Issue([key], TooBig(max))] else [])
  }

  /** A string schema with length bounds: type check first, then both bounds. */
  function ParseBoundedString(key: string, f: Field, required: string, min: nat, max: nat): (r: Parsed<string>)
    ensures r.Ok? <==> IsBoundedString(f, min, max)
    ensures r.Ok? ==> r.value == f.value.s
    ensures r.Err? ==> |r.issues| > 0 && forall i :: 0 <= i < |r.issues| ==> r.issues[i].path == [key]
  {
    match ParseString(key, f, required)
    case Err(issues) => Err(issues)
    case Ok(s) =>
      var issues := LengthIssues(key, s, min, max);
      if issues == [] then Ok(s) else Err(issues)
  }

  function ParseTitle(ms: seq<Member>): Parsed<string>
  {
    ParseBoundedString("title", Get(ms, "title"), TitleRequired, TitleMinLength, TitleMaxLength)
  }

  function ParseDescription(ms: seq<Member>): Parsed<string>
  {
    ParseBoundedString("description", Get(ms, "description"), DescriptionRequired,
                       DescriptionMinLength, DescriptionMaxLength)
  }

  // ---------------------------------------------------------------------
  // The two schemas.

  /**
   * The create schema: `title` a string of 3 to 50 code units, `description`
   * a string of 10 to 300 code units.
   */
  function ValidateCreate(input: Value): (r: Parsed<CreateTodo>)
    ensures r.Ok? <==> input.Object? && TitleOk(input.members) && DescriptionOk(input.members)
    ensures r.Ok? ==> (r.value.title == Get(input.members, "title").value.s
                       && r.value.description == Get(input.members, "description").value.s)
    ensures r.Err? ==> |r.issues| > 0
  {
    if !input.Object? then Err([Issue([], InvalidType(ObjectType, TypeOf(input)))])
    else
      var title := ParseTitle(input.members);
      var description := ParseDescription(input.members);
      if title.Ok? && description.Ok? then Ok(CreateTodo(title.value, description.value))
      else Err(title.Issues() + description.Issues())
  }

  /** The identifier schema: `id` a string, of any length. */
  function ValidateIdentifier(input: Value): (r: Parsed<TodoIdentifier>)
    ensures r.Ok? <==> input.Object? && IsString(Get(input.members, "id"))
    ensures r.Ok? ==> r.value.id == Get(input.members, "id").value.s
    ensures r.Err? ==> |r.issues| > 0
  {
    if !input.Object? then Err([Issue([], InvalidType(ObjectType, TypeOf(input)))])
    else
      match ParseString("id", Get(input.members, "id"), IdRequired)
      case Ok(id) => Ok(TodoIdentifier(id))
      case Err(issues) => Err(issues)
  }

  // ---------------------------------------------------------------------
  // Properties of the create schema.

  /** Title bounds are inclusive: 3 and 50 pass, anything outside fails on `title` alone. */
  lemma CreateTitleBounds(ms: seq<Member>, title: string)
    requires Get(ms, "title") == Present(String(title))
    requires DescriptionOk(ms)
    ensures JsString.Length(title) == 3 ==> ValidateCreate(Object(ms)).Ok?
    ensures JsString.Length(title) == 50 ==> ValidateCreate(Object(ms)).Ok?
    ensures JsString.Length(title) < 3 ==> ValidateCreate(Object(ms)) == Err([Issue(["title"], TooSmall(3))])
    ensures JsString.Length(title) > 50 ==> ValidateCreate(Object(ms)) == Err([Issue(["title"], TooBig(50))])
  {
  }

  /** Description bounds are inclusive: 10 and 300 pass, anything outside fails on `description` alone. */
  lemma CreateDescriptionBounds(ms: seq<Member>, description: string)
    requires TitleOk(ms)
    requires Get(ms, "description") == Present(String(description))
    ensures JsString.Length(description) == 10 ==> ValidateCreate(Object(ms)).Ok?
    ensures JsString.Length(description) == 300 ==> ValidateCreate(Object(ms)).Ok?
    ensures JsString.Length(description) < 10 ==>
              ValidateCreate(Object(ms)) == Err([Issue(["description"], TooSmall(10))])
    ensures JsString.Length(description) > 300 ==>
              ValidateCreate(Object(ms)) == Err([Issue(["description"], TooBig(300))])
  {
  }

  /** For text without surrogate pairs the bounds are on the number of characters. */
  lemma CreateAcceptsBmpText(title: string, description: string)
    requires JsString.InBmp(title) && JsString.InBmp(description)
    ensures ValidateCreate(CreateToJson(CreateTodo(title, description))).Ok?
            <==> 3 <= |title| <= 50 && 10 <= |description| <= 300
  {
    CreateRoundTrip(CreateTodo(title, description));
  }

  /** A missing property is reported with the schema's own message. */
  lemma CreateMissingMessages(ms: seq<Member>)
    ensures !HasKey(ms, "title") ==>
              ValidateCreate(Object(ms)).Err?
              && ValidateCreate(Object(ms)).issues[0] == Issue(["title"], Required("Title is required"))
    ensures !HasKey(ms, "description") ==>
              ValidateCreate(Object(ms)).Err?
              && Issue(["description"], Required("Description is required")) in ValidateCreate(Object(ms)).issues
    ensures !HasKey(ms, "title") && !HasKey(ms, "description") ==>
              ValidateCreate(Object(ms)) == Err([Issue(["title"], Required("Title is required")),
                                                 Issue(["description"], Required("Description is required"))])
  {
  }

  /** A present value that is not a string is never accepted, whatever it is. */
  lemma CreateRejectsNonString(ms: seq<Member>)
    ensures Get(ms, "title").Present? && !Get(ms, "title").value.String? ==>
              ValidateCreate(Object(ms)).Err?
              && ValidateCreate(Object(ms)).issues[0]
                 == Issue(["title"], InvalidType(StringType, TypeOf(Get(ms, "title").value)))
    ensures Get(ms, "description").Present? && !Get(ms, "description").value.String? ==>
              ValidateCreate(Object(ms)).Err?
              && Issue(["description"], InvalidType(StringType, TypeOf(Get(ms, "description").value)))
                 in ValidateCreate(Object(ms)).issues
  {
  }

  /**
   * Issues are collected per property: every issue names `title` or
   * `description`, a property has issues exactly when it fails, and the
   * title's issues come before the description's.
   */
  lemma CreateIssuesPerField(ms: seq<Member>)
    requires ValidateCreate(Object(ms)).Err?
    ensures var issues := ValidateCreate(Object(ms)).issues;
            forall i :: 0 <= i < |issues| ==> issues[i].path == ["title"] || issues[i].path == ["description"]
    ensures var issues := ValidateCreate(Object(ms)).issues;
            (exists i :: 0 <= i < |issues| && issues[i].path == ["title"]) <==> !TitleOk(ms)
    ensures var issues := ValidateCreate(Object(ms)).issues;
            (exists i :: 0 <= i < |issues| && issues[i].path == ["description"]) <==> !DescriptionOk(ms)
    ensures var issues := ValidateCreate(Object(ms)).issues;
            forall i, j :: 0 <= i < j < |issues| && issues[j].path == ["title"] ==> issues[i].path == ["title"]
  {
    var t, d := ParseTitle(ms).Issues(), ParseDescription(ms).Issues();
    var issues := ValidateCreate(Object(ms)).issues;
    assert issues == t + d;
    assert forall i :: 0 <= i < |t| ==> issues[i] == t[i] && t[i].path == ["title"];
    assert forall i :: |t| <= i < |issues| ==> issues[i] == d[i - |t|] && d[i - |t|].path == ["description"];
    if !TitleOk(ms) {
      assert issues[0].path == ["title"];
    }
    if !DescriptionOk(ms) {
      assert issues[|t|].path == ["description"];
    }
  }

  /** A payload that is not an object fails with one issue about the payload itself. */
  lemma NonObjectRejected(input: Value)
    requires !input.Object?
    ensures ValidateCreate(input) == Err([Issue([], InvalidType(ObjectType, TypeOf(input)))])
    ensures ValidateIdentifier(input) == Err([Issue([], InvalidType(ObjectType, TypeOf(input)))])
  {
  }

  /** Unknown keys play no part: only the `title` and `description` members matter. */
  lemma CreateIgnoresUnknownKeys(ms: seq<Member>)
    ensures ValidateCreate(Object(ms)) == ValidateCreate(Object(KeepKeys(ms, {"title", "description"})))
  {
    GetKeepKeys(ms, {"title", "description"}, "title");
    GetKeepKeys(ms, {"title", "description"}, "description");
  }

  /** Every value in bounds survives a trip through its JSON form unchanged. */
  lemma CreateRoundTrip(v: CreateTodo)
    ensures ValidateCreate(CreateToJson(v)).Ok?
            <==> 3 <= JsString.Length(v.title) <= 50 && 10 <= JsString.Length(v.description) <= 300
    ensures ValidateCreate(CreateToJson(v)).Ok? ==> ValidateCreate(CreateToJson(v)).value == v
  {
    var ms := CreateToJson(v).members;
    GetAppend([Member("title", String(v.title))], Member("description", String(v.description)), "title");
    assert [Member("title", String(v.title))] + [Member("description", String(v.description))] == ms;
  }

  /** Validation is idempotent: re-validating an accepted value gives it back. */
  lemma CreateIdempotent(input: Value)
    ensures ValidateCreate(input).Ok? ==>
              ValidateCreate(CreateToJson(ValidateCreate(input).value)) == ValidateCreate(input)
  {
    if ValidateCreate(input).Ok? {
      CreateRoundTrip(ValidateCreate(input).value);
    }
  }

  // ---------------------------------------------------------------------
  // Properties of the identifier schema.

  /** Any string id is accepted, with no length bound: the empty string passes. */
  lemma IdentifierAcceptsAnyString(ms: seq<Member>, id: string)
    requires Get(ms, "id") == Present(String(id))
    ensures ValidateIdentifier(Object(ms)) == Ok(TodoIdentifier(id))
  {
  }

  lemma IdentifierAcceptsEmpty()
    ensures ValidateIdentifier(Object([Member("id", String(""))])) == Ok(TodoIdentifier(""))
  {
    IdentifierAcceptsAnyString([Member("id", String(""))], "");
  }

  /** A missing id is reported as required; a non-string id by its type. */
  lemma IdentifierRejections(ms: seq<Member>)
    ensures !HasKey(ms, "id") ==>
              ValidateIdentifier(Object(ms)) == Err([Issue(["id"], Required("Id is required"))])
    ensures Get(ms, "id").Present? && !Get(ms, "id").value.String? ==>
              ValidateIdentifier(Object(ms))
              == Err([Issue(["id"], InvalidType(StringType, TypeOf(Get(ms, "id").value)))])
  {
  }

  /** Unknown keys play no part: only the `id` member matters. */
  lemma IdentifierIgnoresUnknownKeys(ms: seq<Member>)
    ensures ValidateIdentifier(Object(ms)) == ValidateIdentifier(Object(KeepKeys(ms, {"id"})))
  {
    GetKeepKeys(ms, {"id"}, "id");
  }

  /** Every identifier survives a trip through its JSON form, and re-validation is idempotent. */
  lemma IdentifierRoundTrip(v: TodoIdentifier, input: Value)
    ensures ValidateIdentifier(IdentifierToJson(v)) == Ok(v)
    ensures ValidateIdentifier(input).Ok? ==>
              ValidateIdentifier(IdentifierToJson(ValidateIdentifier(input).value)) == ValidateIdentifier(input)
  {
  }
}
