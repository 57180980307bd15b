# Todo API request-payload validation

A Dafny model of the two request-payload schemas of the todo API's backend
(`backend/src/types.js`):

- the **create schema** (`createTodoSchema`) accepts an object whose `title`
  is a string of 3 to 50 UTF-16 code units (JavaScript `.length`) and whose
  `description` is a string of 10 to 300 code units; an absent `title` or `description` is reported as
  "Title is required" or "Description is required";
- the **identifier schema** (`updateOrDeleteTodoSchema`) accepts an object
  whose `id` is a string, of any length; an absent `id` is reported as
  "Id is required".

Both are Zod object schemas, modelled as pure functions from a JSON value to
`Parsed<T>`: either `Ok` with the typed value, holding the declared
properties only, or `Err` with the list of issues found. Each issue carries
the property path it is about and its kind: required-with-message, wrong
type (expected and received type names), too short, or too long.

The model is in three modules:

- `Json` (`json.dfy`): JSON values as the body parser produces them. An
  object is its sequence of members in text order; reading an own property
  returns the value of the last member with that key, or `Absent`
  (`undefined`).
- `JsString` (`js_string.dfy`): the JavaScript `.length` of a string. The
  schemas' `.min` and `.max` bounds compare against it. Strings are
  `seq<char>` (Unicode scalar values), and `.length` counts UTF-16 code
  units, so a character outside the Basic Multilingual Plane counts as 2.
  For text without such characters, `.length` is the number of characters.
- `TodoSchemas` (`todo_schemas.dfy`): the two schemas and their properties.

Zod behaviour the model follows:

- A string schema checks the type first. A wrong type stops that property
  with one issue: `Required(message)` when the value is absent, otherwise
  `InvalidType(StringType, received)`. A string then runs both `.min` and
  `.max`.
- An object schema checks every declared property in declaration order and
  concatenates their issues. A payload that is not an object gets a single
  issue about the payload itself.
- Unknown keys are stripped from the result.

The identifier schema puts no length bound on `id`, so the empty string is
accepted (`TodoSchemas.IdentifierAcceptsEmpty`).

## Model

| member | source | states |
|---|---|---|
| `Json.Get` | backend/src/index.js:12 | reading own property `k` of a parsed JSON body gives a value exactly when some member has key `k`, and then the value of the last such member (duplicate keys: last wins) |
| `Json.GetAppend` | backend/src/index.js:12 | a member appended to an object shadows its own key and leaves the reading of every other key unchanged |
| `Json.GetConcat` | backend/src/index.js:12 | for an object made of two parts, the second part decides a key's value whenever it holds that key; otherwise the first part does |
| `Json.KeepKeys` | backend/src/types.js:3-13 | the members an object schema looks at: every kept member comes from the input and has a declared key, every input member with a declared key is kept, and a single member is kept exactly when its key is declared |
| `Json.KeepKeysConcat` | backend/src/types.js:3-13 | filtering distributes over concatenation, so kept members stay in input order and keep their multiplicity |
| `Json.GetKeepKeys` | backend/src/types.js:3-13 | removing members with undeclared keys does not change the reading of any declared key |
| `JsString.Length` | backend/src/types.js:4-8 | the string length the bounds use lies between the character count and twice that count, and equals the character count exactly when no character needs a surrogate pair |
| `JsString.LengthConcat` | backend/src/types.js:4-8 | the length the bounds use is additive over concatenation |
| `TodoSchemas.ParseString` | backend/src/types.js:4-6 | the string type check succeeds exactly on a present string and returns it unchanged; otherwise it reports exactly one issue, on that property's path |
| `TodoSchemas.LengthIssues` | backend/src/types.js:4-8 | the `.min`/`.max` checks report nothing exactly when min ≤ length ≤ max; every issue is on that property's path |
| `TodoSchemas.ParseBoundedString` | backend/src/types.js:4-8 | a bounded string property is accepted exactly when it is a string within both bounds, and comes back unchanged; otherwise at least one issue, all on that property's path |
| `TodoSchemas.ValidateCreate` | backend/src/types.js:3-9 | the create payload is accepted iff it is an object whose `title` is a string with 3 ≤ length ≤ 50 and whose `description` is a string with 10 ≤ length ≤ 300; the accepted value carries exactly those two strings; a rejection has at least one issue |
| `TodoSchemas.ValidateIdentifier` | backend/src/types.js:11-13 | the identifier payload is accepted iff it is an object whose `id` is a string, and the value carries that string; a rejection has at least one issue |
| `TodoSchemas.CreateTitleBounds` | backend/src/types.js:4 | with a valid description: title lengths 3 and 50 are accepted; a length below 3 is rejected with exactly one too-small(3) issue on `title`, a length above 50 with exactly one too-big(50) issue on `title` |
| `TodoSchemas.CreateDescriptionBounds` | backend/src/types.js:5-8 | with a valid title: description lengths 10 and 300 are accepted; a length below 10 is rejected with exactly one too-small(10) issue on `description`, a length above 300 with exactly one too-big(300) issue |
| `TodoSchemas.CreateAcceptsBmpText` | backend/src/types.js:3-9 | for text without surrogate pairs, a create payload is accepted iff 3 ≤ characters in title ≤ 50 and 10 ≤ characters in description ≤ 300 |
| `TodoSchemas.CreateMissingMessages` | backend/src/types.js:4-6 | a missing `title` gives the first issue "Title is required"; a missing `description` gives an issue "Description is required"; with both missing, the result is exactly those two issues in that order |
| `TodoSchemas.CreateRejectsNonString` | backend/src/types.js:4-6 | a present `title` or `description` that is not a string is always rejected, with a wrong-type issue naming string as expected and the value's type as received |
| `TodoSchemas.CreateIssuesPerField` | backend/src/types.js:3-9 | every issue of a rejected create payload is on `title` or `description`; `title` has an issue iff the title fails, `description` has one iff the description fails; title issues come before description issues |
| `TodoSchemas.NonObjectRejected` | backend/src/types.js:3-13 | a payload that is not an object is rejected by both schemas with exactly one wrong-type issue on the payload itself |
| `TodoSchemas.CreateIgnoresUnknownKeys` | backend/src/types.js:3-9 | the create result depends only on the `title` and `description` members; other keys are ignored and dropped |
| `TodoSchemas.CreateRoundTrip` | backend/src/types.js:3-9 | a title/description pair written as a payload is accepted iff both are within bounds, and is then returned unchanged |
| `TodoSchemas.CreateIdempotent` | backend/src/types.js:3-9 | re-validating an accepted create value succeeds again with the same value |
| `TodoSchemas.IdentifierAcceptsAnyString` | backend/src/types.js:12 | any string `id`, of any length, is accepted and returned unchanged |
| `TodoSchemas.IdentifierAcceptsEmpty` | backend/src/types.js:12 | the payload `{"id": ""}` is accepted: there is no length bound |
| `TodoSchemas.IdentifierRejections` | backend/src/types.js:12 | a missing `id` is rejected with exactly the issue "Id is required"; a non-string `id` with exactly one wrong-type issue on `id` |
| `TodoSchemas.IdentifierIgnoresUnknownKeys` | backend/src/types.js:11-13 | the identifier result depends only on the `id` member |
| `TodoSchemas.IdentifierRoundTrip` | backend/src/types.js:11-13 | every identifier written as a payload is accepted and returned unchanged; re-validating an accepted identifier gives the same result |

## Left out

- Request handlers. The routes at backend/src/index.js:25-31 register no handler function, and no code calls either schema, so there is no handler logic to model.
- The list handler (backend/src/index.js:15-23) answers with a constant empty list. The error funnel (backend/src/index.js:34-38) answers with a constant 500 message. Both are HTTP plumbing with no logic.
- Persistence (backend/src/db.js): a database connection and a field-type declaration for a foreign library.
- The client (frontend/src/App.jsx): UI state and network calls.
- Zod's issue codes and default message texts. Issues are modelled as a path plus an abstract kind; only the schemas' own required messages are kept as text.
- JSON numbers are kept as `real` values. No schema here looks at a number's value, only at its type.
- Properties inherited from `Object.prototype` (`toString`, `constructor`, `__proto__`, ...). `Json.Get` reads own members only. The schemas read only `title`, `description` and `id`, which `Object.prototype` does not define, so the validators are unaffected.
- Strings holding unpaired surrogates. A JSON `\ud800` escape yields such a string in JavaScript, where each lone surrogate counts 1 towards `.length`. A Dafny `char` cannot hold a surrogate, so these strings have no counterpart here. `TodoSchemas.ValidateCreate`, `TodoSchemas.ValidateIdentifier`, `TodoSchemas.CreateRoundTrip` and the other lemmas range only over strings of Unicode scalar values.
- Parsing the body text into a JSON value, and the parser's handling of malformed JSON, are not part of this model; the validators start from a parsed value.
