# Design-gallery back office, modelled in Dafny

The repository behind this model runs a design-style gallery. Visitors submit
their sites, editors review them in a headless CMS, and a static site is built
from the results. This project models the parts of that back office that hold
actual logic:

- **The submission-tracking function** (`netlify/functions/track.js`). It is one
  serverless handler.
  - An `OPTIONS` preflight gets 200 with an empty body.
  - A `POST` carrying `{confirmationNumber}` is looked up in the Airtable
    "Submissions" table with `maxRecords: 1`. The answer is 400 when there is no
    number, 404 when nothing is found, 200 with a projection of the first record
    when something is, and 500 when anything throws.
  - Every other method gets 405.
  - Every branch carries the same four CORS headers.
  - The module also exports a `submissions` cell with a setter and a getter.
- **The test-data cleanup script** (`tests/cleanup-test-data.js`). It selects
  the test rows of the same table with an Airtable formula. It returns early
  when there are none. Otherwise it destroys the selected rows in batches of
  at most ten ids, which is Airtable's per-request limit. It counts the
  deleted rows, and the first failure ends it.
- **Two CMS document schemas** (`sanity/schemas/gallerySubmission.js` and
  `sanity/schemas/author.js`). These are modelled as the set of validation
  markers a document raises: required fields, the email pattern
  `^[^\s@]+@[^\s@]+\.[^\s@]+$`, the status enumeration, and the reference
  target type.

Modules:

| file | module | content |
|---|---|---|
| `js_values.dfy` | `JsValues` | `undefined` as `Option`, JSON values, JavaScript truthiness, `x \|\| y` |
| `airtable.dfy` | `Airtable` | records, the outcome of a `select(...).all()`, record ids |
| `track.dfy` | `Track`, `TrackProperties` | the handler as a pure function, and its outcome-by-outcome characterisation |
| `cleanup.dfy` | `Cleanup` | the formula (with Airtable's `FIND`), the selection, chunking, the batching loop, the script |
| `email.dfy` | `Email`, `EmailExamples` | the email regex as a predicate, its "one @, dotted domain" characterisation, samples |
| `sanity.dfy` | `Sanity` | the CMS value types and validation markers the schemas share |
| `gallery_submission.dfy` | `GallerySubmissionSchema` | the gallery-submission document and its validity |
| `author.dfy` | `AuthorSchema` | the author document and its validity |

Effects become parameters:

- The handler receives the result of `JSON.parse(event.body)` as a value, either
  the parsed JSON or the message it threw.
- Airtable is a function from the query the handler sends to what the client
  library resolves to, either the records or the message it threw.
- For the cleanup script, the table is a value. `destroy` is a function from a
  batch of ids to "no error" or the error message.
- The script's console output is represented by the batch numbers of its
  "Deleted batch" lines and by the final `deleted` counter.

Some consequences of the code are easy to miss:

- **Absent fields.** A found record's absent fields stay `undefined`, and
  `JSON.stringify` drops them from the body. They are not sent as `null`.
  `SubmissionView` keeps each field as an `Option`.
- **Unparsable body.** A body that does not parse, or a body that parses to
  `null`, makes `JSON.parse` or the property read throw inside the `try`.
  The answer is 500.
- **Unconvertible number.** A confirmation number that is an object with its
  own `toString` member, or an array holding one, is truthy. It therefore
  passes the 400 check. Building the formula string at
  `netlify/functions/track.js:50` then throws a TypeError, so the answer is
  500 and no query is sent.
- **Falsy numbers.** A present but falsy confirmation number (`""`, `0`,
  `false`, `null`) is treated like a missing one and gets 400.

The schemas are read with the CMS's validation semantics:

- An empty optional field is not checked at all.
- A required field runs every rule chained on it.
- The pattern rule tests `value || ""`.

So the gallery's missing submitter email is reported twice, as missing and as
not matching. The author's missing email is not reported.

## Model

| member | source | states |
|---|---|---|
| JsValues.OrElse | netlify/functions/track.js:77 | `v \|\| fallback` yields `v` itself when `v` is truthy and the fallback otherwise |
| Airtable.Ids | tests/cleanup-test-data.js:42 | the ids have the same length as the batch and hold each record's id at its position |
| Track.ReadConfirmationNumber | netlify/functions/track.js:33-34 | reading `confirmationNumber` throws exactly when the parsed body is `null`; an object yields its member or `undefined`, and any other value yields `undefined` |
| Track.Project | netlify/functions/track.js:67-82 | the returned submission copies the five fields of the record unchanged; status is the record's Status when truthy and "pending" otherwise |
| Track.Handle | netlify/functions/track.js:12-108 | every response carries the four CORS headers and one of the codes 200/400/404/405/500; the body is empty exactly for OPTIONS; a submission is returned exactly on a non-preflight 200; `success` is false exactly when the code is not 200 |
| Track.QueryOf | netlify/functions/track.js:31-53 | a query is sent exactly for a POST whose body parses to an object with a truthy confirmation number that converts to a string; it names the "Submissions" table and carries that very number and `maxRecords` 1 |
| Track.SetSubmissions | netlify/functions/track.js:109-111 | after `setSubmissions(subs)`, `getSubmissions()` returns `subs` |
| TrackProperties.PreflightAlwaysSucceeds | netlify/functions/track.js:22-28 | OPTIONS answers 200 with the CORS headers and an empty body, whatever the body and the store hold, and consults no store |
| TrackProperties.MethodNotAllowedIff | netlify/functions/track.js:99-107 | 405 is returned if and only if the method is neither OPTIONS nor POST, with error "Method not allowed" |
| TrackProperties.BadRequestIff | netlify/functions/track.js:36-45 | 400 is returned if and only if a POST body parses to a non-null value whose confirmation number is falsy; no query is sent then |
| TrackProperties.NotFoundIff | netlify/functions/track.js:55-65 | 404 is returned if and only if a query was sent and it found no record; the body carries the not-found error and message |
| TrackProperties.FoundUsesFirstRecord | netlify/functions/track.js:67-84 | when the query finds records, the answer is 200, `success: true`, and the projection of the first record |
| TrackProperties.FoundIff | netlify/functions/track.js:47-84 | a submission is returned if and only if a query was sent and found at least one record |
| TrackProperties.ServerErrorIff | netlify/functions/track.js:85-96 | 500 is returned if and only if a POST body fails to parse, parses to `null`, holds a number whose conversion into the formula string throws, or its query throws; in each of the four cases the thrown message becomes `details`, and no query is sent when the body is `null` or the conversion throws |
| TrackProperties.ObjectNumberAnswersServerError | netlify/functions/track.js:47-53 | a POST whose number is an object with its own `toString` member gets 500 with the conversion error, and no query is sent |
| TrackProperties.DependsOnlyOnQuery | netlify/functions/track.js:47-53 | two stores that agree on the one query the handler sends give the same response; with no query sent, the store is irrelevant |
| TrackProperties.HandlerIgnoresSubmissions | netlify/functions/track.js:12-108 | the handler's response does not depend on the `submissions` cell |
| TrackProperties.SubmissionsCell | netlify/functions/track.js:109-115 | the cell starts as `[]`, a read returns the latest write, and a second write overrides the first |
| TrackProperties.ExampleLookup | netlify/functions/track.js:67-84 | looking up "ABC123" against an approved Brutalist row returns exactly its number, status and style, with the other three fields absent |
| Cleanup.Find | tests/cleanup-test-data.js:21 | `FIND` returns the 1-based position of the first occurrence of the needle, or 0 when the needle does not occur |
| Cleanup.FindPositiveIffOccurs | tests/cleanup-test-data.js:21 | `FIND(n, h) > 0` holds if and only if `n` occurs in `h` |
| Cleanup.IsTestRecord | tests/cleanup-test-data.js:20-21 | a row is selected if and only if its Name is "Test Designer" or "Test User", or contains "Automated", or its DesignStyle contains "Test" |
| Cleanup.Select | tests/cleanup-test-data.js:18-23 | the selection holds each test row exactly as often as the table does, and no other row |
| Cleanup.SelectSpec | tests/cleanup-test-data.js:18-23 | a row is selected exactly when it is a test row of the table, and the selection keeps table order |
| Cleanup.Chunks | tests/cleanup-test-data.js:36-42 | every batch holds 1 to 10 ids, all but the last exactly 10, and there is no batch if and only if there is no id |
| Cleanup.FlattenChunks | tests/cleanup-test-data.js:40-42 | the batches, concatenated in order, give back the selected ids |
| Cleanup.ChunksCount | tests/cleanup-test-data.js:40 | the number of batches is the ceiling of the id count divided by the batch size |
| Cleanup.BatchNumbers | tests/cleanup-test-data.js:47 | the progress lines number the batches 1, 2, ..., in order |
| Cleanup.DestroyInBatches | tests/cleanup-test-data.js:36-48 | the batches sent to `destroy` are a prefix of the chunks of the ids; every batch but a failing last one is reported under its number; without a failure all chunks are sent and `deleted` equals the number of records |
| Cleanup.CleanupTestData | tests/cleanup-test-data.js:13-55 | an unreachable store aborts before any deletion; the early return happens if and only if nothing is selected; a completed run destroyed every chunk of the selected ids and reports their count; a failing batch aborts right after the last reported one; if every batch succeeds, the run completes |
| Cleanup.CompletedRunDeletesSelection | tests/cleanup-test-data.js:40-50 | a completed run sends exactly the selected ids, in order, in ceil(n/10) calls; when the ids are distinct, as Airtable's record ids are, each is sent exactly once |
| Email.PatternIffShape | sanity/schemas/gallerySubmission.js:22 | a string matches the email regex if and only if it has no whitespace, exactly one '@', a non-empty local part, and a domain with a '.' that has a character on each side |
| Email.EmptyIsNoEmail | sanity/schemas/gallerySubmission.js:22 | the empty string does not match the pattern |
| EmailExamples.AcceptsPlainAddress | sanity/schemas/gallerySubmission.js:22 | "jane@example.com" matches the pattern |
| EmailExamples.AcceptsDotsInDomain | sanity/schemas/gallerySubmission.js:22 | "a@b.c.d" matches: the domain may hold several dots |
| EmailExamples.RefusesUndottedDomain | sanity/schemas/gallerySubmission.js:22 | "jane@example" does not match |
| EmailExamples.RefusesEmptyLocalPart | sanity/schemas/gallerySubmission.js:22 | "@example.com" does not match |
| EmailExamples.RefusesWhitespace | sanity/schemas/gallerySubmission.js:22 | an address containing a space does not match |
| Sanity.RequiredMarkers | sanity/schemas/gallerySubmission.js:15 | `Rule.required()` reports a field exactly when it holds no value, and reports nothing else |
| Sanity.EmailRule | sanity/schemas/author.js:32-33 | the email pattern rule reports an empty value exactly when the field is required, and reports a present value exactly when it does not match the pattern |
| GallerySubmissionSchema.ParseStatus | sanity/schemas/gallerySubmission.js:72-78 | a string denotes a status exactly when it is the stored value of that status |
| GallerySubmissionSchema.StatusListIsTheEnumeration | sanity/schemas/gallerySubmission.js:72-78 | the option list holds exactly the five statuses' values, each once |
| GallerySubmissionSchema.StatusRule | sanity/schemas/gallerySubmission.js:67-83 | a present status is reported exactly when it is not one of the listed values |
| GallerySubmissionSchema.ReferenceRule | sanity/schemas/gallerySubmission.js:54-60 | a style reference is reported exactly when it points at a document that is not a design style |
| GallerySubmissionSchema.RequiredProblems | sanity/schemas/gallerySubmission.js:11-83 | a field is reported as missing exactly when it is one of name, email, submission URL, screenshot, screenshot alt, style reference and status, and it is empty |
| GallerySubmissionSchema.ValueProblems | sanity/schemas/gallerySubmission.js:21-83 | the email is reported as malformed exactly when it is missing or does not match; an unlisted status and a reference to another document type are each reported exactly when present; nothing else is reported |
| GallerySubmissionSchema.Problems | sanity/schemas/gallerySubmission.js:5-99 | only fields that carry a rule are ever reported, and a required field is reported as missing exactly when it is empty |
| GallerySubmissionSchema.Valid | sanity/schemas/gallerySubmission.js:5-99 | a submission is valid if and only if every required field is filled, the email matches, the status is listed, and the style reference targets a design style |
| GallerySubmissionSchema.ValidEmailHasShape | sanity/schemas/gallerySubmission.js:21-22 | a valid submission's email is present, with one '@', a non-empty local part and a dotted domain |
| GallerySubmissionSchema.EmailMarkers | sanity/schemas/gallerySubmission.js:21-22 | a missing email is reported both as missing and as not matching; a present one is never reported as missing, and is reported as malformed exactly when it does not match |
| GallerySubmissionSchema.ValidMedia | sanity/schemas/gallerySubmission.js:37-60 | a valid submission has a screenshot with alt text and a reference to a design style |
| GallerySubmissionSchema.NewSubmissionProblems | sanity/schemas/gallerySubmission.js:5-83 | a new document starts with the listed status "submitted", so only the six other required fields are reported (the screenshot's alt text among them), plus the empty email's failed pattern |
| GallerySubmissionSchema.FreeFieldsUnchecked | sanity/schemas/gallerySubmission.js:24-98 | changing the website, description, submission date or review notes never changes what is reported |
| AuthorSchema.Problems | sanity/schemas/author.js:6-34 | name and slug are reported exactly when missing; the email is reported exactly when present and malformed; nothing else is reported |
| AuthorSchema.Valid | sanity/schemas/author.js:5-70 | an author is valid if and only if it has a name and a slug and any email it gives matches the pattern |
| AuthorSchema.EmailIsOptional | sanity/schemas/author.js:28-34 | leaving out the email never invalidates an author; validity is validity without the email plus a matching email when one is given |
| AuthorSchema.SameEmailRuleAsSubmissions | sanity/schemas/author.js:32-33 | for the same present address, the author schema and the submission schema agree on whether the email is malformed |
| AuthorSchema.FreeFieldsUnchecked | sanity/schemas/author.js:22-69 | changing the biography, image (with its alt text), Twitter, LinkedIn, GitHub or website never changes what is reported |

## Left out

- Network I/O is not modelled. This covers the Airtable client (`base(...).select(...).all()`, `destroy`), its configuration from environment variables, and the CMS client. Their outcomes are parameters.
- JSON serialisation is not modelled: `JSON.stringify` of the response body and the exact text of `JSON.parse` errors. Bodies are structured values, and parse errors are opaque messages.
- Track.QueryOf: the number is interpolated into the `filterByFormula` string without escaping (netlify/functions/track.js:50), but the query carries the JSON value rather than the formula text. Two values with the same string form, such as `1` and `"1"`, may therefore get different lookups. Formula injection through a quote in the number is not modelled. Only the conversion failure is modelled: an own `toString` member, or an array element that has one.
- Airtable's formula semantics beyond the cleanup formula are not modelled. String comparison is modelled as exact equality, and `FIND` as case-sensitive. A non-text field value is treated as blank by `Cleanup.Text`, where Airtable would convert it to text.
- Console logging is not modelled: the per-record listing, the error lines and the emoji banners. The batch numbers and the `deleted` count stand for the progress lines. `process.exit(1)` is the `Aborted` outcome.
- JSON numbers are reals. NaN cannot come out of `JSON.parse`, and no modelled branch distinguishes infinities.
- The CMS's rule-running behaviour, which `Sanity.EmailRule` follows, is taken as given: no file of this repository defines it. Empty optional fields skip their rules, required fields run every chained rule, and the pattern is matched against `value || ""`.
- GallerySubmissionSchema.NewSubmissionProblems: a required field nested in an object is checked whether or not the object is there. An absent `screenshot` is therefore also reported as lacking its `alt`. A document without `submitterInfo` is represented as one whose name, email and website are empty, so its name and email are reported. No file of this repository says how the CMS treats the children of an absent object. If it skipped those of an object that is not itself required, a new document would not report the submitter's name and email.
- The rest of the CMS's runtime is not modelled: its notion of an "empty" value (a required string holding "" or an image without an asset counts as present here), the paths under which it reports markers of nested fields (markers here name the field alone), slug generation (the `source: "name"` and `maxLength: 96` options are kept as `AuthorSchema.AuthorSlugOptions`), URL-type validation, and the existence check of referenced documents.
- `src/_data/sanity.js` is not part of this model, and neither is its operator-precedence defect at line 86. The same holds for the article and design-style schemas, the smoke-test scripts, and the configuration files.
- `Track.Invoke` takes the module state but carries no contract of its own. What it promises is stated by `TrackProperties.HandlerIgnoresSubmissions`.
