# Postman testing helpers, modelled in Dafny

This project models the core of `library/ptf.js`. That file is a helper object that Postman
test scripts load from a global variable. The model covers three of its parts:

- **`slugify`** (`slug.dfy`, module `Slug`). A pure chain of string replacements that turns
  an endpoint's display name into a key. Each replacement is one function. The result is
  proved to be a slug: only `[a-z0-9-]`, and never two hyphens in a row. Each stage's
  contract says what it removes and what it keeps, and every ASCII letter and digit of the
  name is proved to reach the slug. Order lemmas show that each stage works piece by piece:
  the filters distribute over concatenation, and the two run replacements do so when the
  second piece does not start inside a run. Slugify is proved to leave a string unchanged exactly
  when that string is already a slug, so it is idempotent. The ASCII character classes it
  shares with the JSON model are in `chars.dfy`, module `Chars`.
- **`triggerRequestReRuns`** (`reruns.dfy`, module `ReRuns`). The persisted
  `set_next_request` global is a class `ReRunStore` holding a `map<string, int>` from
  endpoint slug to the number of runs still owed. Each call loads the map, inserts or
  decrements the endpoint's entry, deletes the entry once the count is no longer positive,
  and returns the instruction for the host runner: `Jump(id)` or `Clear`. The functional
  `Step` and `Run` describe one call and a run of calls. The lifecycle lemma proves that
  with `times = n` the endpoint is re-run on calls 1 to n, is cleared on call n + 1, and
  leaves the store as it was.
- **The response validators** (`validators.dfy`, module `Validators`, over the JSON values
  of `json.dfy`, module `JsonValue`). Each `pm.test` is one `TestResult` (title and
  verdict) appended to a `TestReport`. Inside a test the first failing `pm.expect` ends the
  test, so a verdict is `Pass` or the reason of the first failure. `runOptionsTest` records:
  1. the error-shape test;
  2. the query test, when a query is expected;
  3. `<name>: Success`;
  4. `<name>: Basic Structure`.

  The structure test chooses the options list by shape, then checks every item with a
  `for` loop. That loop is the method `CheckItems`, proved against `FirstBadItem`.
  `SelectOptions` and `StructureVerdict` do the checks in the code's order. Their contracts
  relate them to `ListIn` and `ListAt`, which say directly which path must hold the list.

Inputs that the JavaScript takes from its surroundings are explicit parameters here:

- the endpoint name that `triggerRequestReRuns` reads from the free variable
  `endpoint.request_name`;
- the `response` in the script's scope, which `runErrorResponseTest` reads (the
  `ambient` parameter of `RunOptionsTest`);
- the HTTP status;
- the request's `format` header (`scope`).

## Behaviour worth knowing

Some of what the code does differs from what its names or comments might suggest. The model
follows the code in each case:

- A slug can begin or end with a hyphen. The code trims whitespace before it turns `_` into
  `-`, so `"_a"` becomes `"-a"`. Punctuation next to a space has the same effect: `"a !"`
  becomes `"a-"`. `LeadingUnderscoreGivesLeadingHyphen` proves the first case.
- A stored count can be below 1. The code stores `times` without checking it, so with
  `times <= 0` the first call still jumps and leaves a count below 1
  (`NonPositiveTimesStoresNonPositiveCount`), and the call after that clears. Every stored
  count stays at least 1 only when `times >= 1` (`StepKeepsCountsPositive`).
- `times = n` means n re-runs, not n runs. The first call stores n and jumps, and each later
  call decrements before it tests the count. So with `times = 3` the third call still jumps
  (the count goes from 2 to 1), and only the fourth call clears (`ReRunLifecycle`).
- Within one `pm.test`, the first failing expectation ends that test. Separate `pm.test`
  calls are independent of each other. "Basic Structure" therefore reports only its first
  failure, and only the first bad item index.
- Two endpoint names can share a slug, and then they share a counter
  (`DistinctNamesShareSlug`).

## Model

| member | source | states |
|---|---|---|
| `Slug.Slugify` | library/ptf.js:19-29 | the result is a slug: every character is in `[a-z0-9-]` and no two hyphens are adjacent |
| `Slug.StripMarks` | library/ptf.js:23 | no combining mark U+0300..U+036F remains, every character left comes from the input, and every other character of the input is kept (order: `StripMarksAppend`) |
| `Slug.StripMarksAppend` | library/ptf.js:23 | removing marks from `a + b` gives the result for `a` followed by the result for `b`, so the kept characters stay in their order |
| `Slug.Lower` | library/ptf.js:24 | position by position, each character is its ASCII lower-case form, so no upper-case ASCII letter remains and every other character is kept |
| `Slug.Trim` | library/ptf.js:25 | the result is the slice of the input that starts after its leading whitespace, and everything before and after that slice is JavaScript whitespace, and it neither starts nor ends with whitespace |
| `Slug.UnderscoresToHyphens` | library/ptf.js:26 | position by position, `_` becomes `-` and every other character stays, so no `_` remains |
| `Slug.SpaceRunsToHyphens` | library/ptf.js:27 | no whitespace remains; every character comes from the input or is the `-` a run became; every non-whitespace character is kept, and whitespace in the input gives a `-` (order: `SpaceRunsAppend`, `SpaceRunIsOneHyphen`) |
| `Slug.SpaceRunsAppend` | library/ptf.js:27 | when `x` starts with a non-whitespace character, the result for `a + x` is the result for `a` followed by the result for `x` |
| `Slug.SpaceRunIsOneHyphen` | library/ptf.js:27 | a non-empty string of whitespace only becomes exactly `"-"` |
| `Slug.KeepWordAndHyphen` | library/ptf.js:28 | a character is in the result if and only if it is in the input and is a word character or `-` (order: `KeepWordAndHyphenAppend`) |
| `Slug.KeepWordAndHyphenAppend` | library/ptf.js:28 | dropping the other characters from `a + b` gives the result for `a` followed by the result for `b` |
| `Slug.CollapseHyphens` | library/ptf.js:29 | no two hyphens are adjacent; every non-hyphen character is kept, a hyphen stays when there was one, the first character and emptiness are kept, and nothing new is introduced (order: `CollapseHyphensAppend`, `CollapseHyphenRun`) |
| `Slug.CollapseHyphensAppend` | library/ptf.js:29 | when `x` starts with a character other than `-`, the result for `a + x` is the result for `a` followed by the result for `x` |
| `Slug.CollapseHyphenRun` | library/ptf.js:29 | a non-empty string of hyphens only becomes exactly `"-"` |
| `Slug.SlugifyFixedPoint` | library/ptf.js:19-29 | slugify leaves a string unchanged if and only if it is already a slug |
| `Slug.SlugifyIdempotent` | library/ptf.js:19-29 | `slugify(slugify(x)) == slugify(x)` for every string |
| `Slug.SlugifyKeepsLetterOrDigit` | library/ptf.js:19-29 | every ASCII letter and digit of the name appears in its slug, lower-cased |
| `Slug.SlugifyKeepsHyphen` | library/ptf.js:26-29 | a name containing `_` or `-` gets a `-` in its slug |
| `Slug.LeadingUnderscoreGivesLeadingHyphen` | library/ptf.js:25-26 | for a slug `t` that does not begin with `-`: trimming happens before `_` becomes `-`, so `"_" + t` slugifies to `"-" + t` |
| `Slug.DistinctNamesShareSlug` | library/ptf.js:19-29 | for a slug `t` that does not begin with `-`: the two different names `"_" + t` and `"-" + t` get the same slug, `"-" + t`, so their counters collide |
| `Slug.SlugifyWorkedCase` | library/ptf.js:19-29 | `slugify("A b")` is `"a-b"`, with each stage's result stated by its own lemma |
| `Slug.SpaceBetween` | library/ptf.js:27 | a single space between two non-whitespace characters becomes a single `-` |
| `ReRuns.Step` | library/ptf.js:45-64 | one call changes only the current key's entry; it jumps exactly when the entry still exists afterwards, and only to `endpointId` |
| `ReRuns.Run` | library/ptf.js:45-64 | `calls` consecutive calls give `calls` instructions and change only the current key's entry |
| `ReRuns.StepOnAbsentKey` | library/ptf.js:58-62 | on a key not in the store: store `times` and jump |
| `ReRuns.StepOnPresentKey` | library/ptf.js:48-57 | on a present key with count c: if c-1 > 0, store c-1 and jump; otherwise delete the key and clear; `times` plays no part |
| `ReRuns.StepKeepsCountsPositive` | library/ptf.js:48-62 | when `times >= 1`, a call keeps every stored count at least 1 |
| `ReRuns.NonPositiveTimesStoresNonPositiveCount` | library/ptf.js:58-61 | with `times <= 0` a first call still jumps, and it stores a count below 1 |
| `ReRuns.Countdown` | library/ptf.js:48-57 | from a stored count c >= 1, c calls jump c-1 times, then clear, and the entry is removed |
| `ReRuns.ReRunLifecycle` | library/ptf.js:45-64 | with no entry yet and `times = n >= 1`, n+1 calls jump n times and then clear, and the final store equals the initial one |
| `ReRuns.SingleReRun` | library/ptf.js:45-64 | with `times <= 1` (the default is 1), two calls on a fresh key give one jump, then a clear |
| `ReRuns.ReRunStore.constructor` | library/ptf.js:46 | an absent global reads as the empty map |
| `ReRuns.ReRunStore.TriggerRequestReRuns` | library/ptf.js:45-64 | the new map and the instruction are `Step` of the old map at the slug of the request name |
| `ReRuns.ReRunStore.TriggerForKey` | library/ptf.js:46-64 | the whole new map and the instruction in each of the three cases: first call, decrement that stays positive, delete |
| `Validators.ErrorShapeVerdict` | library/ptf.js:100-113 | passes if and only if the response is an object with `success`, and either `success` is truthy or `status`, `error` and `errors` are all keys; fails on `success` exactly when that property is missing |
| `Validators.QueryVerdict` | library/ptf.js:134-138 | passes if and only if the request data is an object with a `query` property |
| `Validators.StatusVerdict` | library/ptf.js:115-118 | passes if and only if the status is 200, and otherwise reports the status |
| `Validators.ItemsVerdict` | library/ptf.js:169-177 | the loop's verdict passes if and only if every item is an object with `display` and `value`; a failure names the first bad index |
| `Validators.FirstBadItem` | library/ptf.js:169-177 | `None` exactly when every item from `from` on is an object with `display` and `value`; otherwise the first index whose item is not |
| `Validators.CheckItems` | library/ptf.js:168-178 | passes if and only if every item is an object with `display` and `value`, so an empty list passes; a failure names the first bad index |
| `Validators.CheckStructure` | library/ptf.js:142-179 | the verdict of the "Basic Structure" callback: key check, then shape check, then item check |
| `Validators.SelectOptions` | library/ptf.js:147-166 | the shape dispatch selects a list exactly when the shape's path holds one, and then that list; it rejects with "Options is not an array" only when a query is expected and `options` is there but not an array, and with a read of `null` only when an options key is given and `response[key]` is `null` |
| `Validators.StructureVerdict` | library/ptf.js:142-179 | a missing `key` fails with "Response missing"; no list at the shape's path means a shape failure, never an item failure; a list there means the verdict of the per-item loop |
| `Validators.StructurePassIff` | library/ptf.js:142-178 | "Basic Structure" passes if and only if the shape's path holds a list and every item is an object with `display` and `value` |
| `Validators.ScopedName` | library/ptf.js:127-131 | the name is kept as a prefix; it changes if and only if the scope is present and non-empty, and then gains exactly `" - " + scope` |
| `Validators.ScopeSuffixAccumulates` | library/ptf.js:127-131 | after k runs with a non-empty scope the name carries k copies of `" - " + scope`; without a scope it is unchanged |
| `Validators.OptionsTestResults` | library/ptf.js:122-180 | the tests recorded, in order: error shape on the ambient response, then the query test only if a query is expected, then `<name>: Success`, then `<name>: Basic Structure` with its pass condition |
| `Validators.RunErrorResponseTest` | library/ptf.js:100-114 | appends exactly one result, the error-shape test's |
| `Validators.RunSuccessResponseTest` | library/ptf.js:115-119 | appends exactly one result, `<name>: Success` with the status verdict |
| `Validators.RecordLaterOptionsTests` | library/ptf.js:134-179 | appends, in order, the query test only when a query is expected, then `<name>: Success` with the status verdict, then `<name>: Basic Structure` with the structure verdict |
| `Validators.RunOptionsTest` | library/ptf.js:122-180 | the endpoint's name gains `" - " + scope` when the scope is non-empty, and the report gains exactly the results of `OptionsTestResults` for the new name |
| `Validators.FlatListPasses` | library/ptf.js:160-177 | `{items: [{display: "A", value: 1}]}` with a flat shape passes "Basic Structure" |
| `Validators.ItemWithoutValueFails` | library/ptf.js:171-177 | `{items: [{display: "A"}]}` fails "Basic Structure" at item 0 |
| `Validators.EmptyQueryOptionsPass` | library/ptf.js:147-154 | with a query, `{items: {options: []}}` passes |
| `Validators.FalseSuccessWithoutErrorsFails` | library/ptf.js:106-111 | `success: false` without `errors` fails on the key check |

## Left out

- `testPtf` is left out: it only logs to the console. The `console.log` lines of
  `triggerRequestReRuns` are left out for the same reason.
- `parseJwt` is left out. It relies on `atob`, `decodeURIComponent` and `JSON.parse`,
  which are library calls. Its only local step is the swap from the base64url alphabet to
  base64 (section 5 and section 4 of RFC 4648).
- `getPreRequestData` and `setPreRequestData` are left out. They are lodash `_.get`/`_.set`,
  JSON text handling and `pm.request.body.update`; the only logic is a right-biased shallow
  merge.
- `alterRequestForExample` is left out: the branch taken on a path match has an empty body.
- `getGlobal` and `setGlobal` are left out: they are thin wrappers over `pm.globals` and JSON.
- The `set_next_request` global is modelled as an already-parsed map. Writing it as JSON
  text and reading it back are not modelled, and neither is malformed text, which makes
  `JSON.parse` throw. Counts are integers.
- Unicode NFD normalisation in `slugify` is left out: the input is taken as already
  decomposed. `text.toString()` is the identity here because the input is a string.
- `Slug.Lower`: only the ASCII letters are lower-cased, where JavaScript's `toLowerCase`
  covers all of Unicode. On NFD-decomposed input both give the same slug. The non-ASCII
  letters that lower-case to ASCII (U+212A KELVIN SIGN, U+0130) decompose under NFD into
  `K`, and into `I` followed by a combining dot. Every other non-ASCII letter, lower-cased
  or not, is not a word character, so the `[^\w\-]` stage drops it either way. The model
  takes its input as already decomposed (see the line above). Only input that NFD has not
  decomposed could slugify differently.
- The Postman and chai machinery (`pm.test`, `pm.expect`, `postman.setNextRequest`,
  `pm.response.to.have.status`) is modelled as returned values and appended records.
  Failure messages are a `Reason` tag with the data they mention, not the message text.
- Property names inherited from a prototype (`constructor`, `toString`, `__proto__`, ...)
  are treated as absent. Chai's `have.property` would find them. The model covers own
  properties: object keys, plus the indices and `length` of arrays and strings.
- JSON numbers are integers. Fractions, `-0` and `NaN` are not modelled. String length
  counts Unicode scalar values, not UTF-16 code units.
- The request data and the scope header are modelled only as far as they are examined:
  request data is a JSON value, and the header is an optional string. Non-string header
  values are not modelled.
- Default arguments are not modelled: `times = 1`, `endpointName = "Endpoint"` and
  `expectsQuery = false`. Callers pass each value explicitly.
- An `endpoint` or `endpoint.request_name` that is undefined is not modelled. In the code
  that is a `ReferenceError` or a `TypeError`.
