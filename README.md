# SBOM ingestion core, modelled in Dafny

This project models the core of an SBOM (Software Bill of Materials) browser: a web application
that accepts CycloneDX or SPDX JSON documents, works out which of the two formats a document
uses, extracts a uniform list of components from it, and stores the document and its components
atomically. It also models the dashboard's list state machine.

- `wrappers.dfy` — `Option`, standing for JavaScript's `null`/`undefined`, with `??`.
- `json.dfy` — parsed JSON values and property access (a missing key reads as `undefined`).
- `js_string.dfy` — the JavaScript string built-ins used by the core: `trim`, `toLowerCase`
  (ASCII only), `includes`, and number-to-decimal in template literals.
- `parse.dfy` (module `SbomParse`) — `src/lib/sbom/parse.ts`: format detection and the CycloneDX 1.x
  and SPDX 2.3 extractors. The SPDX `externalRefs` search is kept as the source's loop
  (`FindPurl`) and proved equal to the first-match function `FirstPurl` that the pure
  `ParseSpdxPackage` uses.
- `ingest.dfy` (module `SbomIngest`) — `POST` of `src/app/api/sboms/route.ts`: request guards as a
  pure function, then a `Store` class holding the Sbom table (a map from id to row), the
  Component table (a sequence of rows) and the next free id. `Ingest` takes the transaction's
  snapshot, creates the Sbom in PARSING, inserts the components in consecutive slices of
  `chunkSize` (2000 in `Post`), marks the Sbom READY, and restores the snapshot if any storage
  call throws. Which storage call throws is the parameter `faultAt`: call 0 is the create, call k + 1
  is the batch with index k (counting batches from 0), and the call after the last batch is the update.
- `dashboard.dfy` (module `Dashboard`) — `src/components/dashboard/DashboardClient.tsx`: the reducer, the
  count label, and `deleteSbom` as two methods of a class holding the reducer state, split at
  its `await`.

Inputs the handler gets from outside are parameters: the session's user id, the form fields,
the file's size and its text already run through `JSON.parse` (`None` when that throws), the
project-to-owner table, the clock value for `parsedAt`, the confirmation answer and the DELETE
response.

Behaviour of the code worth noting, which the model follows:
- An element's `name` defaults to `"unknown"` only when it is not a string; an empty string name is kept as `""`.
- The SPDX purl is the locator of the first `externalRefs` entry whose type contains "purl" AND whose `referenceLocator` is a non-empty string; a matching entry with an empty or missing locator is skipped.
- SPDX `versionInfo` and `supplier` are copied only when they are strings.
- The project ownership check and the size cap are made by the handler itself (`CheckUpload`), before the JSON text is parsed.
- `deleteSbom` has no `try`/`catch` around its `fetch`, and its caller neither awaits nor catches it. When the DELETE request throws (a network error), the rollback never runs: the list stays without the item, with status "idle" and no error shown.

## Model

| member | source | states |
|---|---|---|
| `SbomParse.IsRecord` | src/lib/sbom/parse.ts:6-8 | a record is a value of type "object" (not a boolean, number or string) that is neither null nor an array |
| `SbomParse.AsString` | src/lib/sbom/parse.ts:10-12 | the result is present exactly when the value is a string, and is that string |
| `SbomParse.ParseSbomJson` | src/lib/sbom/parse.ts:14-51 | CYCLONEDX iff an object with `bomFormat == "CycloneDX"`; SPDX iff an object that is not that and has a string `spdxVersion` or `SPDXID`; OTHER has no spec version and no components; spec version is `specVersion` resp. `spdxVersion` when a string; the components' metadata are exactly the object elements of `components` resp. `packages`, in order |
| `SbomParse.NonObjectIsOther` | src/lib/sbom/parse.ts:15-17 | arrays, null and scalars give OTHER, null spec version, no components |
| `SbomParse.CycloneDxWinsOverSpdx` | src/lib/sbom/parse.ts:19-31 | `bomFormat == "CycloneDX"` wins even when SPDX markers are also present |
| `SbomParse.SpdxIdOnlyHasNoSpecVersion` | src/lib/sbom/parse.ts:34-38 | a document recognised only by `SPDXID` is SPDX with a null spec version |
| `SbomParse.MapFilterKeepsRecords` | src/lib/sbom/parse.ts:26-28 | map-then-filter emits one component per object element, in order, each parsed from that element, with metadata equal to it |
| `SbomParse.MapFilterAppend` | src/lib/sbom/parse.ts:43-45 | the pipeline distributes over concatenation: relative order of elements is preserved |
| `SbomParse.ComponentsFollowElements` | src/lib/sbom/parse.ts:22-47 | the k-th emitted component is the format's parser applied to the k-th object element |
| `SbomParse.ParseCycloneDxComponent` | src/lib/sbom/parse.ts:53-83 | a component exactly for objects; metadata is the element; scope null; version, purl, group, type copied only when strings; name is the string `name` or "unknown"; supplier and license by the two rules below |
| `SbomParse.CycloneDxLicense` | src/lib/sbom/parse.ts:61-70 | a license only when `licenses[0].license` is an object; its string `id` takes precedence, else its string `name` |
| `SbomParse.CycloneDxSupplier` | src/lib/sbom/parse.ts:58-59 | null unless `supplier` is an object; for an object, its `name` when that is a string, else null |
| `SbomParse.CycloneDxLicenseOnlyFirstEntry` | src/lib/sbom/parse.ts:64-69 | entries after `licenses[0]` never affect the license |
| `SbomParse.ParseSpdxPackage` | src/lib/sbom/parse.ts:85-121 | a component exactly for objects; metadata is the element; group, type, scope null; version from `versionInfo`; name default "unknown"; purl is the first-match search over `externalRefs` |
| `SbomParse.SpdxLicense` | src/lib/sbom/parse.ts:92-93 | a string `licenseConcluded` is the license; otherwise `licenseDeclared` as a string, else null |
| `SbomParse.FindPurl` | src/lib/sbom/parse.ts:96-108 | the loop with `continue`/`break` returns the same purl as the first-match function |
| `SbomParse.FirstPurlIsFirstMatch` | src/lib/sbom/parse.ts:99-107 | null iff no entry qualifies; otherwise the locator of the earliest qualifying entry |
| `SbomParse.EarlierPurlRefWins` | src/lib/sbom/parse.ts:103-106 | of two qualifying entries the earlier one's locator is used |
| `JsString.ToLowerAscii` | src/lib/sbom/parse.ts:103 | lower-casing keeps the length, maps each of A to Z to its lower-case letter and leaves every other character unchanged |
| `SbomParse.UpperCasePurlTypeQualifies` | src/lib/sbom/parse.ts:101-103 | the type match ignores case: an object entry typed "PURL" with a non-empty locator qualifies |
| `JsString.IncludesIff` | src/lib/sbom/parse.ts:103 | `includes` holds iff the substring occurs at some index |
| `JsString.TrimEmptyIff` | src/app/api/sboms/route.ts:17-18 | a trimmed field is empty iff it consists of whitespace only |
| `SbomIngest.CheckUpload` | src/app/api/sboms/route.ts:7-51 | 401 iff no session; 400 "Missing file/name/projectId" iff the file is missing or the trimmed name or project id is empty; 413 iff the size exceeds 25 MiB with the fields present; 403 iff the project is not the user's; 400 "Invalid JSON" iff every check passes but the text is not JSON; admitted iff all checks pass and the text is JSON, with trimmed name and project id |
| `SbomIngest.BlankNameRefused` | src/app/api/sboms/route.ts:17-25 | an all-whitespace name is refused with 400 |
| `SbomIngest.UnrecognisedNeverStorable` | src/app/api/sboms/route.ts:53-60 | a document of no recognised format never passes the gate |
| `SbomIngest.BatchesFlatten` | src/app/api/sboms/route.ts:80-81 | the slices concatenate back to the component list, in order |
| `SbomIngest.BatchesCount` | src/app/api/sboms/route.ts:80 | there are ceil(n / chunk) slices |
| `SbomIngest.BatchesSizes` | src/app/api/sboms/route.ts:81 | no slice is empty or larger than the chunk size; all but the last are full |
| `SbomIngest.BatchesSlices` | src/app/api/sboms/route.ts:80-81 | the k-th slice is [k * chunk, min((k + 1) * chunk, n)) |
| `SbomIngest.FourThousandOneComponents` | src/app/api/sboms/route.ts:62-81 | 4001 components in chunks of 2000 go out as 2000, 2000, 1 |
| `SbomIngest.RowsCopyFields` | src/app/api/sboms/route.ts:83-97 | every inserted row carries the Sbom id and copies all nine fields of its component |
| `SbomIngest.NewRowsCounted` | src/app/api/sboms/route.ts:83-98 | after inserting for a fresh id, that id owns exactly n component rows |
| `SbomIngest.Store.CreateSbom` | src/app/api/sboms/route.ts:67-78 | creates a PARSING row under a fresh id with the raw JSON, format and spec version, or throws changing nothing |
| `SbomIngest.Store.CreateMany` | src/app/api/sboms/route.ts:83-98 | appends the rows, or throws changing nothing |
| `SbomIngest.Store.MarkReady` | src/app/api/sboms/route.ts:101-104 | sets READY and `parsedAt` on an existing row, or throws changing nothing |
| `SbomIngest.Store.InsertBatches` | src/app/api/sboms/route.ts:80-99 | issues the consecutive slices in order; it fails exactly when a batch call throws, and then has issued the slices before it and added just their rows; otherwise it issued all slices and the table grows by the rows of the whole list in order |
| `SbomIngest.Store.Ingest` | src/app/api/sboms/route.ts:53-107 | rejects OTHER or empty with 400 and no change; a throwing storage call leaves every table exactly as before; otherwise one new READY row with `parsedAt`, all components inserted under its id, count n, returned id is that row's; the store invariant (every stored Sbom READY with `parsedAt`, every component owned) is kept |
| `SbomIngest.Store.Post` | src/app/api/sboms/route.ts:7-110 | a refused request answers with the guard's status and changes nothing; an admitted one is rejected with 400 "Unsupported or empty SBOM" iff the gate fails, answered with a storage failure iff one of its storage calls throws, and created otherwise; a created one stores the trimmed name and project id and inserts in slices of 2000; nothing changes unless created |
| `Dashboard.Reducer` | src/components/dashboard/DashboardClient.tsx:21-32 | LOAD: loading, error cleared, items kept; SUCCESS: items replaced, idle, error cleared; ERROR: error status and message, items kept; only SUCCESS changes items; a non-empty error only comes with error status |
| `Dashboard.SuccessForgetsHistory` | src/components/dashboard/DashboardClient.tsx:25-26 | after SUCCESS the state does not depend on the state before |
| `Dashboard.WithoutMembers` | src/components/dashboard/DashboardClient.tsx:67 | the filtered list holds exactly the items with another id, one fewer per item with the deleted id |
| `Dashboard.WithoutAppend` | src/components/dashboard/DashboardClient.tsx:67 | filtering preserves the relative order of the kept items |
| `Dashboard.WithoutAbsent` | src/components/dashboard/DashboardClient.tsx:67 | deleting an id no item has changes nothing |
| `Dashboard.CountLabel` | src/components/dashboard/DashboardClient.tsx:112-117 | "Loading…" iff loading; otherwise the match text with the trimmed query when it is non-empty, else the plain count |
| `Dashboard.DashboardClient.constructor` | src/components/dashboard/DashboardClient.tsx:40-44 | starts with no items, loading, no error |
| `Dashboard.DashboardClient.Dispatch` | src/components/dashboard/DashboardClient.tsx:40 | the new state is the reducer applied to the old one |
| `Dashboard.DashboardClient.DeleteSbom` | src/components/dashboard/DashboardClient.tsx:63-67 | a cancelled confirmation changes nothing; otherwise `prev` is the old list and the list shown is it without the deleted id |
| `Dashboard.DashboardClient.SettleDelete` | src/components/dashboard/DashboardClient.tsx:69-87 | a refused request restores `prev` with error status and the server's or the default message; a successful one starts a LOAD; a request that throws changes nothing |
| `Dashboard.FailedDeleteRollsBack` | src/components/dashboard/DashboardClient.tsx:63-83 | a confirmed delete the server refuses ends with the original items and error status |
| `Dashboard.ThrownDeleteKeepsOptimisticList` | src/components/dashboard/DashboardClient.tsx:63-71 | a confirmed delete whose request throws ends with the list without the item, status idle and no error |

## Left out

- Authentication (the session lookup) is a parameter: the user id or its absence.
- `req.formData()`, `File` handling and `file.text()` are replaced by a form value holding the file name, its size and the parsed JSON; a non-`File` `file` field counts as missing, and a `File` given for the name or project id field is not modelled.
- `JSON.parse` is not modelled: the file's content arrives already parsed, or marked as not JSON.
- JSON numbers are an integer payload; they are never inspected.
- `toLowerCase`: only A to Z are lower-cased; Unicode case mapping is not modelled.
- The database: ids are a counter (`nextId`) rather than generated strings; the transaction engine is reduced to restoring the snapshot taken at its start; concurrent requests and isolation are not modelled. The Sbom row's upload timestamp and `projectId` foreign key constraints are not modelled.
- `new Date()` is a `Timestamp` parameter.
- The `GET` handlers and the projects route are database queries and are not part of this model.
- The reducer's `default` branch is unreachable with the closed action type and has no counterpart.
- `confirm(...)`, `fetch` and `res.json()` are parameters (the confirmation answer, and how the DELETE request ended: an ok response, a refusal with its error message, or a thrown request); the network part of `refreshList` and the `useEffect` fetch with its cancel flag and the debounce are not modelled.
- The rendering code (JSX) of every component is not part of this model.
