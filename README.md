# Ça reste ouvert: contribution intake and OSM upload, modelled in Dafny

This project models the core of the "Ça reste ouvert" backend: a small
Node.js service that collects crowd-sourced COVID-19 opening statuses of
places and pushes them to OpenStreetMap. The model covers three pieces:

- **The contribution route** (`POST /contribute/:type/:id`, module `Api`).
  It is a chain of guards: the element type, then the numeric id, then the
  state. The first guard that fails gives a 400 answer. The route builds the
  `osmid` as `type + "/" + id` and calls `addContribution` with four
  positional arguments.
- **The contributions table** (module `Db`). It is a class over a map from
  the serial `id` to a row. The model covers the insert, the two pending
  selections with `LIMIT 100` (upload and notes), the normalisation of an
  empty result, and the in-place `sent_to_osm` update.
- **The upload job** `sendDataToOSM` (module `Osm`). One run does the
  following in order:
  - fetches the pending contributions;
  - opens a changeset;
  - for each contribution, fetches the element, builds a `tags` map that is
    never used, sets the raw columns as tags, stamps the element and sends
    it;
  - closes the changeset;
  - marks the accepted contributions as sent;
  - schedules the next run.

  The OSM client is a `Gateway` object. It records every call and answers
  the n-th call it receives from a fixed table of answers, which may include
  rejections. The database's failures are the parameter `DbFaults`. The
  method `Uploader.SendDataToOsm` is proved equal to the function `Cycle`.
  The lemmas about `Cycle` state what a run does.

Module `Js` gives the JavaScript semantics the code relies on:
- truthiness;
- `typeof`;
- `String(v)` for the values that reach a message;
- `String.prototype.trim`, with the full set of ECMAScript white-space and
  line-terminator code points.

Module `Wrappers` holds `Option` and `Result`.

Three facts that cross files are proved rather than patched:
- The route passes `"24/7"` in the position of `status`. A row it inserts
  therefore never matches `status IN ('open', 'closed')`, and neither
  selection ever returns it.
- The upload query does not select `details`, so `contrib.details` is
  `undefined` in the upload loop.
- The computed `tags` map is discarded. `setTags` receives the raw
  `opening_hours` column and `undefined` as the note.

Behaviour of the code worth knowing:
- A rejected `setContributionsSent` is only logged, and nothing is queued
  for a retry.
- A rejected call inside the loop skips `closeChangeset`.
- The note key is `note:covid19`.
- A missing element is skipped and stays pending.
- The code has no clustering, no recovery queue, no note publishing and no
  410 handling.

## Model

| member | source | states |
|---|---|---|
| Js.Truthy | src/osm.js:28 | JavaScript truthiness, as tested by `if(changesetId)`, `if(result)` and `if(contrib.details ...)`: a value is truthy exactly when it is none of `undefined`, `null`, `false`, `0`, `NaN` and `""` |
| Js.TypeOf | src/index.js:46 | `typeof` always gives a non-empty, truthy string; it is "undefined" exactly for `undefined` and "string" exactly for strings |
| Js.ToJsString | src/index.js:42 | string concatenation shows a string value as itself |
| Js.Trim | src/osm.js:38 | `trim()` gives an infix of the input; everything cut on both sides is white space, and the result neither starts nor ends with white space |
| Js.TrimIdempotent | src/osm.js:38-39 | trimming twice is trimming once |
| Js.TrimEmptyIffAllSpace | src/osm.js:38 | `details.trim().length > 0` fails exactly when details is all white space |
| Db.PendingSet | src/db.js:23-28 | an id is pending for a query exactly when its row is unsent, has its details NULL (upload) or not NULL (notes), and has status open or closed |
| Db.SelectionsDisjoint | src/db.js:23-28 | no row is pending for both the upload and the notes query |
| Db.RowsOrEmpty | src/db.js:24-29 | a missing result, missing rows or no rows give `[]`; otherwise the rows themselves |
| Db.ToCell | src/db.js:16-18 | `undefined` and `null` bind as SQL NULL, a string as itself |
| Db.BindAddContribution | src/db.js:15 | for every one of the eight parameters, the argument in its position binds to it, and `undefined` when the call passes fewer arguments |
| Db.NewRow | src/db.js:15-19 | an inserted row is unsent; its `osmid`, `name`, `status`, `opening_hours`, `details` and `tags` columns hold the bound parameters; it has a point geometry exactly when both coordinates are non-NULL, and then the point is made of them |
| Db.MarkSent | src/db.js:33 | the update keeps the table's set of ids |
| Db.MarkSentExactly | src/db.js:33 | `sent_to_osm` becomes true on exactly the listed ids; every other row and every other column is unchanged |
| Db.MarkSentIdempotent | src/db.js:33 | repeating the update changes nothing |
| Db.MarkSentLeavesPending | src/db.js:23-33 | after the update, the pending set of either query is the old one minus the listed ids |
| Db.MarkedNeverSelected | src/db.js:22-33 | after the update, no listed id is returned by either selection |
| Db.Table.AddContribution | src/db.js:15-20 | inserts the bound row under a fresh id and changes no other row |
| Db.Table.PendingIds | src/db.js:23 | returns min(100, number pending) distinct pending ids, in no particular order |
| Db.Table.GetContributionsForUpload | src/db.js:22-25 | the upload selection: at most 100 distinct pending rows, projected to id, osmid, status, opening_hours and tags |
| Db.Table.GetContributionsForNotes | src/db.js:27-30 | the notes selection: at most 100 distinct pending rows with their notes columns |
| Db.Table.SetContributionsSent | src/db.js:32-34 | the table becomes its old contents updated by `MarkSent`; the serial counter is unchanged and every id stays below it |
| Api.Validate | src/index.js:28-51 | accepts exactly when type, id and state are all valid; otherwise answers 400 with the message of the first failing guard, in the order type, id, state; on acceptance gives `osmid = type + "/" + id` and the arguments `[osmid, state, "24/7", details]` |
| Api.Contribute | src/index.js:28-59 | 400 exactly on a failed guard, answering with that guard's message; 200 "OK" exactly when accepted and saved; 500 exactly when accepted and the insert fails |
| Api.DetailsNeverRejected | src/index.js:46-48 | the details guard never rejects a request |
| Api.OsmIdRoundTrip | src/index.js:38 | an `osmid` built from a valid type and id parses back into that type and id |
| Api.OsmIdParsed | src/index.js:38 | any string that parses as an `osmid` is `type + "/" + digits` with a valid type |
| Api.AcceptedOsmIdForm | src/index.js:30-38 | an accepted request's `osmid` has the form `{node,way,relation}/[0-9]+` |
| Api.AcceptedBinding | src/index.js:54 | the state binds to `name`, "24/7" to `status`, details to `opening_hours`; `details`, `lon`, `lat` and `tags` are `undefined` |
| Api.AcceptedRowNeverPending | src/index.js:51-54 | the inserted row has status "24/7", name from the state, NULL details and no geometry, so neither query selects it |
| Api.InsertedRowNeverSelected | src/index.js:54 | once inserted, such a row is absent from every upload and notes selection |
| Osm.Field | src/db.js:23 | on an uploaded row, `contrib.details`, and every other table column the query does not select (`name`, `geom`, `sent_to_osm`), is `undefined` |
| Osm.CovidTags | src/osm.js:36-47 | trimmed non-empty details go to `note:covid19`; an open place gets its hours or "same", a closed one "off", under `opening_hours:covid19`; no other key |
| Osm.BuildCovidTags | src/osm.js:36-47 | the map the loop fills key by key is the one `CovidTags` states |
| Osm.SetTagsArgument | src/osm.js:49-52 | `setTags` receives exactly the two keys: the raw hours column and an `undefined` note |
| Osm.TagsDiscarded | src/osm.js:36-52 | on any uploaded row, the computed map has no note, and its hours agree with the argument actually sent only when the column already holds the computed value |
| Osm.Visit | src/osm.js:32-64 | one turn of the loop: after a rejected call the verdicts and kept ids are unchanged, otherwise one verdict is added (`VisitEffect` states the calls and the verdict) |
| Osm.Loop | src/osm.js:31-65 | the `for` loop, one turn per contribution in order, stopped by the first rejected call (`LoopShape`, `LoopEdited` and `LoopTurns` state what it computes) |
| Osm.VisitEffect | src/osm.js:32-64 | one turn fetches, then sends only a fetched element; a rejection stops the loop; otherwise it adds one verdict and keeps the id exactly when the send answered truthy |
| Osm.LoopShape | src/osm.js:31-65 | the loop makes one fetch (and for a found element one send) per contribution; a full loop gives a verdict for every contribution; a stopped one ends with the rejected call |
| Osm.LoopCallKinds | src/osm.js:31-65 | inside the loop the only API calls are element fetches and element sends |
| Osm.LoopEdited | src/osm.js:30-63 | `editedElemIds` is the ids of the `Updated` contributions, in input order |
| Osm.UpdatedIdsMembers | src/osm.js:56-63 | an id is kept exactly when some contribution with that id was fetched and then accepted by `sendElement` |
| Osm.LoopTurns | src/osm.js:31-65 | each verdict matches the API's answers to that contribution's fetch and send, and the element sent is the fetched one after `setTags` and `setTimestampToNow`, in the open changeset |
| Osm.LoopThrewStays | src/osm.js:31-65 | after a rejected call, no further contribution is visited |
| Osm.Cycle | src/osm.js:22-99 | one run: the query, the changeset, the loop, the close and the marking, and the exit each path takes; a failed query is exactly `QueryFailed`, an empty answer exactly `NothingToSend`, the table changes only on `MarkedSent` (by `MarkSent` of the kept ids), which needs a successful update and a non-empty list, and a marking is always of the kept ids |
| Osm.CycleCalls | src/osm.js:22-67 | no call is made when the query fails or finds nothing; otherwise the changeset is created first and only once; it is closed, as the last call and with its own id, exactly when the loop ran to the end, and then every contribution has a verdict |
| Osm.CycleNoChangeset | src/osm.js:26-89 | when `createChangeset` is rejected or gives a falsy id, no element is fetched or sent, nothing is marked and the table is unchanged; the run ends with `NoChangeset` exactly for a falsy id and with `Aborted` exactly for a rejection |
| Osm.CycleAbort | src/osm.js:26-99 | a run aborts exactly when its last call (the changeset creation, a fetch or a send) was rejected |
| Osm.CycleTurns | src/osm.js:26-65 | every verdict of a run matches the API's answers to that contribution's calls, which come after the changeset creation |
| Osm.CycleMarking | src/osm.js:30-84 | `setContributionsSent` is called exactly when the loop completed with a non-empty list, and with exactly that list; the table changes only when that call succeeds |
| Osm.CycleUpdatedNotPending | src/osm.js:70-80 | after a run, the pending set is the old one minus the updated ids if they were marked, and unchanged otherwise, so missing and refused contributions stay pending |
| Osm.AbortAfterUpdate | src/osm.js:56-99 | an element accepted by `sendElement`, then a rejected fetch: the changeset is left open, nothing is marked, and the accepted contribution stays pending |
| Osm.Gateway.CreateChangeset | src/osm.js:26 | records the call and gives the answer for its position |
| Osm.Gateway.FetchElement | src/osm.js:32 | records the call and gives the answer for its position |
| Osm.Gateway.SendElement | src/osm.js:56 | records the call and gives the answer for its position |
| Osm.Gateway.CloseChangeset | src/osm.js:67 | records the call; its answer is never awaited |
| Osm.Uploader.VisitOne | src/osm.js:32-64 | one turn of the loop makes the calls, and gives the verdict and kept ids, that `Visit` states |
| Osm.Uploader.SendAll | src/osm.js:30-65 | the `for` loop makes the calls, and gives the verdicts, kept ids and stop, that `Loop` states |
| Osm.Uploader.UploadContributions | src/osm.js:23-90 | on a non-empty list, the API calls and the table after it are those of `Cycle`; each of its exits reschedules exactly once |
| Osm.Uploader.SendInChangeset | src/osm.js:28-84 | once a changeset with a truthy id is open, the loop, the close and the marking give the calls and the table `Cycle` states, and each exit reschedules exactly once |
| Osm.Uploader.SendDataToOsm | src/osm.js:17-100 | a run picks a valid upload selection (or fails its query exactly when the database rejects it), makes the calls and leaves the table that `Cycle` states, and schedules exactly one next run on every path, each exit incrementing the timer count where the code calls `afterAll()` |

## Left out

- HTTP client setup: the `XMLHttpRequest`/`btoa` shims, the `OsmRequest` construction and its credentials (src/osm.js:1-14). These are I/O. The client is the abstract `Gateway`, whose answers are a parameter.
- Timing: `setTimeout` and `CONFIG.DELAY_OSM` are not modelled. Rescheduling is the counter `Uploader.timers`.
- Osm.Gateway.CloseChangeset: `closeChangeset` is not awaited. The model records it as an ordered call and ignores its result, including a rejection.
- `osm-request`'s `setTags` and `setTimestampToNow` are foreign code. Elements are opaque, and the model records only which of these were applied and with which argument.
- Osm.CovidTags: requires `details` to be a string or falsy, so the `TypeError` that `.trim()` raises on a truthy non-string is not modelled. The loop only ever passes `undefined` there, because the upload query does not select `details`.
- A synchronous exception thrown inside `setTags` or `setTimestampToNow` is not modelled.
- All `console.log`/`console.error` logging.
- Express setup, CORS, compression, the 404 handler and `app.listen` (src/index.js:14-26, 63-71). These are web-framework plumbing. Route parameters are modelled as strings and body fields as JavaScript values.
- The pg `Pool` and its error event. A rejected query or update is the parameter `DbFaults`, or `saved` for the insert.
- PostGIS (`ST_SetSRID`, `ST_Point`, `ST_X`, `ST_Y`): the geometry is opaque. Coordinates are carried as text, and there is no floating point.
- Column types and defaults come from a schema that is not part of this model. Columns are modelled as nullable text, and `sent_to_osm` starts false.
- `Db.Table.GetContributionsForUpload` and `Db.Table.GetContributionsForNotes` do not model the query itself failing. For the upload run, that failure is `DbFaults.queryFails`.
- Concurrent requests that change the table between a run's query and its update. Node's single thread serialises them, but the `await`s in between are not modelled.
- Api.Contribute: a `state` object whose string conversion throws (for instance `{"toString": 1}`, for which `"Invalid status : " + state` raises a `TypeError` that Express answers with 500) is answered 400 with its text form `shown`, because an object's conversion is modelled as always succeeding. `Api.Validate` shares this simplification.
- A JavaScript number, or an object reaching a message or a column, is carried as its text form. Number formatting and object-to-string conversion are not modelled.
- OSM version conflicts and the content of the OSM response: `sendElement`'s answer is any value tested for truthiness.
- Clustering, a recovery queue for failed acknowledgements, note publishing, 410 "gone" handling and `description:` tag rules. The code has none of these.
