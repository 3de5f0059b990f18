# PouchDB replication benchmark: document ids and fixture generation

This project models the part of PouchDB's basic performance suite
(`tests/performance/perf.basics.js`) that holds logic of its own. The rest of that file is
benchmark plumbing around the database client.

- **Document ids.** `createDocId(i)` turns a sequence number into `"doc_"` followed by the
  decimal digits of `i`, left-padded with `'0'` to at least ten digits. The model has a
  specification function (`DocIds.DocId`, built on `Decimal.NatToString`) and the padding loop
  itself (`DocIds.CreateDocId`), and proves that they agree. It also proves the properties the
  benchmark relies on:
  - the prefix and the fixed width;
  - that only leading zeros are added;
  - that the id parses back to its number, so ids are injective;
  - that within ten digits, string order is numeric order. This is what makes a
    `startkey`/`endkey` range built from two ids select a numeric range.
- **The pull-replication test case.** `PullRequestTestObject` rejects a configuration with
  `generations <= 0` and otherwise returns the record the benchmark runner consumes. Its `setup`
  opens one local database per iteration and builds `numberDocs` documents with ids
  `createDocId(0..numberDocs-1)`. It then hands them to `addGeneration`, a countdown recursion:
  each step issues one bulk write and resubmits the documents with the revisions that write
  returned.
- **The remote database** is abstracted as a map from document id to revision count. Its bulk
  write accepts a document without `_rev` only if the id is new, and one with `_rev` only if that
  is the current revision. An accepted document gets the next revision. A rejected one is
  reported as a conflict. The response has one entry per document, in request order. The model
  proves that the generation chain never causes a conflict. It also proves that it takes exactly
  `generations` writes, keeps the ids and their order, and leaves every fixture document with
  `generations` revisions.

Modules: `Wrappers` (Option, Result), `Decimal` (decimal strings, value, fixed-width digits,
string order), `DocIds`, `RemoteDb`, `Generations`, `PerfBasics` (the test object).

## Model

| member | source | states |
|---|---|---|
| Decimal.NatToString | tests/performance/perf.basics.js:13 | `i.toString()` of a non-negative integer: a non-empty digit string with no leading zero except for 0 itself |
| Decimal.ValueOfNatToString | tests/performance/perf.basics.js:13 | reading the printed digits back as a decimal number gives `i`, so the printed form is faithful |
| Decimal.NatToStringLength | tests/performance/perf.basics.js:14 | the printed form has at most `w` digits exactly when `i < 10^w`, which decides whether the loop pads |
| Decimal.FixedDigitsOrder | tests/performance/perf.basics.js:12-18 | for numbers below `10^w`, their `w`-digit forms compare as strings exactly as the numbers compare |
| DocIds.CreateDocId | tests/performance/perf.basics.js:12-18 | the `while` loop that prepends `'0'` until ten characters, then adds `"doc_"`, returns exactly `DocId(i)` |
| DocIds.DocIdShape | tests/performance/perf.basics.js:17 | every id starts with `"doc_"` and continues with at least ten decimal digits |
| DocIds.DocIdLength | tests/performance/perf.basics.js:13-16 | an id is 14 characters long (prefix plus ten digits) if and only if `i < 10^10` |
| DocIds.NoPaddingFromTenDigits | tests/performance/perf.basics.js:14 | for `i >= 10^9` the loop adds nothing: the id is `"doc_"` plus the plain decimal form of `i` |
| DocIds.PaddingIsLeadingZerosOnly | tests/performance/perf.basics.js:13-16 | stripping leading zeros from the digit part gives the decimal form of `i` (empty for 0): padding adds only zeros, only on the left |
| DocIds.DocIdRoundTrip | tests/performance/perf.basics.js:12-18 | parsing an id (prefix, then digits) gives back `i`, for every natural `i` |
| DocIds.DocIdInjective | tests/performance/perf.basics.js:12-18 | distinct numbers give distinct ids |
| DocIds.DocIdOrder | tests/performance/perf.basics.js:12-18 | for `i, j < 10^10`, `createDocId(i) < createDocId(j)` as strings if and only if `i < j` |
| DocIds.OrderBreaksBeyondTenDigits | tests/performance/perf.basics.js:12-18 | the ten-digit bound is a real limit: the id of `10^10` sorts before the id of the smaller `2 * 10^9` |
| DocIds.KeyRangeIsNumericRange | tests/performance/perf.basics.js:253-256 | within ten digits, the key range from `createDocId(lo)` to `createDocId(hi)` holds `createDocId(k)` exactly when `lo <= k <= hi` |
| RemoteDb.BulkDocs | tests/performance/perf.basics.js:116-117 | a bulk write answers with one entry per document, carrying that document's id, in request order |
| RemoteDb.FirstWriteOfReady | tests/performance/perf.basics.js:116 | the first document of a ready batch is written with the next revision and the rest of the batch stays ready |
| RemoteDb.BulkDocsReady | tests/performance/perf.basics.js:116-117 | a batch of distinct ids that carry their current revisions is written without conflict: each gets the next revision, the response says so, other documents keep theirs |
| RemoteDb.BulkDocsReadyKeys | tests/performance/perf.basics.js:116 | such a write adds exactly the batch's ids to the database |
| Generations.UpdatedDocs | tests/performance/perf.basics.js:122-129 | the next batch has one document per response entry, in order, with `_id` from `id` and `_rev` from `rev`, or no `_rev` for a conflict entry |
| Generations.AddGeneration | tests/performance/perf.basics.js:115-131 | the countdown recursion issues exactly `max(1, count)` bulk writes, the first with the given documents |
| Generations.NextBatchReady | tests/performance/perf.basics.js:122-129 | the batch built from a response keeps the ids and their order, carries each returned revision, and is accepted by the next write |
| Generations.AddGenerationStore | tests/performance/perf.basics.js:115-131 | from a ready batch, `count >= 1` generations leave each of its documents `count` revisions further on, add its ids, and change nothing else |
| Generations.AddGenerationKeepsIds | tests/performance/perf.basics.js:122-130 | every batch written has the same length and the same ids, in the same order, as the first |
| Generations.PrependCarries | tests/performance/perf.basics.js:130 | putting the current batch in front of the recursive call's batches keeps the ids and revision properties one generation back |
| Generations.AddGenerationCarriesRevisions | tests/performance/perf.basics.js:122-130 | batch `k` after the first carries, for each document, the revision written by batch `k - 1` |
| PerfBasics.NewPullRequestTest | tests/performance/perf.basics.js:43-64 | fails with "generations must be > 0" exactly when `generations <= 0`; otherwise returns `assertions = 1`, the configured name and iterations, and a fresh harness holding the configuration |
| PerfBasics.PullRequestTestObject.constructor | tests/performance/perf.basics.js:48-54 | the harness copies the six configuration fields and starts with no local databases |
| PerfBasics.BuildDocs | tests/performance/perf.basics.js:106-113 | the documents loop builds `numberDocs` documents, the k-th with id `createDocId(k)` and no revision |
| PerfBasics.FixtureIdsDistinct | tests/performance/perf.basics.js:106-113 | no two fixture documents share an id |
| PerfBasics.FixtureIdsAscending | tests/performance/perf.basics.js:106-113 | up to `10^10` documents, the fixture ids are created in ascending string order |
| PerfBasics.FixtureReady | tests/performance/perf.basics.js:98-113 | the fresh fixture is accepted by an empty remote database |
| PerfBasics.FixtureStoreAfterGenerations | tests/performance/perf.basics.js:115-134 | starting from an empty database, every fixture document and nothing else ends at revision `generations` |
| PerfBasics.FixtureBatchesAfterGenerations | tests/performance/perf.basics.js:115-134 | starting from an empty database: exactly `generations` writes of the fixture ids in order, the first without revisions and write `k` carrying revision `k` |
| PerfBasics.PullRequestTestObject.Setup | tests/performance/perf.basics.js:98-134 | local database `k` is opened for each iteration `k` and later slots are kept; the remote database ends as exactly the fixture at `generations` revisions, after `generations` writes |

## Left out

- The latency-injecting HTTP proxy (`http.createServer`, `http-proxy`, `setTimeout`, `listen`, perf.basics.js:76-96) is network I/O and timers.
- URL parsing and formatting with Node's `url` module (perf.basics.js:78-80, 92-96) wraps a library that is not part of this model.
- `test` (perf.basics.js:138-157) calls `PouchDB.replicate` and its events, an asynchronous call into the client being benchmarked.
- `tearDown` (perf.basics.js:159-173) is promise plumbing that closes the server and destroys the databases.
- The `foo`/`bar` payload fields (perf.basics.js:110-111, 126-127) come from `Math.random()`. Documents carry only `_id` and `_rev`.
- Database names come from `safeRandomDBName`, which is random. `Setup` takes the name of the k-th local database as the parameter `dbName`. The remote database is modelled as a fresh, empty one.
- `tests/common-utils.js` is not part of this model: host probing, random names and a port constant.
- The commented-out test cases (perf.basics.js:176-267, 289-440) are not live code. Lines 253-256 are cited only as the use that `DocIds.KeyRangeIsNumericRange` justifies.
- `utils.runTests` (perf.basics.js:442) is in a file that is not part of this model.
- Decimal.NatToString: treats `i` as an unbounded natural. A JavaScript number prints in exponent form from `10^21` on and is exact only up to `2^53`. The harness only passes loop indices far below both limits.
- PerfBasics.PullRequestTestObject.Setup: the asynchronous chaining is modelled as one sequential step. The `callback` it finally calls is not modelled. The bulk writes are recorded in a ghost field.
- PerfBasics.PullRequestTestObject.Setup: every bulk write is assumed to get a response. Each write has a 60-second timeout (perf.basics.js:100) and the chain has no rejection handler (perf.basics.js:134). So a write that times out or fails ends `addGeneration` after fewer than `generations` writes, and `callback` is never called. Timeouts and rejected requests are not modelled. "Exactly `generations` writes" holds only when every request succeeds.
- PerfBasics.NewPullRequestTest: the configuration fields are integers. A JavaScript number may also be fractional or NaN, and the model does not capture either case. From reading the source (not executed):
  - a config without `generations`, or with a NaN value, passes the check `generations <= 0` (perf.basics.js:44). `--generationCount` then stays NaN and `generationCount <= 0` is never true (perf.basics.js:118-119), so `addGeneration` writes forever;
  - a fractional value such as 0.5 or 2.5 also passes. It gives ⌈g⌉ writes and leaves the documents at revision ⌈g⌉, so 0.5 gives one write although the configuration must be at least 1;
  - fractional `iterations` and `numberDocs` likewise run their loops (perf.basics.js:102, 106) ⌈x⌉ times.
  `Generations.AddGeneration` terminates only because its counter is an integer.
- Revisions are modelled as counters. PouchDB's `N-hash` revision strings and their hashes are not modelled.
- String order is by character. The database's key collation decides the `startkey`/`endkey` range query, and JavaScript's `<` compares UTF-16 code units. Both agree with character order on ids, which are ASCII digits behind an ASCII prefix. That collation is not part of this model.
