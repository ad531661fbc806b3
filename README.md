# Open Performance Ontology: ingestion core in Dafny

This project models the ingestion core of the Open Performance Ontology and
proves properties of that model. The core takes coaches' performance data
into a Neo4j graph. It has four parts:

- **Legacy CSV adapter** (`etl.dfy`, module `LegacyCsvEtl`).
  - It infers a column mapping from the CSV header: the first column whose
    lower-cased name starts with the key's first three characters, or the
    key's default.
  - It saves the mapping once and reuses it on every later run (get-or-create).
  - It aborts with exit status 2 when any key other than `coach_id` maps to
    null, including extra keys in a hand-edited mapping file.
  - It builds one graph row per CSV row through the mapping, and hands the
    rows to a writer that exits with status 1 when the store credentials are
    missing.
- **Unit ontology and metric validation** (`ontology.dfy`, module `Ontology`).
  - The allowed units come from the ontology's Turtle text. Every line holding
    `rdf:type :AllowedUnit` contributes its first token, with colons stripped.
    The result is sorted and has no repeats.
  - A metric record is valid when its athlete and session ids are non-empty
    and its unit is allowed.
- **Ingestion API gatekeeping** (`api.dfy`, module `IngestApi`).
  - Body validation and the `X-API-Key` header are checked first (422).
  - The key is then resolved to a coach (401 when unknown).
  - Finally the coach overrides the payload's `coach_id` on every record
    written by `/ingest` and `/ingest/batch`.
  - `/cypher` has an allow-list: a query runs only when, stripped and
    upper-cased, it starts with a read clause (400 otherwise).
- **Cypher loader script** (`load_script.dfy`, module `LoadToNeo4j`).
  - Without credentials it exits with status 1 before running anything.
  - Otherwise it splits the script text on `;`, strips each fragment and runs
    the non-blank ones in order.

Supporting modules:

- `text.dfy` (module `Text`) holds Python's string operations used by the core:
  - `str.isspace`, `strip`, ASCII `upper`/`lower` and `startswith`;
  - `split`/`join` on one character;
  - code-point string order.
- `neo4j_env.dfy` holds the `NEO4J_URI`/`NEO4J_USER`/`NEO4J_PASSWORD`
  presence test that both the adapter and the loader script use.
- `wrappers.dfy` holds `Option` and `Result`.

Everything that changes state in place is a class, with methods proved
against specification functions:

- the mapping file;
- the graph sink of the adapter;
- the API's graph store;
- the loader's session.

The process environment, the mapping file's contents and the script text are
parameters.

Behaviours of the code worth knowing, which the model keeps:

- The inference prefix is `k[:3]`, so the key `ts` has the two-letter prefix
  `ts`. A column named `timestamp` therefore does not match it, and `reading`
  does not match `value`. `LegacyCsvEtl.PrefixExamples` records this.
- When inference takes `coach_id` from a column (a column named `Coach`
  matches), `adapters/legacy_csv/etl.py:96` writes that column's name, not the
  row's cell, as every row's coach. `LegacyCsvEtl.InferredCoachIsColumnName`
  records this.
- The coach default is the literal `"doe"` (`adapters/legacy_csv/etl.py:26`).
  The required `--coach` argument is parsed but never used, and the mapping
  file path does not depend on it.
- A mapping file that sets `coach_id` to null passes the missing-key check and
  yields rows whose coach is null (`mapping.get` returns the stored null).
- There is no per-row continue-on-error behaviour:
  - in the adapter, a lookup that raises `KeyError` ends the whole run;
  - in the API, one invalid item rejects the whole batch with 422 before
    anything is written.

## Model

| member | source | states |
|---|---|---|
| `LegacyCsvEtl.FirstMatch` | adapters/legacy_csv/etl.py:30-33 | the index found names a matching column and no earlier column matches; `None` exactly when no column matches |
| `LegacyCsvEtl.ProposeMappings` | adapters/legacy_csv/etl.py:18-35 | the nested scan with `break` and `setdefault` returns exactly `Proposed(columns)`: each key maps to its first matching column, else to its default |
| `LegacyCsvEtl.ProposedKeys` | adapters/legacy_csv/etl.py:19-29 | inference fills exactly the seven keys, whatever the columns |
| `LegacyCsvEtl.ProposedFirstMatch` | adapters/legacy_csv/etl.py:30-33 | first match wins: the earliest column whose lower-cased name starts with the key prefix is chosen |
| `LegacyCsvEtl.ProposedDefault` | adapters/legacy_csv/etl.py:19-34 | a key with no matching column gets null, except `coach_id`, which gets "doe" |
| `LegacyCsvEtl.ProposedValuesAreColumns` | adapters/legacy_csv/etl.py:26-34 | every inferred value is one of the input columns, or the default "doe" for `coach_id` |
| `LegacyCsvEtl.ProposedStableUnderAppend` | adapters/legacy_csv/etl.py:30-33 | appending columns never changes a key that already had a match |
| `LegacyCsvEtl.PrefixExamples` | adapters/legacy_csv/etl.py:31 | `timestamp` does not match `ts`, `TS_UTC` does, `Coach` matches `coach_id`, `reading` does not match `value` |
| `LegacyCsvEtl.MappingFile.Save` | adapters/legacy_csv/etl.py:38-40 | the file holds exactly the saved mapping afterwards |
| `LegacyCsvEtl.MappingFile.Load` | adapters/legacy_csv/etl.py:43-45 | loading returns the stored mapping unchanged |
| `LegacyCsvEtl.BuildRows` | adapters/legacy_csv/etl.py:88-96 | one graph row per CSV row in order, each equal to `BuildRow`; `None` (the KeyError) exactly when some row cannot be built |
| `LegacyCsvEtl.BuildRowFields` | adapters/legacy_csv/etl.py:90-96 | a built row has every data key mapped to a column present in the row; five fields are the string form of their cells, `value` is the raw cell, the coach is `mapping.get("coach_id", "doe")` |
| `LegacyCsvEtl.GraphSink.Run` | adapters/legacy_csv/etl.py:66-67 | running the statement for a row appends exactly that row to the store's log |
| `LegacyCsvEtl.ToGraph` | adapters/legacy_csv/etl.py:48-68 | succeeds exactly when all three credentials are non-empty; then every row is written in order, otherwise nothing is |
| `LegacyCsvEtl.RunEtl` | adapters/legacy_csv/etl.py:71-98 | outcome, mapping file and written rows are those of `RunSpec`: get-or-create, then exit 2 on unmapped keys, crash on a failed lookup, exit 1 without credentials, else load every row |
| `LegacyCsvEtl.GetOrCreate` | adapters/legacy_csv/etl.py:77-83 | an existing mapping is used as stored whatever the columns; otherwise the inferred mapping is saved and used |
| `LegacyCsvEtl.SecondRunReusesMapping` | adapters/legacy_csv/etl.py:77-83 | a second run, with any frame, uses the mapping the first run left behind |
| `LegacyCsvEtl.UnmappedAborts` | adapters/legacy_csv/etl.py:84-87 | any null key other than `coach_id` gives exit status 2 and writes nothing |
| `LegacyCsvEtl.LoadedWritesEveryRow` | adapters/legacy_csv/etl.py:88-98 | a successful run has credentials, exits 0, writes one row per CSV row in order, and reports that count |
| `LegacyCsvEtl.FailedRunWritesNothing` | adapters/legacy_csv/etl.py:54-98 | a run with a non-zero exit status writes no row |
| `LegacyCsvEtl.InferredCoachIsColumnName` | adapters/legacy_csv/etl.py:79-96 | on a first run whose coach column was inferred, every written row's coach is that column's name, not the row's cell |
| `LegacyCsvEtl.InferredMappingBuildsEveryRow` | adapters/legacy_csv/etl.py:79-96 | on a first run over a well-formed CSV, an inferred mapping with no null data key never makes a lookup fail |
| `Ontology.SplitLines` | api/pydantic_ontology.py:11 | no line contains a line boundary |
| `Ontology.SplitLinesOfJoin` | api/pydantic_ontology.py:11 | `splitlines` gives back the lines a text was written from |
| `Ontology.FirstToken` | api/pydantic_ontology.py:13 | the token holds no whitespace and is non-empty exactly for a non-blank line |
| `Ontology.FirstTokenAt` | api/pydantic_ontology.py:13 | the token sits right after the line's leading whitespace and runs to the next whitespace or the line's end, which with `FirstToken` pins down `split()[0]` |
| `Ontology.DropLeading` | api/pydantic_ontology.py:13 | `lstrip(c)` returns a suffix that does not start with `c`, and every character it drops is `c` |
| `Ontology.DropTrailing` | api/pydantic_ontology.py:13 | `rstrip(c)` returns a prefix that does not end with `c`, and every character it drops is `c` |
| `Ontology.StripChar` | api/pydantic_ontology.py:13 | neither end of `strip(":")` is a colon |
| `Ontology.StripCharPadded` | api/pydantic_ontology.py:13 | `strip(":")` returns a slice of its input with only colons around it, which with `StripChar` pins the result down |
| `Ontology.UnitLineHasToken` | api/pydantic_ontology.py:12-13 | a marker line always has a first token, so `split()[0]` never fails |
| `Ontology.UnitTokens` | api/pydantic_ontology.py:10-13 | at most one unit per line |
| `Ontology.UnitTokensExact` | api/pydantic_ontology.py:10-13 | a unit is collected exactly when some marker line declares it |
| `Ontology.Insert` | api/pydantic_ontology.py:14 | inserting into a sorted repeat-free list keeps it sorted and repeat-free and adds exactly the new element |
| `Ontology.SortUnique` | api/pydantic_ontology.py:14 | `sorted(set(xs))` is strictly ascending and has exactly the elements of `xs` |
| `Ontology.SortedListsWithSameElementsAgree` | api/pydantic_ontology.py:14 | two strictly sorted lists with the same elements are equal |
| `Ontology.ExtractUnits` | api/pydantic_ontology.py:9-14 | the line loop returns exactly `AllowedUnits(ttl)` |
| `Ontology.AllowedUnitsSorted` | api/pydantic_ontology.py:14 | the unit list is strictly ascending, with no repeats |
| `Ontology.AllowedUnitsExact` | api/pydantic_ontology.py:9-14 | a unit is allowed exactly when some marker line declares it |
| `Ontology.NoMarkerNoUnits` | api/pydantic_ontology.py:9-14 | a text without marker lines allows no unit |
| `Ontology.AllowedUnitsCanonical` | api/pydantic_ontology.py:14 | texts declaring the same units, in any order and with any repeats, give the same list |
| `Ontology.UnitAllowed` | api/pydantic_ontology.py:29-34 | the validator passes a unit through exactly when it is allowed, and otherwise raises an error naming it and the allowed list |
| `Ontology.ValidationErrors` | api/pydantic_ontology.py:20-34 | no errors exactly when the record is valid; each constraint's error (empty athlete id, empty session id, unit not allowed) is present exactly when it is violated, and the list holds one entry per violated constraint and nothing else |
| `Ontology.ValidationIgnoresCoach` | api/pydantic_ontology.py:20-34 | validation does not depend on `coach_id` |
| `IngestApi.CoachFromKey` | api/main.py:71-75 | a coach is returned exactly for a key in the table with a non-empty coach; otherwise the status is 401 |
| `IngestApi.OnlyDemoKeyAuthenticates` | api/main.py:69-75 | with the built-in table only `demo-doe-key` authenticates, as coach "doe" |
| `IngestApi.GraphStore.Write` | api/main.py:123-124 | a write appends exactly that record and leaves the query log alone |
| `IngestApi.GraphStore.RunQuery` | api/main.py:176-177 | a query run appends exactly that query and leaves the writes alone |
| `IngestApi.BatchErrors` | api/main.py:55-56 | a batch has no validation errors exactly when every item is valid |
| `IngestApi.Ingest` | api/main.py:118-125 | response and writes are those of `IngestSpec`: 422 on invalid body or missing header, 401 on unknown key, else one write with the caller's coach; no query is run |
| `IngestApi.IngestBatch` | api/main.py:148-156 | response and writes are those of `IngestBatchSpec`: the loop writes every item in order with the caller's coach and answers the item count |
| `IngestApi.IngestIgnoresPayloadCoach` | api/main.py:120-122 | a payload's string `coach_id` never changes the response or what is written |
| `IngestApi.IngestWritesCallerCoach` | api/main.py:118-125 | an accepted request had the demo key and a valid record, and writes that record once with coach "doe" and nothing else changed |
| `IngestApi.RejectedIngestWritesNothing` | api/main.py:118-124 | a rejected request writes nothing |
| `IngestApi.RejectedBatchWritesNothing` | api/main.py:148-155 | a missing or unknown key, or any invalid item, rejects the batch with zero writes |
| `IngestApi.BatchWritesEveryItem` | api/main.py:150-156 | an accepted batch writes every item in order with coach "doe" and reports the item count |
| `IngestApi.AcceptedBatchSplits` | api/main.py:148-156 | an accepted batch writes its first item as `/ingest` would, then what the accepted batch of the remaining items writes |
| `IngestApi.BatchAgreesWithSingles` | api/main.py:148-156 | an accepted batch writes exactly what posting its items one by one to `/ingest` would |
| `IngestApi.CypherRead` | api/main.py:171-179 | 422 without a query, 400 outside the allow-list, else the stripped query runs once with `params or {}`; nothing is written |
| `IngestApi.ReadQueryIgnoresCase` | api/main.py:173-174 | queries equal up to ASCII case are allowed alike |
| `IngestApi.ReadQueryLowercase` | api/main.py:173-174 | lower-casing a query never changes the verdict |
| `IngestApi.ReadQueryIgnoresPadding` | api/main.py:173-174 | surrounding whitespace never changes the verdict |
| `IngestApi.BlankQueryRejected` | api/main.py:173-175 | an empty or blank query is rejected with 400 |
| `IngestApi.WriteClauseRejected` | api/main.py:169-175 | a query starting with CREATE, MERGE, DELETE, DETACH, SET, REMOVE, DROP or LOAD is rejected |
| `IngestApi.ReadClauseThenAnythingPasses` | api/main.py:169-174 | the test looks at the first clause only: an allowed clause followed by anything, writes included, passes |
| `LoadToNeo4j.NonEmpty` | scripts/load_to_neo4j.py:26 | never more statements than fragments |
| `LoadToNeo4j.Statements` | scripts/load_to_neo4j.py:24-27 | at most one statement more than there are `;` in the text |
| `LoadToNeo4j.ScriptSession.Run` | scripts/load_to_neo4j.py:27 | running a statement appends exactly that statement to the session's log |
| `LoadToNeo4j.RunScript` | scripts/load_to_neo4j.py:10-27 | exit status 1 and nothing run without credentials; otherwise status 0 after running exactly `Statements(text)` in order |
| `LoadToNeo4j.NonEmptyKeeps` | scripts/load_to_neo4j.py:26-27 | every statement kept is non-empty and comes from the input |
| `LoadToNeo4j.NonEmptyCount` | scripts/load_to_neo4j.py:26-27 | as many statements are kept as there are non-empty fragments, so none is kept twice |
| `LoadToNeo4j.NonEmptyComplete` | scripts/load_to_neo4j.py:26-27 | no non-empty fragment is skipped: each is kept, right after the ones kept before it |
| `LoadToNeo4j.NonEmptyOfNonEmpty` | scripts/load_to_neo4j.py:26-27 | a list with no empty fragment is run exactly as it is |
| `LoadToNeo4j.NonBlankFragmentRuns` | scripts/load_to_neo4j.py:24-27 | every non-blank fragment between `;` is run, stripped |
| `LoadToNeo4j.StripEachOfStripped` | scripts/load_to_neo4j.py:25 | stripping already stripped statements changes nothing |
| `LoadToNeo4j.StatementsWellFormed` | scripts/load_to_neo4j.py:24-27 | every statement run is non-empty, has no surrounding whitespace and contains no `;` |
| `LoadToNeo4j.StatementsOfJoin` | scripts/load_to_neo4j.py:24-27 | statements that are already stripped, non-empty and free of `;`, once joined with `;`, are run exactly as given |
| `LoadToNeo4j.SingleStatement` | scripts/load_to_neo4j.py:24-27 | a text without `;` runs its stripped self, or nothing when blank |
| `Text.Strip` | api/main.py:173 | `strip()` is empty exactly for blank text; otherwise neither end is whitespace |
| `Text.StripIsInfix` | api/main.py:173 | `strip()` returns a slice of its input, with only whitespace around it |
| `Text.StripKeeps` | scripts/load_to_neo4j.py:25 | text whose ends are not whitespace is left alone |
| `Text.StripKeepsOut` | scripts/load_to_neo4j.py:24-25 | `strip()` never introduces a character |
| `Text.StripPadded` | api/main.py:173 | whitespace added around a string does not change `strip()` |
| `Text.UpperOfLower` | api/main.py:174 | upper-casing a lower-cased string equals upper-casing the original |
| `Text.UpperStripCommute` | api/main.py:173-174 | upper-casing and stripping commute |
| `Text.Split` | scripts/load_to_neo4j.py:24 | `split(";")` gives one part more than there are separators, none containing one |
| `Text.SplitWithoutSep` | scripts/load_to_neo4j.py:24 | text without the separator splits into itself alone |
| `Text.JoinSplit` | scripts/load_to_neo4j.py:24 | joining the parts with the separator restores the text |
| `Text.SplitJoin` | scripts/load_to_neo4j.py:24 | splitting a join of separator-free parts gives back the parts |
| `Text.LessIrreflexive` | api/pydantic_ontology.py:14 | string order is irreflexive |
| `Text.LessTransitive` | api/pydantic_ontology.py:14 | string order is transitive |
| `Text.LessTotal` | api/pydantic_ontology.py:14 | any two distinct strings are ordered one way |
| `Text.LessAsymmetric` | api/pydantic_ontology.py:14 | string order is asymmetric |

## Left out

- Reading the CSV (`pd.read_csv`) and the types pandas gives its cells. A cell
  is modelled by the string `str()` makes of it. The `value` field is passed on
  as the raw cell, and `toFloat` in the Cypher statement is not modelled.
- YAML serialisation of the mapping file. A file that exists but does not hold
  a mapping (empty, or not a dictionary) is not modelled, and neither is the
  mapping directory's creation at import time.
- The order of the printed list of unmapped keys. `Missing` is a set; the
  source prints a list in mapping order.
- `argparse` handling: the required `--coach` and `--csv` arguments, and their
  usage error.
- Console messages, and the file read of the Cypher script. The script text is
  a parameter, and so is its path choice (`sys.argv[1]` or the default demo
  file).
- `load_dotenv` and the process environment, which are a parameter (`Env`).
  The API's `_driver` defaults (`bolt://localhost:7687`, `neo4j`,
  `NEO4J_PASS`, `testpassword`) are not modelled: the API always reaches a
  store.
- What Neo4j does with a statement: MERGE/CREATE semantics, node uniqueness,
  `datetime($ts)` parsing, store errors and connection failures. A store is the
  log of statements issued to it.
- Unicode case mapping. `Upper` and `Lower` change ASCII letters only, while
  Python's `str.upper` and `str.lower` also map other letters (for example
  `'ß'.upper() == 'SS'`).
- IngestIgnoresPayloadCoach: covers only payloads whose `coach_id` is a
  string. `MetricIn` declares `coach_id: str` with no default, so a payload
  without it, or with a non-string one, gets 422 from `/ingest` and
  `/ingest/batch`. That case is not modelled: a record always carries a string
  coach.
- Pydantic's type coercion: strings and floats arriving as other JSON types,
  `float` parsing, and the error locations and messages of a 422 body. A
  record reaches the model already typed, with `value` a real number.
- The API routes outside the core: `/`, `/_debug`, `/health`, `/athletes`
  (both), `/measurements`, and `/ontology/units`. The last one only returns
  `ALLOWED_UNITS`.
- The types of `/cypher` parameter values. `params` is a dictionary of any
  JSON values; the model types every value as a string.
- The rows and count that `/cypher` returns. The model returns the query that
  ran.
- CORS middleware and application start-up.
