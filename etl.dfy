/**
 * The legacy CSV adapter (adapters/legacy_csv/etl.py).
 *
 * A run reads a CSV frame, takes the column mapping from the mapping file or,
 * when there is none yet, infers one from the column names and saves it,
 * aborts with exit code 2 when a data key is unmapped, builds one graph row
 * per CSV row by looking each field up through the mapping, and hands the rows
 * to the graph writer, which refuses to start without store credentials.
 */
module LegacyCsvEtl {
  import opened Wrappers
  import opened Text
  import opened Neo4jEnv

  /** The keys `propose_mappings` fills, in its iteration order. */
  const MAPPING_KEYS: seq<string> := ["athlete_id", "session_id", "ts", "name", "unit", "value", "coach_id"]

  /** The keys every graph row reads through the mapping. */
  const ROW_KEYS: seq<string> := ["athlete_id", "session_id", "ts", "name", "unit", "value"]

  /** The coach a mapping falls back to. */
  const DEFAULT_COACH: string := "doe"

  /** Semantic key to column name, or `None` for an unresolved key. */
  type Mapping = map<string, Option<string>>

  // ---------------------------------------------------------------------------
  // propose_mappings
  // ---------------------------------------------------------------------------

  /** The value a key gets when no column matches it. */
  function Default(key: string): Option<string> {
    if key == "coach_id" then Some(DEFAULT_COACH) else None
  }

  /** `k[:3]`: at most the first three characters of the key ("ts" stays "ts"). */
  function KeyPrefix(key: string): string {
    if |key| <= 3 then key else key[..3]
  }

  /** `c.lower().startswith(k[:3])` */
  predicate ColumnMatches(column: string, key: string) {
    StartsWith(Lower(column), KeyPrefix(key))
  }

  /** The position of the first column that matches `key`, if any. */
  function FirstMatch(columns: seq<string>, key: string): (r: Option<nat>)
    ensures r.Some? ==> r.value < |columns| && ColumnMatches(columns[r.value], key)
    ensures r.Some? ==> forall j :: 0 <= j < r.value ==> !ColumnMatches(columns[j], key)
    ensures r.None? ==> forall j :: 0 <= j < |columns| ==> !ColumnMatches(columns[j], key)
  {
    if columns == [] then None
    else if ColumnMatches(columns[0], key) then Some(0)
    else match FirstMatch(columns[1..], key)
      case None => None
      case Some(j) => Some(j + 1)
  }

  /** What inference maps `key` to: its first matching column, else its default. */
  function Choice(columns: seq<string>, key: string): Option<string> {
    match FirstMatch(columns, key)
    case Some(i) => Some(columns[i])
    case None => Default(key)
  }

  /** The mapping `propose_mappings` infers from the column names. */
  function Proposed(columns: seq<string>): Mapping {
    map k | k in MAPPING_KEYS :: Choice(columns, k)
  }

  /** No key appears twice in the key list. */
  lemma MappingKeysDistinct()
    ensures forall a, b :: 0 <= a < b < |MAPPING_KEYS| ==> MAPPING_KEYS[a] != MAPPING_KEYS[b]
  {
  }

  /** `propose_mappings(df)`: for each key, scans the columns in order and keeps the first match, else sets the default. */
  method ProposeMappings(columns: seq<string>) returns (mapping: Mapping)
    ensures mapping == Proposed(columns)
  {
    mapping := map[];
    MappingKeysDistinct();
    for i := 0 to |MAPPING_KEYS|
      invariant mapping.Keys == set j | 0 <= j < i :: MAPPING_KEYS[j]
      invariant forall j :: 0 <= j < i ==> mapping[MAPPING_KEYS[j]] == Choice(columns, MAPPING_KEYS[j])
    {
      var k := MAPPING_KEYS[i];
      ghost var before := mapping;
      for c := 0 to |columns|
        invariant mapping == before
        invariant forall j :: 0 <= j < c ==> !ColumnMatches(columns[j], k)
      {
        if StartsWith(Lower(columns[c]), KeyPrefix(k)) {
          mapping := mapping[k := Some(columns[c])];
          break;
        }
      }
      if k !in mapping {
        mapping := mapping[k := Default(k)];
      }
    }
    assert forall k :: k in MAPPING_KEYS <==> exists j :: 0 <= j < |MAPPING_KEYS| && MAPPING_KEYS[j] == k;
  }

  /** Inference fills exactly the seven keys. */
  lemma ProposedKeys(columns: seq<string>)
    ensures Proposed(columns).Keys == {"athlete_id", "session_id", "ts", "name", "unit", "value", "coach_id"}
  {
  }

  /** A key maps to the first column, in column order, whose lower-cased name starts with the key's prefix. */
  lemma ProposedFirstMatch(columns: seq<string>, key: string, i: nat)
    requires key in MAPPING_KEYS
    requires i < |columns| && ColumnMatches(columns[i], key)
    requires forall j :: 0 <= j < i ==> !ColumnMatches(columns[j], key)
    ensures Proposed(columns)[key] == Some(columns[i])
  {
    var r := FirstMatch(columns, key);
    assert r.Some? && r.value == i by {
      assert r.Some? ==> !(r.value < i) && !(r.value > i);
    }
  }

  /** A key no column matches gets its default: `None` for the six data keys, "doe" for `coach_id`. */
  lemma ProposedDefault(columns: seq<string>, key: string)
    requires key in MAPPING_KEYS
    requires forall j :: 0 <= j < |columns| ==> !ColumnMatches(columns[j], key)
    ensures Proposed(columns)[key] == (if key == "coach_id" then Some("doe") else None)
  {
  }

  /** Every column inference picks is one of the input columns; only `coach_id` can hold the non-column "doe". */
  lemma ProposedValuesAreColumns(columns: seq<string>, key: string)
    requires key in MAPPING_KEYS
    ensures var v := Proposed(columns)[key];
      v.Some? ==> v.value in columns || (key == "coach_id" && v.value == DEFAULT_COACH)
  {
  }

  /** Appending columns never changes a key that already had a match: the first match wins. */
  lemma ProposedStableUnderAppend(columns: seq<string>, more: seq<string>, key: string)
    requires key in MAPPING_KEYS && FirstMatch(columns, key).Some?
    ensures Proposed(columns + more)[key] == Proposed(columns)[key]
  {
    var i := FirstMatch(columns, key).value;
    var all := columns + more;
    assert all[i] == columns[i];
    assert forall j :: 0 <= j < i ==> all[j] == columns[j];
    ProposedFirstMatch(all, key, i);
  }

  /** The prefix of `ts` is the two letters "ts": "timestamp" does not match it while "TS_UTC" does; and `coach_id` can be taken from a column such as "Coach". */
  lemma PrefixExamples()
    ensures !ColumnMatches("timestamp", "ts")
    ensures ColumnMatches("TS_UTC", "ts")
    ensures ColumnMatches("Coach", "coach_id")
    ensures !ColumnMatches("reading", "value")
  {
    assert KeyPrefix("ts") == "ts";
    assert Lower("timestamp")[1] == 'i';
    assert Lower("TS_UTC")[..2] == "ts";
    assert KeyPrefix("coach_id") == "coa";
    assert Lower("Coach")[..3] == "coa";
    assert Lower("reading")[0] == 'r';
  }

  // ---------------------------------------------------------------------------
  // The structural check and row construction in main
  // ---------------------------------------------------------------------------

  /** The keys, other than `coach_id`, that the mapping leaves unresolved. */
  function Missing(m: Mapping): set<string> {
    set k | k in m && m[k].None? && k != "coach_id"
  }

  /** One CSV cell; `shown` is what Python's `str()` makes of the parsed value. */
  datatype Cell = Cell(shown: string)

  /** One CSV row: column name to cell. */
  type CsvRow = map<string, Cell>

  /** The frame `pd.read_csv` yields: the column names in order and the rows. */
  datatype Frame = Frame(columns: seq<string>, rows: seq<CsvRow>)

  /** Every row has a cell for every column, as `read_csv` produces. */
  predicate WellFormed(frame: Frame) {
    forall i, c :: 0 <= i < |frame.rows| && c in frame.columns ==> c in frame.rows[i]
  }

  /** A row handed to the graph writer: the six data fields and the coach. */
  datatype GraphRow = GraphRow(
    athlete_id: string,
    session_id: string,
    ts: string,
    name: string,
    unit: string,
    value: Cell,
    coach_id: Option<string>)

  /** `row[mapping[k]]`, or `None` where Python raises KeyError (key not in the mapping, or its column not in the row). */
  function Lookup(mapping: Mapping, row: CsvRow, key: string): Option<Cell> {
    if key in mapping && mapping[key].Some? && mapping[key].value in row then Some(row[mapping[key].value]) else None
  }

  /** `mapping.get("coach_id", "doe")`: a `coach_id` present with a null value gives a null coach. */
  function RowCoach(mapping: Mapping): Option<string> {
    if "coach_id" in mapping then mapping["coach_id"] else Some(DEFAULT_COACH)
  }

  /** The graph row built from one CSV row, or `None` when a lookup raises KeyError. */
  function BuildRow(mapping: Mapping, row: CsvRow): Option<GraphRow> {
    var athlete :- Lookup(mapping, row, "athlete_id");
    var session :- Lookup(mapping, row, "session_id");
    var ts :- Lookup(mapping, row, "ts");
    var name :- Lookup(mapping, row, "name");
    var unit :- Lookup(mapping, row, "unit");
    var value :- Lookup(mapping, row, "value");
    Some(GraphRow(athlete.shown, session.shown, ts.shown, name.shown, unit.shown, value, RowCoach(mapping)))
  }

  /** Every row of the frame builds without a KeyError. */
  predicate AllRowsBuild(mapping: Mapping, rows: seq<CsvRow>) {
    forall i :: 0 <= i < |rows| ==> BuildRow(mapping, rows[i]).Some?
  }

  /** One graph row per CSV row, in order. */
  function BuiltRows(mapping: Mapping, rows: seq<CsvRow>): seq<GraphRow>
    requires AllRowsBuild(mapping, rows)
  {
    seq(|rows|, i requires 0 <= i < |rows| => BuildRow(mapping, rows[i]).value)
  }

  /** The row-building loop of `main`; `None` stands for the KeyError that ends the run. */
  method BuildRows(mapping: Mapping, rows: seq<CsvRow>) returns (built: Option<seq<GraphRow>>)
    ensures built.Some? <==> AllRowsBuild(mapping, rows)
    ensures built.Some? ==> |built.value| == |rows|
    ensures built.Some? ==> forall i :: 0 <= i < |rows| ==> Some(built.value[i]) == BuildRow(mapping, rows[i])
  {
    var out: seq<GraphRow> := [];
    for i := 0 to |rows|
      invariant |out| == i
      invariant forall j :: 0 <= j < i ==> Some(out[j]) == BuildRow(mapping, rows[j])
    {
      var row := rows[i];
      if !(forall k :: k in ROW_KEYS ==> Lookup(mapping, row, k).Some?) {
        return None;
      }
      var fields := GraphRow(
        Lookup(mapping, row, "athlete_id").value.shown,
        Lookup(mapping, row, "session_id").value.shown,
        Lookup(mapping, row, "ts").value.shown,
        Lookup(mapping, row, "name").value.shown,
        Lookup(mapping, row, "unit").value.shown,
        Lookup(mapping, row, "value").value,
        None);
      out := out + [fields];
      out := out[i := out[i].(coach_id := RowCoach(mapping))];
    }
    built := Some(out);
  }

  /** What each graph row holds: every field but `value` is the string form of the mapped cell, `value` is the raw cell, and the coach is the mapping's. */
  lemma BuildRowFields(mapping: Mapping, row: CsvRow)
    requires BuildRow(mapping, row).Some?
    ensures var r := BuildRow(mapping, row).value;
      && (forall k :: k in ROW_KEYS ==> k in mapping && mapping[k].Some? && mapping[k].value in row)
      && r.athlete_id == row[mapping["athlete_id"].value].shown
      && r.session_id == row[mapping["session_id"].value].shown
      && r.ts == row[mapping["ts"].value].shown
      && r.name == row[mapping["name"].value].shown
      && r.unit == row[mapping["unit"].value].shown
      && r.value == row[mapping["value"].value]
      && r.coach_id == RowCoach(mapping)
  {
  }

  // ---------------------------------------------------------------------------
  // The mapping file and the graph writer
  // ---------------------------------------------------------------------------

  /** The mapping file: absent, or holding a mapping. */
  class MappingFile {
    var stored: Option<Mapping>

    constructor (initial: Option<Mapping>)
      ensures stored == initial
    {
      stored := initial;
    }

    /** `save_mappings(path, mapping)` */
    method Save(mapping: Mapping)
      modifies this
      ensures stored == Some(mapping)
    {
      stored := Some(mapping);
    }

    /** `load_mappings(path)` */
    method Load() returns (mapping: Mapping)
      requires stored.Some?
      ensures mapping == stored.value
    {
      mapping := stored.value;
    }
  }

  /** The graph store, seen as the log of rows the merge statement was run with. */
  class GraphSink {
    var written: seq<GraphRow>

    constructor ()
      ensures written == []
    {
      written := [];
    }

    /** `s.run(q, **r)` */
    method Run(r: GraphRow)
      modifies this
      ensures written == old(written) + [r]
    {
      written := written + [r];
    }
  }

  /** `to_graph(rows)`: without credentials it exits with code 1 before writing; otherwise it writes every row in order. */
  method ToGraph(rows: seq<GraphRow>, env: Env, sink: GraphSink) returns (ok: bool)
    modifies sink
    ensures ok == CredentialsPresent(env)
    ensures sink.written == old(sink.written) + (if ok then rows else [])
  {
    if !(Truthy(env.uri) && Truthy(env.user) && Truthy(env.password)) {
      return false;
    }
    for i := 0 to |rows|
      invariant sink.written == old(sink.written) + rows[..i]
    {
      sink.Run(rows[i]);
      assert rows[..i + 1] == rows[..i] + [rows[i]];
    }
    assert rows[..|rows|] == rows;
    ok := true;
  }

  // ---------------------------------------------------------------------------
  // main
  // ---------------------------------------------------------------------------

  /** How a run ends. */
  datatype Outcome =
    | Loaded(count: nat)              // "[ok] loaded N rows into Neo4j."
    | Unmapped(missing: set<string>)  // "[error] unmapped required columns"
    | NoCredentials                   // to_graph's "Set NEO4J_* env or .env"
    | KeyErrorCrash                   // an uncaught KeyError while building rows

  /** The process exit status of each outcome. */
  function ExitCode(outcome: Outcome): int {
    match outcome
    case Loaded(_) => 0
    case Unmapped(_) => 2
    case NoCredentials => 1
    case KeyErrorCrash => 1
  }

  /** The stored mapping when the file exists, the inferred one otherwise. */
  function Resolve(stored: Option<Mapping>, columns: seq<string>): Mapping {
    if stored.Some? then stored.value else Proposed(columns)
  }

  /** The effect of one run: how it ends, the mapping the file holds afterwards, and the rows written. */
  datatype RunEffect = RunEffect(outcome: Outcome, mapping: Mapping, written: seq<GraphRow>)

  function RunSpec(stored: Option<Mapping>, frame: Frame, env: Env): RunEffect {
    var m := Resolve(stored, frame.columns);
    if Missing(m) != {} then RunEffect(Unmapped(Missing(m)), m, [])
    else if !AllRowsBuild(m, frame.rows) then RunEffect(KeyErrorCrash, m, [])
    else if !CredentialsPresent(env) then RunEffect(NoCredentials, m, [])
    else RunEffect(Loaded(|frame.rows|), m, BuiltRows(m, frame.rows))
  }

  /** `main()`: get-or-create the mapping, fail fast on unmapped keys, build the rows, write them. */
  method RunEtl(frame: Frame, env: Env, file: MappingFile, sink: GraphSink) returns (outcome: Outcome)
    modifies file, sink
    ensures var effect := RunSpec(old(file.stored), frame, env);
      && outcome == effect.outcome
      && file.stored == Some(effect.mapping)
      && sink.written == old(sink.written) + effect.written
  {
    var mapping: Mapping;
    if file.stored.None? {
      mapping := ProposeMappings(frame.columns);
      file.Save(mapping);
    } else {
      mapping := file.Load();
    }
    var missing := set k | k in mapping && mapping[k].None? && k != "coach_id";
    if missing != {} {
      return Unmapped(missing);
    }
    var rows := BuildRows(mapping, frame.rows);
    if rows.None? {
      return KeyErrorCrash;
    }
    assert rows.value == BuiltRows(mapping, frame.rows);
    var ok := ToGraph(rows.value, env, sink);
    if !ok {
      return NoCredentials;
    }
    outcome := Loaded(|rows.value|);
  }

  // ---------------------------------------------------------------------------
  // Properties of a run
  // ---------------------------------------------------------------------------

  /** Get-or-create: an existing mapping is used and kept as it is, whatever the columns; otherwise the inferred one is saved and used. */
  lemma GetOrCreate(stored: Option<Mapping>, frame: Frame, env: Env)
    ensures stored.Some? ==> RunSpec(stored, frame, env).mapping == stored.value
    ensures stored.None? ==> RunSpec(stored, frame, env).mapping == Proposed(frame.columns)
  {
  }

  /** A second run, with the file left in place, uses the mapping the first run left behind, whatever its frame. */
  lemma SecondRunReusesMapping(stored: Option<Mapping>, frame1: Frame, frame2: Frame, env1: Env, env2: Env)
    ensures var first := RunSpec(stored, frame1, env1);
      RunSpec(Some(first.mapping), frame2, env2).mapping == first.mapping
  {
  }

  /** Fail fast: an unmapped data key ends the run with exit code 2 and nothing written, however many rows there are. */
  lemma UnmappedAborts(stored: Option<Mapping>, frame: Frame, env: Env, key: string)
    requires var m := Resolve(stored, frame.columns); key in m && m[key].None? && key != "coach_id"
    ensures ExitCode(RunSpec(stored, frame, env).outcome) == 2
    ensures RunSpec(stored, frame, env).written == []
  {
    assert key in Missing(Resolve(stored, frame.columns));
  }

  /** A successful run writes one row per CSV row, in order, each built through the mapping, and reports that count. */
  lemma LoadedWritesEveryRow(stored: Option<Mapping>, frame: Frame, env: Env)
    requires RunSpec(stored, frame, env).outcome.Loaded?
    ensures var effect := RunSpec(stored, frame, env);
      && effect.outcome.count == |frame.rows| == |effect.written|
      && ExitCode(effect.outcome) == 0
      && CredentialsPresent(env)
      && forall i :: 0 <= i < |frame.rows| ==> Some(effect.written[i]) == BuildRow(effect.mapping, frame.rows[i])
  {
  }

  /** Only a clean run writes anything. */
  lemma FailedRunWritesNothing(stored: Option<Mapping>, frame: Frame, env: Env)
    requires ExitCode(RunSpec(stored, frame, env).outcome) != 0
    ensures RunSpec(stored, frame, env).written == []
  {
  }

  /**
   * On a first run whose coach column was inferred, every written row's coach
   * is that column's NAME, the same for all rows, never the row's cell.
   */
  lemma InferredCoachIsColumnName(frame: Frame, env: Env, i: nat)
    requires FirstMatch(frame.columns, "coach_id") == Some(i)
    requires RunSpec(None, frame, env).outcome.Loaded?
    ensures var written := RunSpec(None, frame, env).written;
      forall r :: 0 <= r < |written| ==> written[r].coach_id == Some(frame.columns[i])
  {
    var m := Proposed(frame.columns);
    assert m["coach_id"] == Some(frame.columns[i]);
    forall r | 0 <= r < |frame.rows|
      ensures BuiltRows(m, frame.rows)[r].coach_id == Some(frame.columns[i])
    {
      BuildRowFields(m, frame.rows[r]);
    }
  }

  /** A first run on a well-formed CSV whose inferred mapping resolves every data key never crashes on a lookup. */
  lemma {:induction false} InferredMappingBuildsEveryRow(frame: Frame, env: Env)
    requires WellFormed(frame)
    requires Missing(Proposed(frame.columns)) == {}
    ensures RunSpec(None, frame, env).outcome != KeyErrorCrash
  {
    var m := Proposed(frame.columns);
    forall i | 0 <= i < |frame.rows| ensures BuildRow(m, frame.rows[i]).Some? {
      forall k | k in ROW_KEYS ensures Lookup(m, frame.rows[i], k).Some? {
        InferredColumnPresent(frame, i, k);
      }
      BuildRowDefined(m, frame.rows[i]);
    }
    assert AllRowsBuild(m, frame.rows);
  }

  /** A row builds when every data key's lookup succeeds. */
  lemma BuildRowDefined(mapping: Mapping, row: CsvRow)
    requires forall k :: k in ROW_KEYS ==> Lookup(mapping, row, k).Some?
    ensures BuildRow(mapping, row).Some?
  {
    assert Lookup(mapping, row, "athlete_id").Some? && Lookup(mapping, row, "session_id").Some?;
    assert Lookup(mapping, row, "ts").Some? && Lookup(mapping, row, "name").Some?;
    assert Lookup(mapping, row, "unit").Some? && Lookup(mapping, row, "value").Some?;
  }

  /** Under an inferred mapping with no unresolved key, each data key names a column every row of a well-formed frame has. */
  lemma InferredColumnPresent(frame: Frame, i: nat, key: string)
    requires WellFormed(frame) && i < |frame.rows|
    requires Missing(Proposed(frame.columns)) == {}
    requires key in ROW_KEYS
    ensures Lookup(Proposed(frame.columns), frame.rows[i], key).Some?
  {
    var m := Proposed(frame.columns);
    assert key in m && key != "coach_id";
    assert key !in Missing(m);
    ProposedValuesAreColumns(frame.columns, key);
  }
}
