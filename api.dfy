/**
 * Request gatekeeping of the ingestion API (api/main.py).
 *
 * A request body is validated before the handler runs (422 on any error or a
 * missing `X-API-Key` header); the handler then resolves the key to a coach
 * (401 when it is unknown) and writes each record with its `coach_id`
 * replaced by that coach. The demo Cypher endpoint runs a query only when,
 * trimmed and upper-cased, it starts with a read clause (400 otherwise). The
 * graph store is the log of the writes and queries issued to it.
 */
module IngestApi {
  import opened Wrappers
  import opened Text
  import opened Ontology

  /** API key to coach. */
  const API_KEYS: map<string, string> := map["demo-doe-key" := "doe"]

  /** The clauses a query may start with at the Cypher endpoint. */
  const ALLOWED_PREFIXES: seq<string> := ["MATCH", "RETURN", "WITH", "UNWIND", "CALL", "PROFILE", "EXPLAIN"]

  /** The errors the endpoints answer with. */
  datatype ApiError =
    | Unprocessable(errors: seq<FieldError>, headerMissing: bool)  // request validation
    | Unauthorized                                                 // "Invalid API key"
    | BadRequest                                                   // "Only read-style queries are allowed here for the demo."

  function Status(e: ApiError): int {
    match e
    case Unprocessable(_, _) => 422
    case Unauthorized => 401
    case BadRequest => 400
  }

  /** The graph store, as the log of the write and read calls issued to it. */
  class GraphStore {
    var writes: seq<MetricIn>
    var queries: seq<(string, map<string, string>)>

    constructor ()
      ensures writes == [] && queries == []
    {
      writes, queries := [], [];
    }

    /** `s.run(_WRITE_Q, **data)` */
    method Write(record: MetricIn)
      modifies this
      ensures writes == old(writes) + [record] && queries == old(queries)
    {
      writes := writes + [record];
    }

    /** `s.run(q, params)` at the Cypher endpoint */
    method RunQuery(query: string, params: map<string, string>)
      modifies this
      ensures queries == old(queries) + [(query, params)] && writes == old(writes)
    {
      queries := queries + [(query, params)];
    }
  }

  // ---------------------------------------------------------------------------
  // _coach_from_key
  // ---------------------------------------------------------------------------

  /** `_coach_from_key`: the coach a key maps to, or 401 when the key is unknown or maps to an empty coach. */
  function CoachFromKey(keys: map<string, string>, key: string): (r: Result<string, ApiError>)
    ensures r.Ok? <==> key in keys && keys[key] != ""
    ensures r.Ok? ==> r.value == keys[key]
    ensures r.Err? ==> Status(r.error) == 401
  {
    var cid := if key in keys then keys[key] else "";
    if cid == "" then Err(Unauthorized) else Ok(cid)
  }

  /** With the built-in table exactly one key authenticates, as coach "doe". */
  lemma OnlyDemoKeyAuthenticates(key: string)
    ensures CoachFromKey(API_KEYS, key) == if key == "demo-doe-key" then Ok("doe") else Err(Unauthorized)
  {
  }

  // ---------------------------------------------------------------------------
  // /ingest and /ingest/batch
  // ---------------------------------------------------------------------------

  /** What a handler call does: its response and the records it writes, in order. */
  datatype Handled<T> = Handled(response: Result<T, ApiError>, writes: seq<MetricIn>)

  /** `data = m.model_dump(); data["coach_id"] = coach_id` */
  function WithCoach(m: MetricIn, coach: string): MetricIn {
    m.(coach_id := coach)
  }

  /** Every item with its coach replaced, in item order. */
  function Coached(items: seq<MetricIn>, coach: string): seq<MetricIn> {
    seq(|items|, i requires 0 <= i < |items| => WithCoach(items[i], coach))
  }

  /** POST /ingest */
  function IngestSpec(m: MetricIn, header: Option<string>, allowed: seq<string>): Handled<bool> {
    var errors := ValidationErrors(m, allowed);
    if errors != [] || header.None? then Handled(Err(Unprocessable(errors, header.None?)), [])
    else match CoachFromKey(API_KEYS, header.value)
      case Err(e) => Handled(Err(e), [])
      case Ok(coach) => Handled(Ok(true), [WithCoach(m, coach)])
  }

  /** The validation errors of all items of a batch, item by item. */
  function BatchErrors(items: seq<MetricIn>, allowed: seq<string>): (errors: seq<FieldError>)
    ensures errors == [] <==> forall i :: 0 <= i < |items| ==> IsValid(items[i], allowed)
  {
    if items == [] then []
    else
      var errors := ValidationErrors(items[0], allowed) + BatchErrors(items[1..], allowed);
      assert forall i :: 1 <= i < |items| ==> items[i] == items[1..][i - 1];
      errors
  }

  /** POST /ingest/batch */
  function IngestBatchSpec(items: seq<MetricIn>, header: Option<string>, allowed: seq<string>): Handled<nat> {
    var errors := BatchErrors(items, allowed);
    if errors != [] || header.None? then Handled(Err(Unprocessable(errors, header.None?)), [])
    else match CoachFromKey(API_KEYS, header.value)
      case Err(e) => Handled(Err(e), [])
      case Ok(coach) => Handled(Ok(|items|), Coached(items, coach))
  }

  /** `ingest(m, x_api_key)` */
  method Ingest(store: GraphStore, m: MetricIn, header: Option<string>, allowed: seq<string>) returns (r: Result<bool, ApiError>)
    modifies store
    ensures r == IngestSpec(m, header, allowed).response
    ensures store.writes == old(store.writes) + IngestSpec(m, header, allowed).writes
    ensures store.queries == old(store.queries)
  {
    var errors := ValidationErrors(m, allowed);
    if errors != [] || header.None? {
      return Err(Unprocessable(errors, header.None?));
    }
    var coach := CoachFromKey(API_KEYS, header.value);
    if coach.Err? {
      return Err(coach.error);
    }
    var data := m;
    data := data.(coach_id := coach.value);
    store.Write(data);
    r := Ok(true);
  }

  /** `ingest_batch(batch, x_api_key)`: authenticates once, then writes the items one by one. */
  method IngestBatch(store: GraphStore, items: seq<MetricIn>, header: Option<string>, allowed: seq<string>) returns (r: Result<nat, ApiError>)
    modifies store
    ensures r == IngestBatchSpec(items, header, allowed).response
    ensures store.writes == old(store.writes) + IngestBatchSpec(items, header, allowed).writes
    ensures store.queries == old(store.queries)
  {
    var errors := BatchErrors(items, allowed);
    if errors != [] || header.None? {
      return Err(Unprocessable(errors, header.None?));
    }
    var coach := CoachFromKey(API_KEYS, header.value);
    if coach.Err? {
      return Err(coach.error);
    }
    ghost var expected := Coached(items, coach.value);
    for i := 0 to |items|
      invariant store.writes == old(store.writes) + expected[..i]
      invariant store.queries == old(store.queries)
    {
      var data := items[i];
      data := data.(coach_id := coach.value);
      store.Write(data);
      assert expected[..i + 1] == expected[..i] + [data];
    }
    assert expected[..|items|] == expected;
    r := Ok(|items|);
  }

  /** The payload's own `coach_id` never matters: two payloads that differ only there are handled identically. */
  lemma IngestIgnoresPayloadCoach(m: MetricIn, other: string, header: Option<string>, allowed: seq<string>)
    ensures IngestSpec(m.(coach_id := other), header, allowed) == IngestSpec(m, header, allowed)
  {
    ValidationIgnoresCoach(m, other, allowed);
  }

  /** An accepted record is written once, unchanged except that its coach is the caller's. */
  lemma IngestWritesCallerCoach(m: MetricIn, header: Option<string>, allowed: seq<string>)
    requires IngestSpec(m, header, allowed).response.Ok?
    ensures header == Some("demo-doe-key") && IsValid(m, allowed)
    ensures var w := IngestSpec(m, header, allowed).writes;
      && |w| == 1 && w[0].coach_id == "doe"
      && w[0].(coach_id := m.coach_id) == m
  {
    OnlyDemoKeyAuthenticates(header.value);
  }

  /** A rejected request writes nothing; in particular an unknown key means zero writes. */
  lemma RejectedIngestWritesNothing(m: MetricIn, header: Option<string>, allowed: seq<string>)
    requires IngestSpec(m, header, allowed).response.Err?
    ensures IngestSpec(m, header, allowed).writes == []
  {
  }

  /** A batch with an unknown key, or with any invalid item, writes nothing at all. */
  lemma RejectedBatchWritesNothing(items: seq<MetricIn>, header: Option<string>, allowed: seq<string>)
    requires header.None? || header.value != "demo-doe-key" || exists i :: 0 <= i < |items| && !IsValid(items[i], allowed)
    ensures IngestBatchSpec(items, header, allowed).response.Err?
    ensures IngestBatchSpec(items, header, allowed).writes == []
  {
    if header.Some? { OnlyDemoKeyAuthenticates(header.value); }
  }

  /** An accepted batch writes every item in order, all with the caller's coach, and reports the item count. */
  lemma BatchWritesEveryItem(items: seq<MetricIn>, header: Option<string>, allowed: seq<string>)
    requires IngestBatchSpec(items, header, allowed).response.Ok?
    ensures var h := IngestBatchSpec(items, header, allowed);
      && h.response.value == |items| == |h.writes|
      && forall i :: 0 <= i < |items| ==> h.writes[i].coach_id == "doe" && h.writes[i].(coach_id := items[i].coach_id) == items[i]
  {
    OnlyDemoKeyAuthenticates(header.value);
  }

  /** The writes of single requests, one per item, in item order. */
  function SinglesWrites(items: seq<MetricIn>, header: Option<string>, allowed: seq<string>): seq<MetricIn> {
    if items == [] then [] else IngestSpec(items[0], header, allowed).writes + SinglesWrites(items[1..], header, allowed)
  }

  /** An accepted batch splits into its first item's single write and the accepted batch of the rest. */
  lemma AcceptedBatchSplits(items: seq<MetricIn>, header: Option<string>, allowed: seq<string>)
    requires items != [] && IngestBatchSpec(items, header, allowed).response.Ok?
    ensures IngestBatchSpec(items[1..], header, allowed).response.Ok?
    ensures IngestBatchSpec(items, header, allowed).writes
      == IngestSpec(items[0], header, allowed).writes + IngestBatchSpec(items[1..], header, allowed).writes
  {
    var rest := items[1..];
    assert BatchErrors(items, allowed) == ValidationErrors(items[0], allowed) + BatchErrors(rest, allowed);
    CoachedSplits(items, CoachFromKey(API_KEYS, header.value).value);
  }

  /** Replacing the coach commutes with taking the first item off. */
  lemma CoachedSplits(items: seq<MetricIn>, coach: string)
    requires items != []
    ensures Coached(items, coach) == [WithCoach(items[0], coach)] + Coached(items[1..], coach)
  {
    assert forall i :: 0 <= i < |items| - 1 ==> items[1..][i] == items[i + 1];
  }

  /** An accepted batch writes exactly what posting its items one at a time to /ingest would. */
  lemma {:induction false} BatchAgreesWithSingles(items: seq<MetricIn>, header: Option<string>, allowed: seq<string>)
    requires IngestBatchSpec(items, header, allowed).response.Ok?
    ensures IngestBatchSpec(items, header, allowed).writes == SinglesWrites(items, header, allowed)
  {
    if items != [] {
      AcceptedBatchSplits(items, header, allowed);
      BatchAgreesWithSingles(items[1..], header, allowed);
    }
  }

  // ---------------------------------------------------------------------------
  // /cypher
  // ---------------------------------------------------------------------------

  /** The allow-list test: trimmed and upper-cased, the query starts with a read clause. */
  predicate IsReadQuery(query: string) {
    exists p :: p in ALLOWED_PREFIXES && StartsWith(Upper(Strip(query)), p)
  }

  /** `req.params or {}` */
  function ParamsOrEmpty(params: Option<map<string, string>>): map<string, string> {
    if params.Some? then params.value else map[]
  }

  /** POST /cypher: 422 without a query, 400 for a query outside the allow-list, otherwise the trimmed query is run. */
  function CypherDecision(query: Option<string>): Result<string, ApiError> {
    if query.None? then Err(Unprocessable([Missing("query")], false))
    else if IsReadQuery(query.value) then Ok(Strip(query.value))
    else Err(BadRequest)
  }

  /** `cypher_read(req)`: the store is touched only by an allowed query. */
  method CypherRead(store: GraphStore, query: Option<string>, params: Option<map<string, string>>) returns (r: Result<string, ApiError>)
    modifies store
    ensures r == CypherDecision(query)
    ensures store.queries == old(store.queries) + (if r.Ok? then [(r.value, ParamsOrEmpty(params))] else [])
    ensures store.writes == old(store.writes)
  {
    if query.None? {
      return Err(Unprocessable([Missing("query")], false));
    }
    var q := Strip(query.value);
    var upper := Upper(q);
    if !(exists p :: p in ALLOWED_PREFIXES && StartsWith(upper, p)) {
      return Err(BadRequest);
    }
    store.RunQuery(q, ParamsOrEmpty(params));
    r := Ok(q);
  }

  /** The test ignores case: queries equal up to case are allowed alike. */
  lemma ReadQueryIgnoresCase(q1: string, q2: string)
    requires Upper(q1) == Upper(q2)
    ensures IsReadQuery(q1) <==> IsReadQuery(q2)
  {
    UpperStripCommute(q1);
    UpperStripCommute(q2);
  }

  /** In particular, lower-casing a query never changes the verdict. */
  lemma ReadQueryLowercase(q: string)
    ensures IsReadQuery(Lower(q)) <==> IsReadQuery(q)
  {
    UpperOfLower(q);
    ReadQueryIgnoresCase(Lower(q), q);
  }

  /** The test ignores surrounding whitespace. */
  lemma ReadQueryIgnoresPadding(w1: string, q: string, w2: string)
    requires AllSpace(w1) && AllSpace(w2)
    ensures IsReadQuery(w1 + q + w2) <==> IsReadQuery(q)
  {
    StripPadded(w1, q, w2);
  }

  /** An empty or blank query is rejected with 400. */
  lemma BlankQueryRejected(q: string)
    requires AllSpace(q)
    ensures !IsReadQuery(q)
    ensures Status(CypherDecision(Some(q)).error) == 400
  {
    assert Upper(Strip(q)) == [];
  }

  /** The clauses that change the graph; none of them is on the allow-list. */
  const WRITE_CLAUSES: seq<string> := ["CREATE", "MERGE", "DELETE", "DETACH", "SET", "REMOVE", "DROP", "LOAD"]

  /** A query that starts with a write clause is rejected. */
  lemma WriteClauseRejected(q: string, clause: string)
    requires clause in WRITE_CLAUSES
    requires StartsWith(Upper(Strip(q)), clause)
    ensures !IsReadQuery(q)
  {
    var s := Upper(Strip(q));
    WriteHeads(clause);
    forall p | p in ALLOWED_PREFIXES ensures !StartsWith(s, p) {
      ReadHeads(p);
      DifferentHeads(s, clause, p);
    }
  }

  /** The first three letters of every allowed clause. */
  lemma ReadHeads(p: string)
    requires p in ALLOWED_PREFIXES
    ensures |p| >= 3 && p[..3] in {"MAT", "RET", "WIT", "UNW", "CAL", "PRO", "EXP"}
  {
    var i :| 0 <= i < |ALLOWED_PREFIXES| && ALLOWED_PREFIXES[i] == p;
    assert ALLOWED_PREFIXES[0][..3] == "MAT";
    assert ALLOWED_PREFIXES[1][..3] == "RET";
    assert ALLOWED_PREFIXES[2][..3] == "WIT";
    assert ALLOWED_PREFIXES[3][..3] == "UNW";
    assert ALLOWED_PREFIXES[4][..3] == "CAL";
    assert ALLOWED_PREFIXES[5][..3] == "PRO";
    assert ALLOWED_PREFIXES[6][..3] == "EXP";
  }

  /** The first three letters of every write clause. */
  lemma WriteHeads(c: string)
    requires c in WRITE_CLAUSES
    ensures |c| >= 3 && c[..3] in {"CRE", "MER", "DEL", "DET", "SET", "REM", "DRO", "LOA"}
  {
    var i :| 0 <= i < |WRITE_CLAUSES| && WRITE_CLAUSES[i] == c;
    assert WRITE_CLAUSES[0][..3] == "CRE";
    assert WRITE_CLAUSES[1][..3] == "MER";
    assert WRITE_CLAUSES[2][..3] == "DEL";
    assert WRITE_CLAUSES[3][..3] == "DET";
    assert WRITE_CLAUSES[4][..3] == "SET";
    assert WRITE_CLAUSES[5][..3] == "REM";
    assert WRITE_CLAUSES[6][..3] == "DRO";
    assert WRITE_CLAUSES[7][..3] == "LOA";
  }

  /** A string cannot start with two words whose first three letters differ. */
  lemma DifferentHeads(s: string, a: string, b: string)
    requires StartsWith(s, a) && |a| >= 3 && |b| >= 3 && a[..3] != b[..3]
    ensures !StartsWith(s, b)
  {
    assert s[..3] == a[..3] by { assert s[..3] == s[..|a|][..3]; }
    assert |b| <= |s| ==> s[..|b|][..3] == s[..3];
  }

  /** Every allowed clause is a non-empty word of capital letters. */
  lemma ReadClauseIsCapitals(p: string)
    requires p in ALLOWED_PREFIXES
    ensures p != [] && forall i :: 0 <= i < |p| ==> 'A' <= p[i] <= 'Z'
  {
    var k :| 0 <= k < |ALLOWED_PREFIXES| && ALLOWED_PREFIXES[k] == p;
  }

  /** The test looks at the first clause only: whatever follows an allowed clause, a write included, passes. */
  lemma ReadClauseThenAnythingPasses(clause: string, rest: string)
    requires clause in ALLOWED_PREFIXES
    ensures IsReadQuery(clause + rest)
  {
    ReadClauseIsCapitals(clause);
    CapitalWordThenAnything(clause, rest);
  }

  /** Strip and upper-casing leave a leading word of capitals in place. */
  lemma CapitalWordThenAnything(w: string, rest: string)
    requires w != [] && forall i :: 0 <= i < |w| ==> 'A' <= w[i] <= 'Z'
    ensures StartsWith(Upper(Strip(w + rest)), w)
  {
    var q := w + rest;
    assert q[0] == w[0] && q[|w| - 1] == w[|w| - 1];
    CapitalIsNotSpace(q[0]);
    CapitalIsNotSpace(q[|w| - 1]);
    TrimLeftStopsAtNonSpace(q);
    TrimRightKeeps(q, |w| - 1);
    var s := Strip(q);
    assert s == TrimRight(q);
    TrimRightFacts(q);
    assert |w| <= |s| && s == q[..|s|];
    forall i | 0 <= i < |w| ensures Upper(s)[i] == w[i] {
      assert s[i] == q[i] == w[i];
    }
    assert Upper(s)[..|w|] == w;
  }

  lemma CapitalIsNotSpace(c: char)
    requires 'A' <= c <= 'Z'
    ensures !IsSpace(c)
  {
  }
}
