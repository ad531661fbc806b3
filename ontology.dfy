/**
 * The unit ontology and the validated metric record (api/pydantic_ontology.py).
 *
 * The allowed units are read once from the Turtle text of the ontology: every
 * line holding the marker `rdf:type :AllowedUnit` contributes its first
 * whitespace-separated token with the colons around it stripped, and the
 * result is the sorted list of distinct such tokens. A metric record is
 * accepted when its unit is one of them and its athlete and session ids are
 * non-empty.
 */
module Ontology {
  import opened Wrappers
  import opened Text

  /** The text a line must contain to declare a unit. */
  const UNIT_MARKER: string := "rdf:type :AllowedUnit"

  // ---------------------------------------------------------------------------
  // splitlines()
  // ---------------------------------------------------------------------------

  /** The line boundaries of Python's `str.splitlines()`. */
  predicate IsLineBreak(c: char) {
    var n := c as int;
    0x0A <= n <= 0x0D || 0x1C <= n <= 0x1E || n == 0x85 || n == 0x2028 || n == 0x2029
  }

  predicate NoLineBreak(s: string) {
    forall j :: 0 <= j < |s| ==> !IsLineBreak(s[j])
  }

  /** Index of the first line boundary in `s`, or `|s|` when there is none. */
  function LineEnd(s: string): (i: nat)
    ensures i <= |s| && (i < |s| ==> IsLineBreak(s[i]))
    ensures NoLineBreak(s[..i])
  {
    if s == [] || IsLineBreak(s[0]) then 0
    else
      var i := 1 + LineEnd(s[1..]);
      assert forall j :: 1 <= j < i ==> s[..i][j] == s[1..][..i - 1][j - 1];
      i
  }

  /** `s.splitlines()`: "\r\n" counts as one boundary, and a final boundary opens no extra line. */
  function SplitLines(s: string): (lines: seq<string>)
    ensures forall i :: 0 <= i < |lines| ==> NoLineBreak(lines[i])
    decreases |s|
  {
    if s == [] then []
    else
      var i := LineEnd(s);
      if i == |s| then
        assert s[..i] == s;
        [s]
      else
        var width := if s[i] == '\r' && i + 1 < |s| && s[i + 1] == '\n' then 2 else 1;
        [s[..i]] + SplitLines(s[i + width..])
  }

  /** Text made of lines, each followed by "\n". */
  function JoinLines(lines: seq<string>): string {
    if lines == [] then [] else lines[0] + "\n" + JoinLines(lines[1..])
  }

  /** splitlines() gives back the lines a text was written from, whatever they hold besides line boundaries. */
  lemma {:induction false} SplitLinesOfJoin(lines: seq<string>)
    requires forall i :: 0 <= i < |lines| ==> NoLineBreak(lines[i])
    ensures SplitLines(JoinLines(lines)) == lines
  {
    if lines != [] {
      var l := lines[0];
      var rest := JoinLines(lines[1..]);
      var s := JoinLines(lines);
      assert s == l + ("\n" + rest);
      LineEndStops(l, "\n" + rest);
      assert s[..|l|] == l;
      assert s[|l| + 1..] == rest;
      SplitLinesOfJoin(lines[1..]);
    }
  }

  /** The first boundary of `l + t` is where `t` starts, when `l` has none and `t` starts with one. */
  lemma {:induction false} LineEndStops(l: string, t: string)
    requires NoLineBreak(l)
    requires t != [] && IsLineBreak(t[0])
    ensures LineEnd(l + t) == |l|
  {
    if l != [] {
      assert (l + t)[1..] == l[1..] + t;
      LineEndStops(l[1..], t);
    } else {
      assert l + t == t;
    }
  }

  // ---------------------------------------------------------------------------
  // One line: its first token, stripped of colons
  // ---------------------------------------------------------------------------

  /** Index of the first whitespace character in `s`, or `|s|`. */
  function TokenEnd(s: string): (i: nat)
    ensures i <= |s| && (i < |s| ==> IsSpace(s[i]))
    ensures forall j :: 0 <= j < i ==> !IsSpace(s[j])
  {
    if s == [] || IsSpace(s[0]) then 0 else 1 + TokenEnd(s[1..])
  }

  /** `token` sits at `k` in `line`: only whitespace before it, and whitespace or the line's end right after it. */
  predicate TokenAt(line: string, k: nat, token: string) {
    k + |token| <= |line| && AllSpace(line[..k]) && token == line[k..k + |token|]
    && (k + |token| == |line| || IsSpace(line[k + |token|]))
  }

  /** `line.split()[0]` for a line that is not blank; the empty string for a blank line. */
  function FirstToken(line: string): (token: string)
    ensures token != [] <==> !AllSpace(line)
    ensures forall j :: 0 <= j < |token| ==> !IsSpace(token[j])
  {
    var rest := TrimLeft(line);
    TrimLeftFacts(line);
    assert rest == [] ==> line[..|line|] == line;
    assert rest != [] ==> rest[0] == line[|line| - |rest|];
    rest[..TokenEnd(rest)]
  }

  /**
   * Where the first token sits: it starts at `k`, after the line's leading
   * whitespace, and runs up to the next whitespace character or the end of
   * the line.
   */
  lemma FirstTokenAt(line: string) returns (k: nat)
    ensures TokenAt(line, k, FirstToken(line))
  {
    var rest := TrimLeft(line);
    TrimLeftFacts(line);
    k := |line| - |rest|;
    var token := FirstToken(line);
    assert token == rest[..TokenEnd(rest)];
    assert token == line[k..k + |token|];
    assert k + |token| < |line| ==> line[k + |token|] == rest[|token|];
  }

  /** Every character of `s` is `c`. */
  predicate AllChar(s: string, c: char) {
    forall j :: 0 <= j < |s| ==> s[j] == c
  }

  /** The length of the run of `c` that `s` starts with. */
  function LeadingRun(s: string, c: char): (n: nat)
    ensures n <= |s| && AllChar(s[..n], c)
    ensures n < |s| ==> s[n] != c
  {
    if s != [] && s[0] == c then
      var n := LeadingRun(s[1..], c);
      assert s[..n + 1] == [c] + s[1..][..n];
      n + 1
    else 0
  }

  /** The length of the run of `c` that `s` ends with. */
  function TrailingRun(s: string, c: char): (n: nat)
    ensures n <= |s| && AllChar(s[|s| - n..], c)
    ensures n < |s| ==> s[|s| - 1 - n] != c
  {
    if s != [] && s[|s| - 1] == c then
      var init := s[..|s| - 1];
      var n := TrailingRun(init, c);
      assert s[|s| - (n + 1)..] == init[|init| - n..] + [c];
      n + 1
    else 0
  }

  /** `s.lstrip(c)`: only copies of `c` are dropped, and the rest does not start with `c`. */
  function DropLeading(s: string, c: char): (r: string)
    ensures |r| <= |s| && r == s[|s| - |r|..]
    ensures AllChar(s[..|s| - |r|], c)
    ensures r != [] ==> r[0] != c
  {
    s[LeadingRun(s, c)..]
  }

  /** `s.rstrip(c)`: only copies of `c` are dropped, and the rest does not end with `c`. */
  function DropTrailing(s: string, c: char): (r: string)
    ensures |r| <= |s| && r == s[..|r|]
    ensures AllChar(s[|r|..], c)
    ensures r != [] ==> r[|r| - 1] != c
  {
    s[..|s| - TrailingRun(s, c)]
  }

  /** `r` is the slice of `s` at `start`, with only copies of `c` before and after it. */
  predicate PaddedWith(s: string, start: nat, r: string, c: char) {
    start + |r| <= |s| && r == s[start..start + |r|]
    && AllChar(s[..start], c) && AllChar(s[start + |r|..], c)
  }

  /** `s.strip(c)`: neither end of the result is `c`; `StripCharPadded` says where it sits in `s`. */
  function StripChar(s: string, c: char): (r: string)
    ensures r != [] ==> r[0] != c && r[|r| - 1] != c
  {
    var t := DropLeading(s, c);
    assert DropTrailing(t, c) != [] ==> DropTrailing(t, c)[0] == t[0];
    DropTrailing(t, c)
  }

  /** `s.strip(c)` is the slice of `s` at `start`, with only copies of `c` around it. */
  lemma StripCharPadded(s: string, c: char) returns (start: nat)
    ensures PaddedWith(s, start, StripChar(s, c), c)
  {
    var t := DropLeading(s, c);
    var r := DropTrailing(t, c);
    start := |s| - |t|;
    SliceOfSuffix(s, start, |r|);
  }

  /** Slicing a suffix of `s` is slicing `s` itself, shifted. */
  lemma SliceOfSuffix(s: string, a: nat, n: nat)
    requires a + n <= |s|
    ensures s[a..][..n] == s[a..a + n] && s[a..][n..] == s[a + n..]
  {
  }

  /** Whether the line declares a unit. */
  predicate IsUnitLine(line: string) {
    Contains(line, UNIT_MARKER)
  }

  /** The unit a line declares: `line.split()[0].strip(":")`. */
  function UnitOf(line: string): string {
    StripChar(FirstToken(line), ':')
  }

  /** A marker line is never blank, so `line.split()[0]` always finds a token on it. */
  lemma {:induction false} UnitLineHasToken(line: string)
    requires IsUnitLine(line)
    ensures FirstToken(line) != []
    decreases |line|
  {
    if StartsWith(line, UNIT_MARKER) {
      assert line[0] == UNIT_MARKER[0] == 'r';
      assert !IsSpace(line[0]);
    } else {
      UnitLineHasToken(line[1..]);
      TrimLeftFacts(line);
      TrimLeftFacts(line[1..]);
      assert !IsSpace(line[1..][|line[1..]| - |TrimLeft(line[1..])|]);
    }
  }

  /** The units the marker lines among `lines` declare, in line order, repeats kept. */
  function UnitTokens(lines: seq<string>): (units: seq<string>)
    ensures |units| <= |lines|
  {
    if lines == [] then []
    else
      var last := lines[|lines| - 1];
      UnitTokens(lines[..|lines| - 1]) + (if IsUnitLine(last) then [UnitOf(last)] else [])
  }

  /** A unit is collected exactly when some marker line declares it. */
  lemma {:induction false} UnitTokensExact(lines: seq<string>, u: string)
    ensures u in UnitTokens(lines) <==> exists line :: line in lines && IsUnitLine(line) && UnitOf(line) == u
  {
    if lines != [] {
      var init := lines[..|lines| - 1];
      var last := lines[|lines| - 1];
      UnitTokensExact(init, u);
      assert lines == init + [last];
      if u in UnitTokens(lines) {
        if u !in UnitTokens(init) {
          assert IsUnitLine(last) && UnitOf(last) == u;
        }
      }
      if exists line :: line in lines && IsUnitLine(line) && UnitOf(line) == u {
        var line :| line in lines && IsUnitLine(line) && UnitOf(line) == u;
        if line != last {
          assert line in init;
        }
      }
    }
  }

  // ---------------------------------------------------------------------------
  // sorted(set(units))
  // ---------------------------------------------------------------------------

  /** Ascending with no repeats, in Python's string order. */
  predicate StrictlySorted(xs: seq<string>) {
    forall i, j :: 0 <= i < j < |xs| ==> Less(xs[i], xs[j])
  }

  /** Adds `u` to a sorted, repeat-free list, keeping it sorted and repeat-free. */
  function Insert(xs: seq<string>, u: string): (r: seq<string>)
    requires StrictlySorted(xs)
    ensures StrictlySorted(r)
    ensures forall v :: v in r <==> v in xs || v == u
  {
    if xs == [] then [u]
    else if u == xs[0] then xs
    else if Less(u, xs[0]) then
      assert forall j :: 0 <= j < |xs| ==> Less(u, xs[j]) by {
        forall j | 0 <= j < |xs| ensures Less(u, xs[j]) {
          if j > 0 { LessTransitive(u, xs[0], xs[j]); }
        }
      }
      [u] + xs
    else
      LessTotal(u, xs[0]);
      var rest := Insert(xs[1..], u);
      assert forall v :: v in rest ==> Less(xs[0], v) by {
        forall v | v in rest ensures Less(xs[0], v) {
          if v != u { var j :| 0 <= j < |xs[1..]| && xs[1..][j] == v; assert xs[j + 1] == v; }
        }
      }
      [xs[0]] + rest
  }

  /** `sorted(set(xs))`: the distinct elements of `xs` in ascending order. */
  function SortUnique(xs: seq<string>): (r: seq<string>)
    ensures StrictlySorted(r)
    ensures forall v :: v in r <==> v in xs
  {
    if xs == [] then []
    else Insert(SortUnique(xs[..|xs| - 1]), xs[|xs| - 1])
  }

  /** A sorted repeat-free list is fixed by its elements: there is only one way to sort a set. */
  lemma {:induction false} SortedListsWithSameElementsAgree(xs: seq<string>, ys: seq<string>)
    requires StrictlySorted(xs) && StrictlySorted(ys)
    requires forall v :: v in xs <==> v in ys
    ensures xs == ys
  {
    assert xs != [] ==> xs[0] in ys;
    assert ys != [] ==> ys[0] in xs;
    if xs != [] && ys != [] {
      // Both heads are the least element of the common set.
      var i :| 0 <= i < |ys| && ys[i] == xs[0];
      var j :| 0 <= j < |xs| && xs[j] == ys[0];
      assert i != 0 ==> Less(ys[0], xs[0]);
      assert j != 0 ==> Less(xs[0], ys[0]);
      if i != 0 && j != 0 {
        LessAsymmetric(ys[0], xs[0]);
      }
      assert xs[0] == ys[0];
      forall v ensures v in xs[1..] <==> v in ys[1..] {
        HeadLeast(xs, v);
        HeadLeast(ys, v);
      }
      SortedListsWithSameElementsAgree(xs[1..], ys[1..]);
    }
  }

  /** In a sorted repeat-free list, the tail holds exactly the elements other than the head. */
  lemma HeadLeast(xs: seq<string>, v: string)
    requires StrictlySorted(xs) && xs != []
    ensures v in xs[1..] <==> v in xs && v != xs[0]
  {
    if v in xs[1..] {
      var j :| 0 <= j < |xs[1..]| && xs[1..][j] == v;
      assert Less(xs[0], xs[j + 1]);
      LessIrreflexive(xs[0]);
    }
  }

  // ---------------------------------------------------------------------------
  // _extract_units
  // ---------------------------------------------------------------------------

  /** The allowed units the ontology text declares. */
  function AllowedUnits(ttl: string): (units: seq<string>) {
    SortUnique(UnitTokens(SplitLines(ttl)))
  }

  /** `_extract_units(ttl)`: scans the lines, collecting each marker line's unit, then sorts and removes repeats. */
  method ExtractUnits(ttl: string) returns (units: seq<string>)
    ensures units == AllowedUnits(ttl)
  {
    var lines := SplitLines(ttl);
    var found: seq<string> := [];
    for i := 0 to |lines|
      invariant found == UnitTokens(lines[..i])
    {
      assert lines[..i + 1][..i] == lines[..i];
      if Contains(lines[i], UNIT_MARKER) {
        found := found + [StripChar(FirstToken(lines[i]), ':')];
      }
    }
    assert lines[..|lines|] == lines;
    units := SortUnique(found);
  }

  /** The unit list is sorted ascending, without repeats. */
  lemma AllowedUnitsSorted(ttl: string)
    ensures StrictlySorted(AllowedUnits(ttl))
    ensures forall i, j :: 0 <= i < j < |AllowedUnits(ttl)| ==> AllowedUnits(ttl)[i] != AllowedUnits(ttl)[j]
  {
    var units := AllowedUnits(ttl);
    forall i, j | 0 <= i < j < |units| ensures units[i] != units[j] {
      if units[i] == units[j] { LessIrreflexive(units[i]); }
    }
  }

  /** Some line of the text carries the marker and declares `u`. */
  predicate Declares(ttl: string, u: string) {
    exists line :: line in SplitLines(ttl) && IsUnitLine(line) && UnitOf(line) == u
  }

  /** Sound and complete: a unit is allowed exactly when some line of the text carries the marker and declares it. */
  lemma AllowedUnitsExact(ttl: string, u: string)
    ensures u in AllowedUnits(ttl) <==> Declares(ttl, u)
  {
    UnitTokensExact(SplitLines(ttl), u);
  }

  /** A text with no marker line allows no unit. */
  lemma NoMarkerNoUnits(ttl: string)
    requires forall line :: line in SplitLines(ttl) ==> !IsUnitLine(line)
    ensures AllowedUnits(ttl) == []
  {
    if AllowedUnits(ttl) != [] {
      AllowedUnitsExact(ttl, AllowedUnits(ttl)[0]);
    }
  }

  /** Only the set of declared units matters: texts declaring the same units, in any line order and with any repeats, give the same list. */
  lemma AllowedUnitsCanonical(ttl1: string, ttl2: string)
    requires forall u :: Declares(ttl1, u) <==> Declares(ttl2, u)
    ensures AllowedUnits(ttl1) == AllowedUnits(ttl2)
  {
    forall u ensures u in AllowedUnits(ttl1) <==> u in AllowedUnits(ttl2) {
      AllowedUnitsExact(ttl1, u);
      AllowedUnitsExact(ttl2, u);
    }
    SortedListsWithSameElementsAgree(AllowedUnits(ttl1), AllowedUnits(ttl2));
  }

  // ---------------------------------------------------------------------------
  // MetricIn
  // ---------------------------------------------------------------------------

  /** One metric observation as the API receives it. */
  datatype MetricIn = MetricIn(
    athlete_id: string,
    session_id: string,
    ts: string,
    name: string,
    unit: string,
    value: real,
    coach_id: string)

  /** A validation error, naming the field or the rejected unit and the units allowed. */
  datatype FieldError =
    | TooShort(field: string)
    | UnitNotAllowed(unit: string, allowed: seq<string>)
    | Missing(field: string)

  /** The `unit_allowed` validator: passes an allowed unit through, rejects any other with an error naming it. */
  function UnitAllowed(v: string, allowed: seq<string>): (r: Result<string, FieldError>)
    ensures r.Ok? <==> v in allowed
    ensures r.Ok? ==> r.value == v
    ensures r.Err? ==> r.error == UnitNotAllowed(v, allowed)
  {
    if v !in allowed then Err(UnitNotAllowed(v, allowed)) else Ok(v)
  }

  /** The record's constraints: non-empty athlete and session ids, an allowed unit. */
  predicate IsValid(m: MetricIn, allowed: seq<string>) {
    |m.athlete_id| >= 1 && |m.session_id| >= 1 && m.unit in allowed
  }

  /** Every error validating `m` raises, in field order; the record is accepted when there is none. */
  function ValidationErrors(m: MetricIn, allowed: seq<string>): (errors: seq<FieldError>)
    ensures errors == [] <==> IsValid(m, allowed)
    ensures TooShort("athlete_id") in errors <==> m.athlete_id == []
    ensures TooShort("session_id") in errors <==> m.session_id == []
    ensures UnitNotAllowed(m.unit, allowed) in errors <==> m.unit !in allowed
    ensures |errors| == (if m.athlete_id == [] then 1 else 0) + (if m.session_id == [] then 1 else 0)
      + (if m.unit !in allowed then 1 else 0)
  {
    (if |m.athlete_id| < 1 then [TooShort("athlete_id")] else [])
    + (if |m.session_id| < 1 then [TooShort("session_id")] else [])
    + (match UnitAllowed(m.unit, allowed) case Ok(_) => [] case Err(e) => [e])
  }

  /** Validation never looks at the record's coach. */
  lemma ValidationIgnoresCoach(m: MetricIn, coach: string, allowed: seq<string>)
    ensures ValidationErrors(m.(coach_id := coach), allowed) == ValidationErrors(m, allowed)
  {
  }
}
