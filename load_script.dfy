/**
 * The Cypher loader script: with the store credentials set, it cuts the
 * script text on ';', strips every fragment and runs the non-blank ones in
 * order; without them it stops with exit status 1 before running anything.
 */
module LoadToNeo4j {
  import opened Text
  import opened Neo4jEnv

  /** Every fragment with its surrounding whitespace stripped. */
  function StripEach(fragments: seq<string>): seq<string> {
    seq(|fragments|, i requires 0 <= i < |fragments| => Strip(fragments[i]))
  }

  /** The non-empty strings of `xs`, in their original order. */
  function NonEmpty(xs: seq<string>): (kept: seq<string>)
    ensures |kept| <= |xs|
  {
    if xs == [] then []
    else NonEmpty(xs[..|xs| - 1]) + (if xs[|xs| - 1] != [] then [xs[|xs| - 1]] else [])
  }

  /** The statements the script runs for a given text: at most one more than there are ';' in it. */
  function Statements(text: string): (statements: seq<string>)
    ensures |statements| <= Count(text, ';') + 1
  {
    NonEmpty(StripEach(Split(text, ';')))
  }

  /** A statement as the script hands it to the store: non-empty, no surrounding whitespace, no ';'. */
  predicate Runnable(q: string) {
    q != [] && !IsSpace(q[0]) && !IsSpace(q[|q| - 1]) && ';' !in q
  }

  /** An open session on the store: the statements it has run so far. */
  class ScriptSession {
    var executed: seq<string>

    constructor()
      ensures executed == []
    {
      executed := [];
    }

    /** `s.run(q)` */
    method Run(q: string)
      modifies this
      ensures executed == old(executed) + [q]
    {
      executed := executed + [q];
    }
  }

  /**
   * The script: exit status 0 after running every statement when the
   * credentials are set, exit status 1 and nothing run otherwise.
   */
  method RunScript(env: Env, text: string, session: ScriptSession) returns (exitCode: int)
    modifies session
    ensures exitCode == (if CredentialsPresent(env) then 0 else 1)
    ensures session.executed == old(session.executed) + (if CredentialsPresent(env) then Statements(text) else [])
  {
    if !CredentialsPresent(env) {
      return 1;
    }
    var fragments := Split(text, ';');
    ghost var stripped := StripEach(fragments);
    WholeAndEmptySlices(stripped);
    assert |stripped| == |fragments|;
    for i := 0 to |fragments|
      invariant session.executed == old(session.executed) + NonEmpty(stripped[..i])
    {
      var q := Strip(fragments[i]);
      assert stripped[i] == q;
      NonEmptyStep(stripped, i);
      if q != [] {
        session.Run(q);
      }
    }
    return 0;
  }

  /** Taking one more string keeps it exactly when it is non-empty. */
  lemma NonEmptyStep(xs: seq<string>, i: nat)
    requires i < |xs|
    ensures NonEmpty(xs[..i + 1]) == NonEmpty(xs[..i]) + (if xs[i] != [] then [xs[i]] else [])
  {
    assert xs[..i + 1][..i] == xs[..i];
  }

  /** Slicing a sequence up to its length gives it back; slicing up to 0 gives nothing. */
  lemma WholeAndEmptySlices<T>(s: seq<T>)
    ensures s[..|s|] == s && s[..0] == []
  {
  }

  /** Every string NonEmpty returns is non-empty and was in the input. */
  lemma {:induction false} NonEmptyKeeps(xs: seq<string>)
    ensures forall q :: q in NonEmpty(xs) ==> q != [] && q in xs
  {
    if xs != [] {
      var n := |xs| - 1;
      NonEmptyKeeps(xs[..n]);
      WholeAndEmptySlices(xs);
      NonEmptyStep(xs, n);
    }
  }

  /** NonEmpty keeps as many strings as there are non-empty positions in `xs`: no string is kept twice. */
  lemma {:induction false} NonEmptyCount(xs: seq<string>)
    ensures |NonEmpty(xs)| == |set i | 0 <= i < |xs| && xs[i] != []|
  {
    var all := set i | 0 <= i < |xs| && xs[i] != [];
    if xs == [] {
      assert all == {};
    } else {
      var n := |xs| - 1;
      NonEmptyCount(xs[..n]);
      WholeAndEmptySlices(xs);
      NonEmptyStep(xs, n);
      var before := set i | 0 <= i < n && xs[..n][i] != [];
      if xs[n] != [] {
        assert all == before + {n};
      } else {
        assert all == before;
      }
    }
  }

  /** NonEmpty leaves a list of non-empty strings as it is. */
  lemma {:induction false} NonEmptyOfNonEmpty(xs: seq<string>)
    requires forall i :: 0 <= i < |xs| ==> xs[i] != []
    ensures NonEmpty(xs) == xs
  {
    if xs != [] {
      var n := |xs| - 1;
      NonEmptyOfNonEmpty(xs[..n]);
      WholeAndEmptySlices(xs);
      NonEmptyStep(xs, n);
    }
  }

  /** No non-empty string is skipped: NonEmpty keeps each one, at its place among the kept ones. */
  lemma {:induction false} NonEmptyComplete(xs: seq<string>, i: nat)
    requires i < |xs| && xs[i] != []
    ensures var before := NonEmpty(xs[..i]);
      |before| < |NonEmpty(xs)| && NonEmpty(xs)[|before|] == xs[i]
    decreases |xs|
  {
    var n := |xs| - 1;
    WholeAndEmptySlices(xs);
    NonEmptyStep(xs, n);
    if i < n {
      NonEmptyComplete(xs[..n], i);
      assert xs[..n][..i] == xs[..i];
    }
  }

  /** Every fragment between ';' that is not blank is run, stripped. */
  lemma NonBlankFragmentRuns(text: string, i: nat)
    requires i < |Split(text, ';')| && !AllSpace(Split(text, ';')[i])
    ensures Strip(Split(text, ';')[i]) in Statements(text)
  {
    var stripped := StripEach(Split(text, ';'));
    NonEmptyComplete(stripped, i);
  }

  /** Every statement run is non-blank, has no surrounding whitespace and holds no ';'. */
  lemma StatementsWellFormed(text: string)
    ensures forall q :: q in Statements(text) ==> Runnable(q)
  {
    var fragments := Split(text, ';');
    var stripped := StripEach(fragments);
    NonEmptyKeeps(stripped);
    forall q | q in Statements(text) ensures Runnable(q) {
      var i :| 0 <= i < |stripped| && stripped[i] == q;
      StripKeepsOut(fragments[i], ';');
    }
  }

  /**
   * Round trip: statements that are already stripped, non-empty and free of
   * ';', joined with ';', are run exactly as given.
   */
  lemma StatementsOfJoin(statements: seq<string>)
    requires forall i :: 0 <= i < |statements| ==> Runnable(statements[i])
    ensures Statements(Join(statements, ';')) == statements
  {
    if statements == [] {
      SingleStatement([]);
    } else {
      SplitJoin(statements, ';');
      StripEachOfStripped(statements);
      NonEmptyOfNonEmpty(statements);
    }
  }

  /** Strings that are already stripped come through StripEach unchanged. */
  lemma StripEachOfStripped(xs: seq<string>)
    requires forall i :: 0 <= i < |xs| ==> Runnable(xs[i])
    ensures StripEach(xs) == xs
  {
    forall i | 0 <= i < |xs| ensures StripEach(xs)[i] == xs[i] {
      StripKeeps(xs[i]);
    }
  }

  /** Text without ';' is one statement, its stripped self, or none when it is blank. */
  lemma SingleStatement(text: string)
    requires ';' !in text
    ensures Statements(text) == (if AllSpace(text) then [] else [Strip(text)])
  {
    SplitWithoutSep(text, ';');
    assert StripEach([text]) == [Strip(text)];
    assert [Strip(text)][..0] == [];
  }
}
