/** The scenario sweep driver `run_non_fossil_scenarios.py`: parsing the
    `--scenarios` option into (name, share) pairs and running one
    optimization per scenario, collecting one index row each.

    `float(text)` is a parameter `parseFloat` that yields `None` where Python
    raises `ValueError`. */
module Scenarios {
  import opened Wrappers
  import opened Errors
  import opened Text
  import opened Economics
  import opened LinearProgram
  import opened Extraction
  import opened Optimizer

  /** A scenario: its name and its non-fossil share. */
  datatype Scenario = Scenario(name: string, share: real)

  /** The `ValueError`s `parse_scenarios` raises. */
  datatype ParseError =
    | BadNumber(text: string)   // `float(...)` of a piece that is not a number
    | NoScenarios               // every piece was blank

  const DefaultScenarios: seq<Scenario> :=
    [Scenario("nf70", 0.70), Scenario("nf80", 0.80), Scenario("nf90", 0.90),
     Scenario("nf95", 0.95), Scenario("nf99", 0.99)]

  /** The name given to a bare share: `nf` and the rounded percentage. */
  function NfName(pct: real): string {
    "nf" + IntToString(RoundHalfEven(pct * 100.0))
  }

  /** One non-blank, stripped piece. `name:value` splits at the first colon
      and keeps the value as given; a bare number above 1 is a percentage. */
  function ParsePiece(piece: string, parseFloat: string -> Option<real>): Result<Scenario, ParseError> {
    if ':' in piece then
      var colon := IndexOf(piece, ':');
      var value := piece[colon + 1..];
      match parseFloat(value)
      case None => Err(BadNumber(value))
      case Some(share) => Ok(Scenario(Strip(piece[..colon]), share))
    else
      match parseFloat(piece)
      case None => Err(BadNumber(piece))
      case Some(x) =>
        var pct := if x > 1.0 then x / 100.0 else x;
        Ok(Scenario(NfName(pct), pct))
  }

  /** One iteration of the loop: a blank entry is skipped, any other entry
      adds its scenario, and an error so far stays. */
  function Step(acc: Result<seq<Scenario>, ParseError>, entry: string, parseFloat: string -> Option<real>)
    : Result<seq<Scenario>, ParseError>
  {
    if acc.Err? then acc
    else
      var piece := Strip(entry);
      if piece == [] then acc
      else
        match ParsePiece(piece, parseFloat)
        case Err(e) => Err(e)
        case Ok(s) => Ok(acc.value + [s])
  }

  /** The scenarios the comma-separated entries give, in order, stopping at
      the first piece that does not parse. */
  function ParseAll(entries: seq<string>, parseFloat: string -> Option<real>): Result<seq<Scenario>, ParseError>
    decreases |entries|
  {
    if entries == [] then Ok([])
    else Step(ParseAll(entries[..|entries| - 1], parseFloat), entries[|entries| - 1], parseFloat)
  }

  lemma ParseAllPrefix(entries: seq<string>, i: nat, parseFloat: string -> Option<real>)
    requires i < |entries|
    ensures ParseAll(entries[..i + 1], parseFloat) == Step(ParseAll(entries[..i], parseFloat), entries[i], parseFloat)
  {
    assert entries[..i + 1][..i] == entries[..i];
  }

  lemma ParsePieceNamed(piece: string, parseFloat: string -> Option<real>, colon: nat)
    requires ':' in piece && colon == IndexOf(piece, ':') && parseFloat(piece[colon + 1..]).Some?
    ensures ParsePiece(piece, parseFloat)
         == Ok(Scenario(Strip(piece[..colon]), parseFloat(piece[colon + 1..]).value))
  {
  }

  lemma ParsePieceBare(piece: string, parseFloat: string -> Option<real>, fraction: real)
    requires ':' !in piece && parseFloat(piece).Some?
    requires fraction == if parseFloat(piece).value > 1.0 then parseFloat(piece).value / 100.0
                         else parseFloat(piece).value
    ensures ParsePiece(piece, parseFloat) == Ok(Scenario(NfName(fraction), fraction))
  {
  }

  /** `parse_scenarios`: the defaults for a missing or empty option, and an
      error when nothing is left. */
  function ParseScenariosSpec(raw: Option<string>, parseFloat: string -> Option<real>)
    : (r: Result<seq<Scenario>, ParseError>)
    ensures r.Ok? ==> |r.value| >= 1
    ensures raw == None || raw == Some("") ==> r == Ok(DefaultScenarios)
  {
    if raw.None? || raw.value == [] then Ok(DefaultScenarios)
    else
      var parsed :- ParseAll(Split(raw.value, ','), parseFloat);
      if parsed == [] then Err(NoScenarios) else Ok(parsed)
  }

  lemma {:induction false} ErrorPersists(entries: seq<string>, j: nat, parseFloat: string -> Option<real>)
    requires j <= |entries| && ParseAll(entries[..j], parseFloat).Err?
    ensures ParseAll(entries, parseFloat) == ParseAll(entries[..j], parseFloat)
    decreases |entries|
  {
    if j < |entries| {
      var init := entries[..|entries| - 1];
      assert init[..j] == entries[..j];
      ErrorPersists(init, j, parseFloat);
    } else {
      assert entries[..j] == entries;
    }
  }

  /** The loop of `parse_scenarios`, appending to `scenarios` and skipping
      blank pieces. */
  method ParseScenarios(raw: Option<string>, parseFloat: string -> Option<real>)
    returns (r: Result<seq<Scenario>, ParseError>)
    ensures r == ParseScenariosSpec(raw, parseFloat)
  {
    if raw.None? || raw.value == [] {
      return Ok(DefaultScenarios);
    }
    var entries := Split(raw.value, ',');
    var scenarios: seq<Scenario> := [];
    for i := 0 to |entries|
      invariant ParseAll(entries[..i], parseFloat) == Ok(scenarios)
    {
      ParseAllPrefix(entries, i, parseFloat);
      var piece := Strip(entries[i]);
      if piece == [] {
        continue;
      }
      if ':' in piece {
        var colon := IndexOf(piece, ':');
        var name, value := piece[..colon], piece[colon + 1..];
        var share := parseFloat(value);
        if share.None? {
          ErrorPersists(entries, i + 1, parseFloat);
          return Err(BadNumber(value));
        }
        ParsePieceNamed(piece, parseFloat, colon);
        scenarios := scenarios + [Scenario(Strip(name), share.value)];
      } else {
        var pct := parseFloat(piece);
        if pct.None? {
          ErrorPersists(entries, i + 1, parseFloat);
          return Err(BadNumber(piece));
        }
        var fraction := pct.value;
        if fraction > 1.0 {
          fraction := fraction / 100.0;
        }
        ParsePieceBare(piece, parseFloat, fraction);
        scenarios := scenarios + [Scenario(NfName(fraction), fraction)];
      }
    }
    assert entries[..|entries|] == entries;
    if scenarios == [] {
      return Err(NoScenarios);
    }
    return Ok(scenarios);
  }

  // ---------------------------------------------------------------------
  // What the parser promises.

  /** The non-blank pieces, stripped, in order. */
  function Kept(entries: seq<string>): (kept: seq<string>)
    ensures forall k :: 0 <= k < |kept| ==> kept[k] != [] && NoOuterSpace(kept[k])
    decreases |entries|
  {
    if entries == [] then []
    else
      var piece := Strip(entries[|entries| - 1]);
      Kept(entries[..|entries| - 1]) + (if piece == [] then [] else [piece])
  }

  lemma KeptStep(entries: seq<string>)
    requires entries != []
    ensures var piece := Strip(entries[|entries| - 1]);
      Kept(entries) == Kept(entries[..|entries| - 1]) + (if piece == [] then [] else [piece])
  {
  }

  /** Parsing succeeds exactly when every non-blank piece parses. */
  lemma {:induction false} ParseAllSucceeds(entries: seq<string>, parseFloat: string -> Option<real>)
    ensures var kept := Kept(entries);
      ParseAll(entries, parseFloat).Ok? <==> forall k :: 0 <= k < |kept| ==> ParsePiece(kept[k], parseFloat).Ok?
    decreases |entries|
  {
    if entries != [] {
      var init := entries[..|entries| - 1];
      var piece := Strip(entries[|entries| - 1]);
      ParseAllSucceeds(init, parseFloat);
      KeptStep(entries);
      var kept, before := Kept(entries), Kept(init);
      assert forall k :: 0 <= k < |before| ==> kept[k] == before[k];
      if ParseAll(init, parseFloat).Err? {
        var k :| 0 <= k < |before| && ParsePiece(before[k], parseFloat).Err?;
        assert ParsePiece(kept[k], parseFloat).Err?;
      } else if piece != [] {
        assert kept[|kept| - 1] == piece;
      }
    }
  }

  /** A successful parse gives one scenario per non-blank piece, in the
      pieces' order. */
  lemma {:induction false} ParseAllInOrder(entries: seq<string>, parseFloat: string -> Option<real>)
    requires ParseAll(entries, parseFloat).Ok?
    ensures var kept, parsed := Kept(entries), ParseAll(entries, parseFloat).value;
      && |parsed| == |kept|
      && forall k :: 0 <= k < |kept| ==> Ok(parsed[k]) == ParsePiece(kept[k], parseFloat)
    decreases |entries|
  {
    if entries != [] {
      var init := entries[..|entries| - 1];
      var piece := Strip(entries[|entries| - 1]);
      KeptStep(entries);
      assert ParseAll(init, parseFloat).Ok?;
      ParseAllInOrder(init, parseFloat);
      var kept, before := Kept(entries), Kept(init);
      var parsed, prior := ParseAll(entries, parseFloat).value, ParseAll(init, parseFloat).value;
      if piece != [] {
        assert parsed == prior + [ParsePiece(piece, parseFloat).value];
        assert kept == before + [piece];
      }
    }
  }

  /** `name:value` is split at the first colon: the name is what precedes it,
      stripped, so it holds no colon and no outer whitespace, and the share is
      the value read as given, with no percentage rule. */
  lemma NamedPiece(piece: string, parseFloat: string -> Option<real>)
    requires ':' in piece
    ensures var colon := IndexOf(piece, ':');
      var value := piece[colon + 1..];
      && piece == piece[..colon] + ":" + value
      && (ParsePiece(piece, parseFloat).Err? <==> parseFloat(value).None?)
      && (parseFloat(value).Some? ==>
            var s := ParsePiece(piece, parseFloat).value;
            && s.share == parseFloat(value).value
            && s.name == Strip(piece[..colon])
            && ':' !in s.name
            && NoOuterSpace(s.name))
  {
    var colon := IndexOf(piece, ':');
    assert piece == piece[..colon] + ":" + piece[colon + 1..];
    var name := Strip(piece[..colon]);
    assert forall k :: 0 <= k < |name| ==> name[k] in piece[..colon];
  }

  /** A bare number above 1 is a percentage: the share is a hundredth of it,
      so percentages up to 100 give shares up to 1; the name is `nf` followed
      by the share as the nearest whole percentage. */
  lemma BarePiece(piece: string, parseFloat: string -> Option<real>, x: real)
    requires ':' !in piece && parseFloat(piece) == Some(x)
    ensures var s := ParsePiece(piece, parseFloat).value;
      && ParsePiece(piece, parseFloat).Ok?
      && (x > 1.0 ==> s.share * 100.0 == x)
      && (x <= 1.0 ==> s.share == x)
      && (0.0 <= x <= 100.0 ==> 0.0 <= s.share <= 1.0)
      && exists n: int :: s.name == "nf" + IntToString(n) && -0.5 <= s.share * 100.0 - n as real <= 0.5
  {
    var s := ParsePiece(piece, parseFloat).value;
    var n := RoundHalfEven(s.share * 100.0);
    assert s.name == "nf" + IntToString(n);
  }

  // ---------------------------------------------------------------------
  // The sweep.

  /** One entry of the scenario index. */
  datatype IndexRow = IndexRow(
    id: string,
    labelText: string,   // "label"
    threshold: real,
    enforcedMinShare: real,
    minShare: real,
    achievedFossilShare: real,
    achievedNonFossilSharePrimary: real,
    achievedSolarShare: real,
    achievedNonFossilShare: real,   // backward-compatible alias
    status: string,
    lcoe: real,
    objective: real,
    outputDir: seq<string>)         // output_root / id, as path components

  /** `f">={int(round(threshold * 100))}% non-fossil"` */
  function Label(threshold: real): string {
    ">=" + IntToString(RoundHalfEven(threshold * 100.0)) + "% non-fossil"
  }

  function IndexRowOf(id: string, threshold: real, s: Summary, outputRoot: seq<string>): IndexRow {
    IndexRow(id, Label(threshold), threshold, threshold, threshold,
             s.fossilShare, s.nonFossilShare, s.solarShare, s.nonFossilShare,
             s.status, s.lcoe, s.objective, outputRoot + [id])
  }

  /** The inputs of one scenario's run. */
  function ScenarioInput(base: ModelInput, id: string, threshold: real): ModelInput {
    base.(minNonFossilShare := threshold, scenarioName := id)
  }

  /** A scenario's index row and run: the run reports the solver's answer
      for the scenario's stripped name and clamped threshold, and the row
      carries that name, the threshold and the run's summary. */
  ghost predicate RowReports(base: ModelInput, a: Assumptions, sqrt: real -> real, pow: (real, real) -> real,
                             solve: Solver, outputRoot: seq<string>, sc: Scenario, row: IndexRow, run: RunResult)
  {
    var id, threshold := Strip(sc.name), ClampShare(sc.share);
    && row == IndexRowOf(id, threshold, run.summary, outputRoot)
    && DeriveParameters(a, sqrt, pow).Ok?
    && ParamsOf(a, sqrt, pow).etaDischarge > 0.0
    && ReportsSolution(ScenarioInput(base, id, threshold), ParamsOf(a, sqrt, pow), solve, run)
  }

  /** The loop of `main`: one optimization per scenario with the clamped
      threshold, one index row each in scenario order. A failing run raises,
      which ends the sweep with that error. */
  method RunSweep(base: ModelInput, a: Assumptions, sqrt: real -> real, pow: (real, real) -> real,
                  solve: Solver, outputRoot: seq<string>, scenarios: seq<Scenario>)
    returns (r: Result<seq<IndexRow>, Error>, runs: seq<RunResult>)
    requires IsSqrt(sqrt)
    ensures r.Err? <==> |scenarios| > 0 && (DeriveParameters(a, sqrt, pow).Err? || base.hourly == [])
    ensures r.Err? ==> r.error == (if DeriveParameters(a, sqrt, pow).Err? then DeriveParameters(a, sqrt, pow).error
                                   else EmptyHorizon)
    ensures r.Ok? ==> |r.value| == |runs| == |scenarios|
    ensures r.Ok? ==> forall k :: 0 <= k < |scenarios| ==>
      RowReports(base, a, sqrt, pow, solve, outputRoot, scenarios[k], r.value[k], runs[k])
  {
    var rows: seq<IndexRow> := [];
    runs := [];
    for k := 0 to |scenarios|
      invariant |rows| == |runs| == k
      invariant k > 0 ==> DeriveParameters(a, sqrt, pow).Ok? && base.hourly != []
      invariant forall j :: 0 <= j < k ==>
        RowReports(base, a, sqrt, pow, solve, outputRoot, scenarios[j], rows[j], runs[j])
    {
      var scenarioName := Strip(scenarios[k].name);
      var threshold := Max(0.0, Min(1.0, scenarios[k].share));
      var minShare := threshold;
      var result := BuildAndSolve(ScenarioInput(base, scenarioName, minShare), a, sqrt, pow, solve);
      if result.Err? {
        assert ScenarioInput(base, scenarioName, minShare).hourly == base.hourly;
        assert DeriveParameters(a, sqrt, pow).Err? || base.hourly == [];
        return Err(result.error), runs;
      }
      var row := IndexRowOf(scenarioName, threshold, result.value.summary, outputRoot);
      assert RowReports(base, a, sqrt, pow, solve, outputRoot, scenarios[k], row, result.value);
      ghost var before, beforeRuns := rows, runs;
      rows := rows + [row];
      runs := runs + [result.value];
      forall j | 0 <= j < k + 1
        ensures RowReports(base, a, sqrt, pow, solve, outputRoot, scenarios[j], rows[j], runs[j])
      {
        if j < k {
          assert rows[j] == before[j] && runs[j] == beforeRuns[j];
        }
      }
    }
    assert |scenarios| > 0 ==> DeriveParameters(a, sqrt, pow).Ok? && base.hourly != [];
    r := Ok(rows);
  }

  // ---------------------------------------------------------------------
  // What the sweep promises.

  /** Each scenario's run enforces exactly the index row's threshold, a
      share in [0, 1]. */
  lemma ThresholdEnforced(base: ModelInput, p: Params, solve: Solver, id: string, share: real, run: RunResult)
    requires p.etaDischarge > 0.0
    requires ReportsSolution(ScenarioInput(base, id, ClampShare(share)), p, solve, run)
    ensures 0.0 <= run.summary.minNonFossilShareTarget <= 1.0
    ensures run.summary.minNonFossilShareTarget == ClampShare(share)
  {
    var input := ScenarioInput(base, id, ClampShare(share));
    SummaryFields(input, p, OutcomeOf(input, p, solve), run.hourly);
  }

  /** A threshold in [0, 1] is labelled with a whole percentage from 0 to
      100. */
  lemma LabelPercentage(threshold: real)
    requires 0.0 <= threshold <= 1.0
    ensures exists n: int :: 0 <= n <= 100 && Label(threshold) == ">=" + IntToString(n) + "% non-fossil"
  {
    var n := RoundHalfEven(threshold * 100.0);
    assert 0 <= n <= 100;
    assert Label(threshold) == ">=" + IntToString(n) + "% non-fossil";
  }
}
