/** `build_and_solve`: derive the parameters from the assumption sheet, build
    the linear program, hand it to the solver, read the dispatch table back
    and summarize the run.

    The CBC solve is not modelled: the solver is a parameter that maps the
    objective and the constraints to a status, an optional objective value
    and the values of the variables it reports. */
module Optimizer {
  import opened Wrappers
  import opened Errors
  import opened Economics
  import opened LinearProgram
  import opened LpSemantics
  import opened Extraction

  /** What `build_and_solve` returns: the hourly table, the summary and the
      assumption sheet it used. */
  datatype RunResult = RunResult(hourly: Dispatch, summary: Summary, assumptions: Assumptions)

  /** The solver call `problem.solve(...)` with its reported values. */
  type Solver = (seq<Term>, seq<Constraint>) -> SolverOutcome

  /** The parameters and the solver's answer for a sheet whose derivation
      succeeds. */
  function ParamsOf(a: Assumptions, sqrt: real -> real, pow: (real, real) -> real): Params
    requires DeriveParameters(a, sqrt, pow).Ok?
  {
    DeriveParameters(a, sqrt, pow).value
  }

  function OutcomeOf(input: ModelInput, p: Params, solve: Solver): SolverOutcome
    requires p.etaDischarge > 0.0
  {
    solve(ObjectiveTerms(input, p), ModelConstraints(input, p))
  }

  /** A run's result is the dispatch table read from the solver's answer to
      the model's problem, and the summary of that table. */
  ghost predicate ReportsSolution(input: ModelInput, p: Params, solve: Solver, res: RunResult)
    requires p.etaDischarge > 0.0
  {
    var out := OutcomeOf(input, p, solve);
    && ReadsSolution(input, out, res.hourly)
    && SolarColumns(input, p, out, res.hourly)
    && Summarize(input, p, out, res.hourly) == Ok(res.summary)
  }

  /** The whole run. It fails with the derivation's error when an assumption
      or a lifetime is missing or the capital recovery factor divides by
      zero, and with `EmptyHorizon` when the hourly table has no rows;
      otherwise it reports the solver's answer to exactly the model's LP. */
  method BuildAndSolve(input: ModelInput, a: Assumptions, sqrt: real -> real, pow: (real, real) -> real,
                       solve: Solver)
    returns (r: Result<RunResult, Error>)
    requires IsSqrt(sqrt)
    ensures DeriveParameters(a, sqrt, pow).Err? ==> r == Err(DeriveParameters(a, sqrt, pow).error)
    ensures DeriveParameters(a, sqrt, pow).Ok? && input.hourly == [] ==> r == Err(EmptyHorizon)
    ensures r.Err? ==> DeriveParameters(a, sqrt, pow).Err? || input.hourly == []
    ensures r.Ok? ==>
      && DeriveParameters(a, sqrt, pow).Ok? && input.hourly != []
      && ParamsOf(a, sqrt, pow).etaDischarge > 0.0
      && r.value.assumptions == a
      && ReportsSolution(input, ParamsOf(a, sqrt, pow), solve, r.value)
  {
    var p :- DeriveParameters(a, sqrt, pow);
    BatteryLegsSplit(a, sqrt, pow);
    var problem := BuildProblem(input, p);
    var out := solve(problem.objective, problem.constraints);
    var d := ExtractDispatch(input, p, out);
    var summary :- Summarize(input, p, out, d);
    r := Ok(RunResult(d, summary, a));
  }

  /** A run whose solver values satisfy the model's constraints reports an
      annual energy balance that closes: generation plus the battery's net
      discharge plus unserved energy is the year's demand. */
  lemma FeasibleRunBalances(input: ModelInput, p: Params, solve: Solver, res: RunResult)
    requires p.etaDischarge > 0.0 && ReportsSolution(input, p, solve, res)
    requires Feasible(input, p, Solution(OutcomeOf(input, p, solve)))
    ensures var r, g := res.summary, res.summary.annualGeneration;
      g.solar + g.diesel + g.ccgt + g.coal + g.batteryDischarge - g.batteryCharge + r.unserved == r.totalDemand
  {
    AnnualTotalsBalance(input, p, OutcomeOf(input, p, solve), res.hourly);
  }

  /** Such a run reports a battery that discharges its round-trip efficiency
      times what it charges, when the two legs multiply to that efficiency
      (as `BatteryLegsSplit` shows for derived parameters). */
  lemma FeasibleRunStorage(input: ModelInput, p: Params, solve: Solver, res: RunResult)
    requires p.etaDischarge > 0.0 && ReportsSolution(input, p, solve, res)
    requires Feasible(input, p, Solution(OutcomeOf(input, p, solve)))
    requires p.etaCharge * p.etaDischarge == p.batteryEff
    ensures RoundTripHolds(res.summary.annualGeneration, p.batteryEff)
  {
    AnnualStorageBalance(input, p, OutcomeOf(input, p, solve), res.hourly);
  }

  /** Such a run meets a positive non-fossil target. */
  lemma FeasibleRunMeetsTarget(input: ModelInput, p: Params, solve: Solver, res: RunResult)
    requires p.etaDischarge > 0.0 && ReportsSolution(input, p, solve, res)
    requires Feasible(input, p, Solution(OutcomeOf(input, p, solve)))
    requires res.summary.minNonFossilShareTarget > 0.0
    ensures res.summary.nonFossilShare >= res.summary.minNonFossilShareTarget
  {
    SummaryFields(input, p, OutcomeOf(input, p, solve), res.hourly);
    TargetMet(input, p, OutcomeOf(input, p, solve), res.hourly);
  }

  /** When the solver reports the objective's value at its solution, the
      run's objective is its capex, fixed O&M, variable O&M and penalty
      totals. */
  lemma ReportedObjectiveDecomposes(input: ModelInput, p: Params, solve: Solver, res: RunResult)
    requires p.etaDischarge > 0.0 && ReportsSolution(input, p, solve, res)
    requires var out := OutcomeOf(input, p, solve);
      out.objective == Some(Eval(ObjectiveTerms(input, p), Solution(out)))
    ensures var r := res.summary;
      r.objective == r.capexTotal + r.fixedOmTotal + r.varOmTotal + r.unservedPenalty
  {
    ObjectiveDecomposes(input, p, OutcomeOf(input, p, solve), res.hourly);
  }
}
