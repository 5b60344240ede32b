# IndiaElecGen capacity-expansion model in Dafny

This project models the core of IndiaElecGen, a single-node capacity-expansion
and hourly-dispatch optimizer for an Indian power system. The system has four
supply technologies (solar, diesel, CCGT and coal) and one battery. The model
covers these parts:

- **Economics** (`economics.dfy`): turns the assumption sheet into model
  parameters. This covers percentages read as fractions, required assumptions
  and the lifetime fallback, the capital recovery factor, ramp rates per hour,
  fixed and variable O&M, and the battery's round-trip efficiency split into
  two square-root legs.
- **The linear program** (`lp.dfy`, `lp_structure.dfy`, `lp_semantics.dfy`):
  the sparse LP that `build_and_solve` builds.
  - The objective is fixed cost, plus variable cost, plus the unserved-energy
    penalty.
  - Each hour has ten constraints: the balance, four generation caps, three
    battery caps, the cyclic state-of-charge equation and the net battery
    flow.
  - An optional fossil cap follows the hourly blocks.
  - Ten ramp constraints follow for every hour after the first.
  - The problem object is a class. Its methods append constraints.
  - The structural lemmas cover the constraint count, distinct names, the
    layout, cyclic storage and ramps that do not wrap.
  - The semantic lemmas cover what any feasible assignment satisfies: the
    balance, the bounds, the annual energy balance, the battery round trip
    and the fossil cap.
- **Extraction** (`extraction.dfy`): the dispatch table read back from the
  solver's values, solar curtailment, served energy, generation shares, LCOE,
  per-technology cost components and the summary record. The lemmas tie the
  summary to the objective and to the constraints.
- **Optimizer** (`optimizer.dfy`): the whole `build_and_solve` run. The
  solver is a parameter.
- **Outputs** (`outputs.dfy`): the cost-breakdown rows and the
  case-insensitive, stable order of the assumptions list.
- **Scenarios** (`scenarios.dfy`): `parse_scenarios`, `DEFAULT_SCENARIOS` and
  the sweep loop that builds one index row per scenario.
- **Server** (`server.dfy`): the frontend's scenario discovery, covering the
  base case, the scenario index or a directory scan, and de-duplication by id.
  It also models the default scenario, the resolution of a requested
  scenario, the clean-up of assumption labels, and the hourly paging window.
- **Support** (`text.dfy`, `sorting.dfy`, `wrappers.dfy`): Python's
  `str.strip`, `str.split`, `str.lower`, `round` (half to even) and
  `str(int)`, a stable sort by key, and the `Option`/`Result` wrappers.

Python exceptions become `Err` values of a `Result`:

- `KeyError` from `need` becomes `MissingAssumption`.
- A lifetime missing with no project-life fallback becomes `MissingLifetime`.
- The division by zero in the capital recovery factor becomes `ZeroDivision`.
- The `iloc[0]` on an empty hourly table becomes `EmptyHorizon`.
- `ValueError` from `parse_scenarios` becomes a parse error.

Values the source computes with floating point are modelled as exact reals.
`math.sqrt`, `**` and `float(str)` are function parameters, and the lemmas
state what they assume about them.

## Model

| member | source | states |
|---|---|---|
| Economics.ToFraction | optimize_power_lp.py:24-27 | a value up to 1 is kept; a larger value is read as a percentage and divided by 100 |
| Economics.ToFractionSettles | optimize_power_lp.py:24-27 | a percentage up to 100 becomes a fraction that a second conversion leaves unchanged; above 100 a second conversion changes it |
| Economics.AnnualizedCapexPerKw | optimize_power_lp.py:30-39 | zero for a non-positive life; capex spread evenly over the life at zero WACC; otherwise capex times the capital recovery factor, failing with a division by zero exactly when (1+wacc)^life is 1 |
| Economics.CapitalRecoveryRoundTrip | optimize_power_lp.py:30-39 | for a non-negative WACC and a whole-year life of at least one year, with `**` evaluating to the true power, paying the annualized capex every year, discounted at the WACC, repays the capex exactly |
| Economics.AnnuityFactorClosedForm | optimize_power_lp.py:37-39 | the discounted sum of n unit payments equals (1 - (1+r)^-n)/r, the inverse of the recovery factor |
| Economics.AnnuityFactorAtZero | optimize_power_lp.py:34-35 | at a zero rate the annuity factor is the number of years, matching the zero-WACC branch |
| Economics.PowAtLeastOne | optimize_power_lp.py:37 | a growth factor of at least 1 raised to a whole power stays at least 1, and exceeds 1 for a positive power |
| Economics.Need | optimize_power_lp.py:92-95 | succeeds exactly when the key is present, returning its value, and otherwise fails naming the key |
| Economics.NeedAll | optimize_power_lp.py:106-136 | all lookups succeed exactly when every key is present, giving the values in key order; otherwise it fails on the first missing key |
| Economics.FirstMissing | optimize_power_lp.py:106-136 | the first key of the list absent from the sheet, with every earlier key present |
| Economics.GetLifetime | optimize_power_lp.py:138-148 | the technology's own lifetime when present, else the project life, else a missing-lifetime error naming the technology key |
| Economics.GetLifetimes | optimize_power_lp.py:138-156 | the lifetimes succeed exactly when the project life or every technology lifetime is present, each agreeing with GetLifetime, and otherwise fail on the first technology key |
| Economics.Lifetimes | optimize_power_lp.py:138-156 | every technology's lifetime agrees with GetLifetime; the error cases are as in GetLifetimes |
| Economics.Annualize | optimize_power_lp.py:166-174 | every technology is annualized with its own capex and life, and the whole fails with a division by zero exactly when one of them does |
| Economics.BatteryDuration | optimize_power_lp.py:113 | the sheet's battery duration, four hours when absent; DeriveParametersSound ties the derived duration to it |
| Economics.CapexBasis | optimize_power_lp.py:166-174 | the upfront cost each technology annualizes: $/kW, and for the battery $/kWh times the duration; DeriveParametersSound states each annualized capex is AnnualizedCapexPerKw of it |
| Economics.FixedOmOf | optimize_power_lp.py:176-183 | fixed O&M per kW-year, the battery's per-kWh figure scaled by the duration; DeriveParametersSound states each derived fixed O&M is it |
| Economics.VarOmOf | optimize_power_lp.py:191-197 | variable O&M per MWh: fuel plus other for diesel, CCGT and coal, zero for solar and the battery; DeriveParametersSound states each derived variable O&M is it |
| Economics.TechParamsOf | optimize_power_lp.py:158-197 | one technology's lifetime, ramp per minute as a fraction and per hour as 60 times that, annualized capex, fixed and variable O&M; AssembleTech states them against the sheet |
| Economics.Assemble | optimize_power_lp.py:158-206 | the parameter set once every lookup has succeeded; AssembleDerived and AssembledLegs state its properties |
| Economics.ClampEfficiency | optimize_power_lp.py:204 | the round-trip efficiency is clamped into [1e-6, 1] and left unchanged when already inside |
| Economics.DeriveParameters | optimize_power_lp.py:106-206 | fails with the first missing cost assumption, then the first missing lifetime, then the first missing ramp assumption, in the source's order; with all present it can fail only by division by zero |
| Economics.DeriveParametersSound | optimize_power_lp.py:106-206 | every derived parameter follows from the sheet as the source computes it: WACC, battery duration and efficiency, degradation factors, square-root legs, project life, and per technology the lifetime, the ramp per minute and per hour, the annualized capex, fixed O&M and variable O&M |
| Economics.DeriveParametersAssembles | optimize_power_lp.py:106-206 | a successful derivation had every cost and ramp assumption and the battery efficiency present, and is an assembly of lifetimes and annualized capex |
| Economics.DeriveParametersSucceeds | optimize_power_lp.py:106-174 | with every assumption present, a lifetime source, a non-negative WACC and a growing power function, the derivation succeeds |
| Economics.AssembleTech | optimize_power_lp.py:158-197 | one technology's parameters follow from the sheet when its lifetime and annualized capex are the source's |
| Economics.AssembleDerived | optimize_power_lp.py:158-206 | all parameters follow from the sheet when every lifetime and annualized capex is the source's |
| Economics.BatteryLegsSplit | optimize_power_lp.py:204-206 | after a successful derivation, the efficiency is in [1e-6, 1] and splits into equal positive legs whose product is the round trip |
| Economics.AssembledLegs | optimize_power_lp.py:204-206 | the same split holds for any assembly of the parameters |
| Economics.SquareRootLegs | optimize_power_lp.py:205-206 | the square root of a positive efficiency is a positive leg whose square is the efficiency |
| LinearProgram.ClampShare | optimize_power_lp.py:288 | the non-fossil share is clamped into [0, 1]: 0 below, 1 above, unchanged inside |
| LinearProgram.SocPredecessor | optimize_power_lp.py:276 | the previous hour is h-1, and the last hour for hour 0, so storage is cyclic |
| LinearProgram.BalanceConstraint | optimize_power_lp.py:254-263 | the hourly balance equation; FeasibleBalance states that a feasible point meets demand with it |
| LinearProgram.CapConstraint | optimize_power_lp.py:265-268 | generation within capacity, solar's scaled by profile and availability; FeasibleGenerationBounds states it |
| LinearProgram.ChargeCapConstraint | optimize_power_lp.py:270 | charge within the battery's power capacity; FeasibleBatteryBounds states it |
| LinearProgram.DischargeCapConstraint | optimize_power_lp.py:271 | discharge within the battery's power capacity; FeasibleBatteryBounds states it |
| LinearProgram.EnergyCapConstraint | optimize_power_lp.py:272-274 | state of charge within capacity times duration times availability; FeasibleBatteryBounds states it |
| LinearProgram.SocConstraint | optimize_power_lp.py:276-282 | the cyclic state-of-charge recurrence; FeasibleStorage and StorageWraps state it |
| LinearProgram.NetConstraint | optimize_power_lp.py:284 | net battery flow is discharge minus charge; FeasibleStorage states it |
| LinearProgram.HourConstraints | optimize_power_lp.py:253-284 | hour h's ten constraints in the order added; HourConstraintsNamed and HourConstraintsDistinct state their shape |
| LinearProgram.FossilCapConstraint | optimize_power_lp.py:288-298 | the fossil cap with served energy moved to the left side; FossilTermsEval and FossilCapRead state that it bounds fossil output by (1 - share) times served energy |
| LinearProgram.RampConstraint | optimize_power_lp.py:304-317 | one up or down ramp limit; FeasibleRamp states it |
| LinearProgram.RampPair | optimize_power_lp.py:304-317 | a technology's up and down ramp limits for hour h; RampsAtNamed states their shape |
| LinearProgram.RampsAt | optimize_power_lp.py:301-317 | hour h's ramp limits, GEN_TECHS then the battery; RampsAtNamed and RampsAtDistinct state their shape |
| LinearProgram.ModelConstraints | optimize_power_lp.py:253-317 | every constraint in the order added; ModelConstraintCount, ModelNamesDistinct and ModelLayout state its structure |
| LinearProgram.ObjectiveTerms | optimize_power_lp.py:243-251 | the objective's terms; ObjectiveValue states their value |
| LinearProgram.LpProblem.constructor | optimize_power_lp.py:211 | a new problem has no objective terms and no constraints |
| LinearProgram.LpProblem.SetObjective | optimize_power_lp.py:243-251 | the objective is replaced and the constraints are unchanged |
| LinearProgram.LpProblem.AddConstraint | optimize_power_lp.py:254-317 | the constraint is appended last and the objective is unchanged |
| LinearProgram.AddHour | optimize_power_lp.py:253-284 | appends hour h's ten constraints in the source's order |
| LinearProgram.AddRamps | optimize_power_lp.py:301-317 | appends hour h's ten ramp constraints, up then down, for GEN_TECHS and then the battery |
| LinearProgram.AddHourBlocks | optimize_power_lp.py:253-284 | appends the hourly blocks of every hour in order |
| LinearProgram.AddRampBlocks | optimize_power_lp.py:301-317 | appends the ramp blocks of hours 1 onward in order |
| LinearProgram.BuildProblem | optimize_power_lp.py:241-317 | the built problem's objective and constraints are exactly the model's objective terms and constraint list |
| LpStructure.HourConstraintsNamed | optimize_power_lp.py:253-284 | hour h has ten hourly constraints, all named after h, all over declared variables |
| LpStructure.HourConstraintsDistinct | optimize_power_lp.py:253-284 | hour h's constraint names are pairwise distinct |
| LpStructure.HourBlocksLength | optimize_power_lp.py:253 | hours 0 to k-1 contribute exactly 10k constraints |
| LpStructure.HourBlocksNamed | optimize_power_lp.py:253-284 | every constraint of hours 0 to k-1 is hourly, belongs to an hour below k and uses declared variables |
| LpStructure.HourBlocksDistinct | optimize_power_lp.py:253-284 | no two constraints of hours 0 to k-1 share a name |
| LpStructure.HourBlocksSlice | optimize_power_lp.py:253-284 | hour h's block is at positions 10h to 10h+9 |
| LpStructure.RampsAtNamed | optimize_power_lp.py:301-317 | hour h has ten ramp constraints, named after h, touching only hours h-1 and h and declared variables |
| LpStructure.RampsAtDistinct | optimize_power_lp.py:301-317 | hour h's ramp names are pairwise distinct |
| LpStructure.RampBlocksLength | optimize_power_lp.py:301 | hours 1 to k-1 contribute 10(k-1) ramp constraints, none for k up to 1 |
| LpStructure.RampBlocksNamed | optimize_power_lp.py:301-317 | every ramp constraint belongs to an hour from 1 to k-1, is local to that hour and its predecessor, and uses declared variables |
| LpStructure.RampBlocksDistinct | optimize_power_lp.py:301-317 | no two ramp constraints share a name |
| LpStructure.RampBlocksSlice | optimize_power_lp.py:301-317 | hour h's ramps are at positions 10(h-1) to 10h-1 |
| LpStructure.FossilTermsDeclared | optimize_power_lp.py:290-296 | the fossil cap uses only declared variables |
| LpStructure.ModelConstraintCount | optimize_power_lp.py:253-317 | 10 constraints per hour, one fossil cap exactly when the clamped share is positive, and 10 ramps per hour after the first |
| LpStructure.ModelNamesDistinct | optimize_power_lp.py:253-317 | every constraint name of the model is unique, as PuLP requires |
| LpStructure.ModelVariablesDeclared | optimize_power_lp.py:213-317 | every term of every constraint is over a declared variable: no battery generation and no hour beyond the horizon |
| LpStructure.ExactlyOneBalance | optimize_power_lp.py:254-263 | each hour has exactly one balance equation, at position 10h |
| LpStructure.ModelLayout | optimize_power_lp.py:253-317 | hourly blocks first, the fossil cap right after them when imposed, then the ramp blocks in hour order |
| LpStructure.StorageWraps | optimize_power_lp.py:276-282 | hour 0's state-of-charge equation refers to the last hour's state of charge |
| LpStructure.RampsDoNotWrap | optimize_power_lp.py:301-317 | every ramp constraint is for an hour h from 1 to H-1 and mentions only hours h-1 and h; for a horizon of three hours or more, no ramp links the first and last hours (at H = 2 the one ramp hour joins hours 0 and 1) |
| LpSemantics.EvalConcat | optimize_power_lp.py:243-251 | a joined linear expression evaluates to the sum of its parts |
| LpSemantics.FossilTermsEval | optimize_power_lp.py:290-296 | the fossil cap's left side is the fossil output plus (1 - share) times the unserved energy |
| LpSemantics.HourConstraintsInModel | optimize_power_lp.py:253-284 | each of hour h's constraints is in the model |
| LpSemantics.RampsInModel | optimize_power_lp.py:301-317 | each of hour h's ramp constraints is in the model |
| LpSemantics.FeasibleBalance | optimize_power_lp.py:254-263 | a feasible assignment meets each hour's demand with generation, net battery discharge and unserved energy |
| LpSemantics.FeasibleHourHolds | optimize_power_lp.py:253-284 | a feasible assignment satisfies each of hour h's ten constraints |
| LpSemantics.FeasibleGenerationBounds | optimize_power_lp.py:265-268 | solar is limited by profile times availability times capacity, and fossil generation by capacity |
| LpSemantics.FeasibleBatteryBounds | optimize_power_lp.py:270-274 | charge and discharge are limited by power capacity, and the state of charge by duration times availability times capacity |
| LpSemantics.FeasibleStorage | optimize_power_lp.py:276-284 | the state of charge follows the cyclic predecessor plus charge losses minus discharge, and net flow is discharge minus charge |
| LpSemantics.RampConstraintInModel | optimize_power_lp.py:301-317 | every technology's up and down ramp for hours 1 to H-1 is in the model |
| LpSemantics.FeasibleRamp | optimize_power_lp.py:301-317 | output changes between consecutive hours by at most the ramp rate times capacity, both up and down |
| LpSemantics.FossilCapInModel | optimize_power_lp.py:288-298 | with a positive clamped share, the fossil cap is in the model |
| LpSemantics.FossilCapRead | optimize_power_lp.py:290-296 | a satisfied fossil cap bounds fossil output by (1 - share) times served energy |
| LpSemantics.FeasibleFossilCap | optimize_power_lp.py:288-298 | when the cap is imposed (positive clamped share), a feasible assignment keeps fossil output within (1 - share) times served energy; with share 0 no cap is added |
| LpSemantics.StoragePrefix | optimize_power_lp.py:276-282 | over the first k hours, charge in minus discharge out equals the change in state of charge |
| LpSemantics.StorageCycleCloses | optimize_power_lp.py:276-282 | over the cyclic horizon, charge gained equals discharge drawn |
| LpSemantics.StorageRoundTrip | optimize_power_lp.py:204-206 | annual discharge equals annual charge times the round-trip efficiency |
| LpSemantics.AnnualBalance | optimize_power_lp.py:254-263 | summed over hours, generation plus net discharge plus unserved energy equals total demand |
| LpSemantics.FixedTermsValue | optimize_power_lp.py:243-245 | the fixed part of the objective is the sum of capacity times 1000 times the fixed cost per kW-year |
| LpSemantics.GenCostValue | optimize_power_lp.py:246-248 | one generator's variable-cost terms evaluate to its annual output times its variable cost |
| LpSemantics.VariableTermsValue | optimize_power_lp.py:246-248 | the variable part is the sum of each generator's annual output times its variable cost |
| LpSemantics.PenaltyValue | optimize_power_lp.py:249 | the penalty part is VOLL times total unserved energy |
| LpSemantics.ObjectiveValue | optimize_power_lp.py:243-251 | the objective is fixed cost plus variable cost plus penalty |
| Extraction.SumColumn | optimize_power_lp.py:351-352 | summing a read-back column gives the series total |
| Extraction.ReadSeries | optimize_power_lp.py:323-343 | the loop reads the solver value of each hour's variable in hour order |
| Extraction.ExtractDispatch | optimize_power_lp.py:323-349 | the dispatch table holds the solver's values, hour by hour, with solar potential and curtailment |
| Extraction.CurtailmentAccounts | optimize_power_lp.py:345-349 | curtailment is non-negative and covers the gap to solar potential; at a feasible point, generation plus curtailment is the potential |
| Extraction.Served | optimize_power_lp.py:353 | served energy is demand minus unserved, floored at 1e-9 |
| Extraction.SharesOf | optimize_power_lp.py:354-366 | fossil and non-fossil shares add up to 1, and each share times served energy is its generation |
| Extraction.Lcoe | optimize_power_lp.py:413 | LCOE times served energy is the objective |
| Extraction.Summarize | optimize_power_lp.py:409-458 | the summary exists exactly when the hourly table is non-empty; otherwise the error is the empty horizon |
| Extraction.CostTable | optimize_power_lp.py:368-400 | the per-technology cost components; CostTableFacts, FixedPartMatches and VariablePartMatches state their sums against the objective |
| Extraction.ServedFloor | optimize_power_lp.py:353 | the summary's served energy is at least 1e-9 and at least demand minus unserved, and equals it above the floor |
| Extraction.CostTableFacts | optimize_power_lp.py:368-407 | each technology's total is capex plus fixed O&M plus variable O&M; the battery has no variable O&M |
| Extraction.ComponentsAddUp | optimize_power_lp.py:368-407 | the summary's cost components add up per technology in the same way |
| Extraction.CostSplitsAgree | optimize_power_lp.py:380-436 | the fixed and variable totals add up to capex plus fixed O&M plus variable O&M |
| Extraction.TechFixedMatches | optimize_power_lp.py:368-384 | a technology's fixed objective term is its annualized capex plus fixed O&M |
| Extraction.FixedPartMatches | optimize_power_lp.py:368-407 | the fixed part of the objective is the capex total plus the fixed O&M total |
| Extraction.VariablePartMatches | optimize_power_lp.py:368-407 | the variable part of the objective is the variable O&M total |
| Extraction.AnnualReads | optimize_power_lp.py:351-352 | annual generation and unserved energy are the solver totals |
| Extraction.ObjectiveParts | optimize_power_lp.py:243-251 | the objective at the solution is the cost table's capex, fixed O&M and variable O&M plus the penalty |
| Extraction.ObjectiveDecomposes | optimize_power_lp.py:409-458 | when the solver reports the objective's value, it is capex plus fixed O&M plus variable O&M plus penalty |
| Extraction.ShareBound | optimize_power_lp.py:288-298 | fossil output within the cap gives a non-fossil share of at least the target |
| Extraction.WithinCapMeetsTarget | optimize_power_lp.py:288-366 | a solution within the fossil cap reports a non-fossil share of at least the target |
| Extraction.TargetMet | optimize_power_lp.py:288-366 | a feasible solution with a positive target reports a non-fossil share of at least that target |
| Extraction.AnnualTotalsBalance | optimize_power_lp.py:254-263 | at a feasible solution the reported annual totals balance demand |
| Extraction.StorageTotalsRead | optimize_power_lp.py:351-352 | a round trip in solver totals carries over to the dispatch table's annual totals |
| Extraction.StorageReported | optimize_power_lp.py:409-458 | the round trip carries over to the summary's annual totals |
| Extraction.AnnualStorageBalance | optimize_power_lp.py:276-282 | at a feasible solution the reported battery discharge is the charge times the round-trip efficiency |
| Optimizer.BuildAndSolve | optimize_power_lp.py:98-464 | fails with the derivation's error, or with the empty horizon for an empty table, and otherwise reports the dispatch and summary of the solver's answer to the built model together with the sheet |
| Optimizer.FeasibleRunBalances | optimize_power_lp.py:254-263 | a run whose solution is feasible reports annual totals that balance demand |
| Optimizer.FeasibleRunStorage | optimize_power_lp.py:276-282 | such a run reports discharge equal to charge times the round-trip efficiency |
| Optimizer.FeasibleRunMeetsTarget | optimize_power_lp.py:288-298 | such a run with a positive target meets it |
| Optimizer.ReportedObjectiveDecomposes | optimize_power_lp.py:409-458 | the reported objective is capex plus fixed O&M plus variable O&M plus penalty |
| Outputs.CostRows | optimize_power_lp.py:485-510 | the nested loop produces exactly the breakdown rows |
| Outputs.CostRowsOf | optimize_power_lp.py:485-510 | the breakdown rows; CostRowsShape and CostRowsTotals state their layout and sums |
| Outputs.CostRowsShape | optimize_power_lp.py:485-510 | three rows per technology in ALL_TECHS order, each with its bucket, name, component and cost, then the penalty row |
| Outputs.CostRowsTotals | optimize_power_lp.py:485-510 | the fixed bucket sums capex and fixed O&M, the variable bucket sums variable O&M, the penalty bucket holds the penalty, and the rows sum to the total cost |
| Outputs.BreakdownMatches | optimize_power_lp.py:402-436 | the bucket totals equal the summary's fixed, variable and penalty totals |
| Outputs.SummaryRowsAgree | optimize_power_lp.py:485-510 | the breakdown written for a run agrees with the run's summary totals |
| Outputs.AssumptionRows | optimize_power_lp.py:482 | the assumption rows are a permutation of the sheet, sorted by lower-cased name |
| Outputs.AssumptionRowsStable | optimize_power_lp.py:482 | names that differ only in case keep their original order |
| Sorting.SortBySorted | optimize_power_lp.py:482 | the stable sort yields keys in order |
| Sorting.SortByStable | optimize_power_lp.py:482 | the elements with any one key keep their relative order |
| Sorting.InsertSorted | optimize_power_lp.py:482 | inserting into a sorted list keeps it sorted |
| Scenarios.ParseScenariosSpec | run_non_fossil_scenarios.py:23-46 | a missing or empty option gives the defaults; a success is never empty |
| Scenarios.ParseScenarios | run_non_fossil_scenarios.py:23-46 | the loop computes the parse of the option |
| Scenarios.ParsePiece | run_non_fossil_scenarios.py:33-42 | one stripped piece; NamedPiece and BarePiece state both branches |
| Scenarios.ParseAll | run_non_fossil_scenarios.py:27-43 | the loop's scenarios, in order, stopping at the first bad piece; ParseAllSucceeds, ParseAllInOrder and ErrorPersists state it |
| Scenarios.ErrorPersists | run_non_fossil_scenarios.py:28-42 | once a piece fails to parse, the whole parse fails with that error |
| Scenarios.ParseAllSucceeds | run_non_fossil_scenarios.py:28-42 | parsing succeeds exactly when every non-blank piece parses |
| Scenarios.ParseAllInOrder | run_non_fossil_scenarios.py:28-42 | a success has one scenario per non-blank stripped piece, in order |
| Scenarios.NamedPiece | run_non_fossil_scenarios.py:33-36 | name:value splits at the first colon; the stripped name has no colon, and the share is the value as given |
| Scenarios.BarePiece | run_non_fossil_scenarios.py:37-42 | a bare number above 1 is a percentage divided by 100; the name is nf followed by the nearest whole percentage |
| Scenarios.RunSweep | run_non_fossil_scenarios.py:86-120 | fails exactly when there is a scenario and the run fails; otherwise there is one index row per scenario, in order, reporting that scenario's run |
| Scenarios.ThresholdEnforced | run_non_fossil_scenarios.py:88-89 | each run enforces the clamped threshold, a share in [0, 1] |
| Scenarios.LabelPercentage | run_non_fossil_scenarios.py:107 | a threshold in [0, 1] is labelled with a whole percentage from 0 to 100 |
| Scenarios.Label | run_non_fossil_scenarios.py:107 | the scenario's label; LabelPercentage states its percentage |
| Scenarios.IndexRowOf | run_non_fossil_scenarios.py:105-119 | one index row; RunSweep states that each row carries the scenario's stripped id, clamped threshold and run summary |
| Server.FilesForDir | frontend/server.py:33-38 | the summary, hourly and cost files are three distinct files in the directory |
| Server.ScenarioExists | frontend/server.py:45-47 | all three result files are present; OfferedScenariosExist and ResolveScenarioDir state where it holds |
| Server.Candidates | frontend/server.py:59-113 | the list before de-duplication; OfferedScenariosExist and BaseOfferedFirst state its content |
| Server.Dedup | frontend/server.py:115-125 | de-duplication by id; DedupFirstAppearances, DedupKeepsIds and DedupDistinct state it |
| Server.CollectIndexed | frontend/server.py:72-101 | the loop over index rows keeps the entries with a non-blank id whose results exist |
| Server.CollectScanned | frontend/server.py:102-113 | the scan keeps the sorted sub-directories whose results exist |
| Server.GatherScenarios | frontend/server.py:59-113 | base case first when present, then the index when it exists, else the scan |
| Server.DedupById | frontend/server.py:115-125 | the loop keeps each entry whose id was not seen before |
| Server.DiscoverScenarios | frontend/server.py:59-125 | discovery is the de-duplicated candidate list |
| Server.DedupKeepsIds | frontend/server.py:115-125 | de-duplication keeps every id |
| Server.DedupFirstAppearances | frontend/server.py:115-125 | de-duplication keeps exactly the first appearance of each id, in order |
| Server.DedupDistinct | frontend/server.py:115-125 | the de-duplicated ids are distinct |
| Server.DedupPrefix | frontend/server.py:115-125 | de-duplicating a longer list extends the de-duplication of its prefix |
| Server.DedupSubset | frontend/server.py:115-125 | every kept entry was a candidate |
| Server.BaseOfferedFirst | frontend/server.py:62-70 | when the base outputs exist, the base case is offered first |
| Server.OfferedScenariosExist | frontend/server.py:45-113 | every candidate's results exist; index entries have non-blank stripped ids in the scenario root; scanned entries are directories there and appear only without an index |
| Server.DefaultScenarioId | frontend/server.py:128-137 | the loop picks the default id |
| Server.DefaultIdOf | frontend/server.py:128-137 | the default id; DefaultIdChoice states the choice |
| Server.DefaultIdChoice | frontend/server.py:128-137 | none exactly when nothing is offered; otherwise the first id other than base, or the first id when all are base |
| Server.ResolveScenarioDir | frontend/server.py:140-165 | a non-blank request resolves to its stripped id and that id's directory (OUTPUT_DIR for base, else the scenario root's child), failing as not found exactly when the id's result files are missing, whether or not discovery offers it; a blank or whitespace-only request opens `DefaultIdOf` of the de-duplicated discovery list by the same mapping and existence test, and fails with no outputs when that list is empty; any resolved directory holds the results |
| Server.BlankRequestWithoutScenarios | frontend/server.py:140-165 | a blank request fails with no outputs exactly when nothing is offered |
| Server.OfferedScenarioResolves | frontend/server.py:140-165 | requesting an offered non-base scenario by its id opens the directory discovery found |
| Server.CollapseSpaceShape | frontend/server.py:193-200 | collapsing whitespace leaves no whitespace runs, keeps ASCII, and starts with a space only if the input did |
| Server.CollapseSpaceFixed | frontend/server.py:193-200 | collapsing whitespace in singly spaced text changes nothing |
| Server.CleanAssumptionLabel | frontend/server.py:193-200 | the cleaned label; CleanLabelShape and CleanLabelIdempotent state its properties |
| Server.CleanLabelShape | frontend/server.py:193-200 | a cleaned label is ASCII, stripped, singly spaced and never nan in any case |
| Server.CleanLabelIdempotent | frontend/server.py:193-200 | cleaning a cleaned label changes nothing |
| Server.HourlyWindow | frontend/server.py:241-263 | total rows is the table length; empty exactly when start is at or past the end; otherwise rows start to end, with end at most start plus length and cut only by the table's end |
| Server.PagesCoverTable | frontend/server.py:250-254 | paging from any row returns every later row once, in order |
| Text.Strip | run_non_fossil_scenarios.py:29 | a stripped string has no outer whitespace and is no longer than the input |
| Text.StripIsSlice | run_non_fossil_scenarios.py:29 | strip removes exactly the leading and trailing whitespace |
| Text.StripNoOuterSpace | run_non_fossil_scenarios.py:29 | strip leaves a string without outer whitespace unchanged |
| Text.Split | run_non_fossil_scenarios.py:28 | split gives at least one piece and no piece holds the separator |
| Text.JoinSplit | run_non_fossil_scenarios.py:28 | joining the pieces with the separator gives back the string |
| Text.Lower | optimize_power_lp.py:482 | lower-casing maps each ASCII capital to its small letter and keeps every other character, keeping the length; LowerIdempotent and LowerFixesNoUpper state what callers rely on |
| Text.LowerHasNoUpper | optimize_power_lp.py:482 | lower-cased text holds no ASCII capital |
| Text.LowerFixesNoUpper | frontend/server.py:200 | text without ASCII capitals is its own lower case |
| Text.LowerIdempotent | frontend/server.py:200 | lower-casing twice is lower-casing once |
| Text.NatToStringRoundTrip | run_non_fossil_scenarios.py:41 | reading back a number's decimal digits gives the number |
| Text.RoundHalfEven | run_non_fossil_scenarios.py:41 | round is within 1/2 of its argument, and at a tie it is even |
| Text.RoundHalfEvenUnique | run_non_fossil_scenarios.py:41 | any integer with those properties is the rounded value |

## Left out

- The CBC solve is a parameter. The model states what holds for any answer, and what holds when the answer is feasible or its objective is reported.
- `load_input_data` is left out. It reads the Excel workbook and CSV, so the hourly table and the assumption sheet are inputs.
- File writing in `write_outputs` is left out: CSV, JSON, `mkdir`, and timestamp formatting. The rows it writes are modelled.
- FastAPI routing, query validation, HTTP responses and `lru_cache` are left out. Query validation gives `start >= 0` and `1 <= length <= 8784`, which become preconditions.
- `_clean_assumption_value`, `_assumptions_file_for_dir`, the summary, cost and assumptions endpoints and the workbook fallback are left out. They only load and serialise data.
- Floating point is modelled as exact reals. Rounding error, NaN and infinity are out of scope.
- `math.sqrt`, `**` and `float(str)` are parameters. Lemmas that need them assume they behave as a square root, an integer power or a number parser.
- The scenario index is a parameter: either the list of rows of a non-empty JSON object or nothing. Nothing stands for a missing file, malformed JSON, or a falsy JSON value such as `{}`, as `_load_scenario_index` returns `None` or the `if index:` test fails there. An object without a `scenarios` key gives an empty row list, and then the directory scan is not used.
- Server.DiscoverScenarios: index cases in which the source raises an exception are not modelled. These are an I/O or UTF-8 decoding error while reading the file, a non-empty JSON array or other non-object value (`index.get` fails), and a row that is not an object (`row.get` fails). The model has no error result for discovery.
- Filesystem paths are lists of components. `resolve()` and symbolic links are out of scope, and file existence is a predicate parameter.
- Server.ResolveScenarioDir: an id is appended to the scenario root as one path component. pathlib's `SCENARIO_ROOT / scenario_id` splits an id on `/`, keeps `..` for the operating system to follow, and lets an absolute id replace the root. So in the source a request such as `?scenario=../x` or `?scenario=/srv/x` opens any directory holding the three result files. The model does not capture this path traversal.
- Scenarios.RunSweep: the output directory `output_root / scenario_name` is modelled as one appended component. In the source a name containing `/` nests directories, and an empty name (for example from `:0.5`) writes into `output_root` itself.
- Dictionary iteration order is a sequence given as input.
- `str()` of non-string ids in the index is out of scope. Ids are strings. Labels are too: `row.get("label", scenario_id)` hands back a present `null` or non-string label as it is. The model's `labelText` is either absent, when the id is used, or a string.
- Server.OfferedScenarioResolves: covers only ids other than "base" without outer whitespace. An index row with id "base" is offered under the scenario root, but resolving "base" opens OUTPUT_DIR.
- Text.Lower: covers only ASCII. Python's `str.lower` on other letters is out of scope.
- Timestamps are opaque strings. The summary's start and end times are the first and last hourly rows' timestamps, but their `.isoformat()` text is not modelled.
- Printing, `argparse` and `main` are left out.
