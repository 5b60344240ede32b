/** Reading the solution back: the hourly dispatch table, the annual totals,
    the served-energy shares, the per-technology cost components and the
    summary `build_and_solve` returns. The solver itself is not modelled; what
    it hands back is a `SolverOutcome`. */
module Extraction {
  import opened Wrappers
  import opened Errors
  import opened Economics
  import opened LinearProgram
  import opened LpSemantics

  /** What the solver reports: pulp's status name, the objective's value when
      it has one, and the value of every variable that received one. */
  datatype SolverOutcome = SolverOutcome(status: string, objective: Option<real>, values: map<Var, real>)

  /** `float(v.value() or 0.0)`: a variable without a value reads as 0. */
  function ValueOf(out: SolverOutcome, v: Var): real {
    if v in out.values then out.values[v] else 0.0
  }

  /** The solution as an assignment of every variable. */
  function Solution(out: SolverOutcome): Assignment {
    v => ValueOf(out, v)
  }

  /** The first k hours of a series, as a column of the result table. */
  function Column(x: Assignment, s: Series, k: nat): (col: seq<real>)
    ensures |col| == k
  {
    seq(k, h requires 0 <= h < k => x(At(s, h)))
  }

  /** `Series.sum()` */
  function Sum(s: seq<real>): real {
    if s == [] then 0.0 else Sum(s[..|s| - 1]) + s[|s| - 1]
  }

  /** A column's sum is the series' total. */
  lemma {:induction false} SumColumn(x: Assignment, s: Series, k: nat)
    ensures Sum(Column(x, s, k)) == Total(x, s, k)
  {
    if k > 0 {
      SumColumn(x, s, k - 1);
      assert Column(x, s, k)[..k - 1] == Column(x, s, k - 1);
    }
  }

  /** `hourly_out`: the input table with the dispatch columns added. */
  datatype Dispatch = Dispatch(
    hourly: seq<HourRow>,
    genSolar: seq<real>,
    genDiesel: seq<real>,
    genCcgt: seq<real>,
    genCoal: seq<real>,
    charge: seq<real>,
    discharge: seq<real>,
    net: seq<real>,
    soc: seq<real>,
    unserved: seq<real>,
    solarPotential: seq<real>,
    solarCurtailment: seq<real>)

  /** The dispatch columns the solution determines. */
  ghost predicate ReadsSolution(input: ModelInput, out: SolverOutcome, d: Dispatch) {
    var x, hours := Solution(out), Hours(input);
    (d.hourly, d.genSolar, d.genDiesel, d.genCcgt, d.genCoal, d.charge, d.discharge, d.net, d.soc, d.unserved)
    == (input.hourly, Column(x, GenOf(Solar), hours), Column(x, GenOf(Diesel), hours),
        Column(x, GenOf(Ccgt), hours), Column(x, GenOf(Coal), hours), Column(x, ChargeOf, hours),
        Column(x, DischargeOf, hours), Column(x, NetOf, hours), Column(x, SocOf, hours),
        Column(x, UnservedOf, hours))
  }

  /** The solar columns: the potential is profile x installed capacity x
      availability, and the curtailment is what of it was not generated,
      clipped at zero. */
  ghost predicate SolarColumns(input: ModelInput, p: Params, out: SolverOutcome, d: Dispatch) {
    && |d.solarPotential| == |d.solarCurtailment| == |d.genSolar| == Hours(input)
    && forall h :: 0 <= h < Hours(input) ==>
         && d.solarPotential[h] == input.hourly[h].solarProfile * ValueOf(out, Capacity(Solar)) * p.solarAvailable
         && d.solarCurtailment[h] == Max(0.0, d.solarPotential[h] - d.genSolar[h])
  }

  /** `[float(v[h].value() or 0.0) for h in hours]` for one series. */
  method ReadSeries(out: SolverOutcome, s: Series, hours: nat) returns (col: seq<real>)
    ensures col == Column(Solution(out), s, hours)
  {
    col := [];
    for h := 0 to hours
      invariant col == Column(Solution(out), s, h)
    {
      assert Column(Solution(out), s, h + 1) == Column(Solution(out), s, h) + [ValueOf(out, At(s, h))];
      col := col + [ValueOf(out, At(s, h))];
    }
  }

  /** Fills the dispatch columns of `hourly_out` from the solution, then the
      solar potential and its clipped curtailment. */
  method ExtractDispatch(input: ModelInput, p: Params, out: SolverOutcome) returns (d: Dispatch)
    ensures ReadsSolution(input, out, d)
    ensures SolarColumns(input, p, out, d)
  {
    var hours := Hours(input);
    var genSolar := ReadSeries(out, GenOf(Solar), hours);
    var genDiesel := ReadSeries(out, GenOf(Diesel), hours);
    var genCcgt := ReadSeries(out, GenOf(Ccgt), hours);
    var genCoal := ReadSeries(out, GenOf(Coal), hours);
    var charge := ReadSeries(out, ChargeOf, hours);
    var discharge := ReadSeries(out, DischargeOf, hours);
    var net := ReadSeries(out, NetOf, hours);
    var soc := ReadSeries(out, SocOf, hours);
    var unserved := ReadSeries(out, UnservedOf, hours);
    var installedSolar := ValueOf(out, Capacity(Solar));
    var potential, curtailment := [], [];
    for h := 0 to hours
      invariant |potential| == |curtailment| == h
      invariant forall j :: 0 <= j < h ==>
        && potential[j] == input.hourly[j].solarProfile * installedSolar * p.solarAvailable
        && curtailment[j] == Max(0.0, potential[j] - genSolar[j])
    {
      var pot := input.hourly[h].solarProfile * installedSolar * p.solarAvailable;
      potential := potential + [pot];
      curtailment := curtailment + [Max(0.0, pot - genSolar[h])];
    }
    d := Dispatch(input.hourly, genSolar, genDiesel, genCcgt, genCoal, charge, discharge, net, soc, unserved,
                  potential, curtailment);
  }

  /** Curtailment is never negative and, with the solar generation, makes up
      at least the potential; under a feasible solution generation never
      exceeds the potential, so the two make up exactly the potential. */
  lemma CurtailmentAccounts(input: ModelInput, p: Params, out: SolverOutcome, d: Dispatch, h: nat)
    requires ReadsSolution(input, out, d) && SolarColumns(input, p, out, d) && h < Hours(input)
    ensures d.solarCurtailment[h] >= 0.0
    ensures d.genSolar[h] + d.solarCurtailment[h] >= d.solarPotential[h]
    ensures p.etaDischarge > 0.0 && Feasible(input, p, Solution(out)) ==>
      d.genSolar[h] + d.solarCurtailment[h] == d.solarPotential[h]
  {
    if p.etaDischarge > 0.0 && Feasible(input, p, Solution(out)) {
      FeasibleGenerationBounds(input, p, Solution(out), h);
      assert Column(Solution(out), GenOf(Solar), Hours(input))[h] == Solution(out)(At(GenOf(Solar), h));
      var cap := ValueOf(out, Capacity(Solar));
      var prof := input.hourly[h].solarProfile;
      assert (prof * p.solarAvailable) * cap == prof * cap * p.solarAvailable;
    }
  }

  // ---------------------------------------------------------------------
  // Annual totals, shares and costs.

  /** `annual_generation`: the column sums of the generators and the
      battery's two flows. */
  datatype AnnualGeneration = AnnualGeneration(
    solar: real, diesel: real, ccgt: real, coal: real, batteryCharge: real, batteryDischarge: real)
  {
    /** `annual_generation.get(tech, 0.0)`: the battery has no entry. */
    function Get(t: Tech): real {
      match t
      case Solar => solar
      case Battery => 0.0
      case Diesel => diesel
      case Ccgt => ccgt
      case Coal => coal
    }
  }

  /** Over the year the battery discharges `eff` times what it charges. */
  predicate RoundTripHolds(g: AnnualGeneration, eff: real) {
    RoundTrip(g.batteryCharge, g.batteryDischarge, eff)
  }

  function Annual(d: Dispatch): AnnualGeneration {
    AnnualGeneration(Sum(d.genSolar), Sum(d.genDiesel), Sum(d.genCcgt), Sum(d.genCoal), Sum(d.charge), Sum(d.discharge))
  }

  /** One entry of `cost_components_by_technology`. */
  datatype CostComponents = CostComponents(capexAnnualized: real, fixedOm: real, varOm: real, total: real)

  /** A technology's cost components: capacity in MW x 1000 x the per-kW-yr
      costs, and the annual generation x the per-MWh cost. */
  function Components(capacity: real, tp: TechParams, annualGen: real): CostComponents {
    var capex := capacity * 1000.0 * tp.annualizedCapex;
    var fixedOm := capacity * 1000.0 * tp.fixedOm;
    var varOm := annualGen * tp.varOm;
    CostComponents(capex, fixedOm, varOm, capex + fixedOm + varOm)
  }

  function TechComponents(p: Params, capacity: PerTech<real>, ag: AnnualGeneration, t: Tech): CostComponents {
    Components(capacity.Of(t), p.Of(t), ag.Get(t))
  }

  /** The sum of a per-technology quantity over ALL_TECHS. */
  function SumTechs(v: PerTech<real>): real {
    v.solar + v.battery + v.diesel + v.ccgt + v.coal
  }

  /** The served energy, floored at 1e-9 so that the shares are defined. */
  function Served(demandTotal: real, unservedTotal: real): (served: real)
    ensures served >= 0.000000001 && served >= demandTotal - unservedTotal
    ensures demandTotal - unservedTotal >= 0.000000001 ==> served == demandTotal - unservedTotal
  {
    Max(0.000000001, demandTotal - unservedTotal)
  }

  /** The achieved shares of served energy. */
  datatype Shares = Shares(fossil: real, nonFossil: real, solar: real)

  /** Fossil share = (diesel + CCGT + coal) / served, non-fossil share = one
      minus it, and solar share = solar / served; battery discharge is not
      counted. */
  function SharesOf(ag: AnnualGeneration, served: real): (s: Shares)
    requires served > 0.0
    ensures s.fossil + s.nonFossil == 1.0
    ensures s.fossil * served == ag.diesel + ag.ccgt + ag.coal
    ensures s.solar * served == ag.solar
  {
    var fossil := (ag.diesel + ag.ccgt + ag.coal) / served;
    Shares(fossil, 1.0 - fossil, ag.solar / served)
  }

  /** The levelized cost: the objective per MWh served. */
  function Lcoe(objective: real, served: real): (lcoe: real)
    requires served > 0.0
    ensures lcoe * served == objective
  {
    objective / served
  }

  /** The summary record of a run. */
  datatype Summary = Summary(
    scenarioName: string,
    status: string,
    objective: real,
    lcoe: real,                      // $/MWh served
    totalDemand: real,
    served: real,
    unserved: real,
    minNonFossilShareTarget: real,   // the clamped target
    fossilShare: real,               // of served energy
    nonFossilShare: real,
    solarShare: real,
    capacity: PerTech<real>,
    annualGeneration: AnnualGeneration,
    components: PerTech<CostComponents>,
    capexTotal: real,                // cost_component_totals
    fixedOmTotal: real,
    varOmTotal: real,
    unservedPenalty: real,
    fixedCost: PerTech<real>,        // fixed_cost_usd
    variableCost: map<Tech, real>,   // variable_cost_usd, generators only
    totalFixedCost: real,
    totalVariableCost: real,
    voll: real,
    params: Params,                  // wacc, lifetimes, battery and ramp parameters echoed back
    hoursModeled: nat,
    timestampStart: string,
    timestampEnd: string)

  /** The capacities the solution gives. */
  function Capacities(out: SolverOutcome): PerTech<real> {
    PerTech(ValueOf(out, Capacity(Solar)), ValueOf(out, Capacity(Battery)), ValueOf(out, Capacity(Diesel)),
            ValueOf(out, Capacity(Ccgt)), ValueOf(out, Capacity(Coal)))
  }

  function CostTable(p: Params, capacity: PerTech<real>, ag: AnnualGeneration): PerTech<CostComponents> {
    PerTech(TechComponents(p, capacity, ag, Solar), TechComponents(p, capacity, ag, Battery),
            TechComponents(p, capacity, ag, Diesel), TechComponents(p, capacity, ag, Ccgt),
            TechComponents(p, capacity, ag, Coal))
  }

  function CapexColumn(c: PerTech<CostComponents>): PerTech<real> {
    PerTech(c.solar.capexAnnualized, c.battery.capexAnnualized, c.diesel.capexAnnualized,
            c.ccgt.capexAnnualized, c.coal.capexAnnualized)
  }

  function FixedOmColumn(c: PerTech<CostComponents>): PerTech<real> {
    PerTech(c.solar.fixedOm, c.battery.fixedOm, c.diesel.fixedOm, c.ccgt.fixedOm, c.coal.fixedOm)
  }

  function VarOmColumn(c: PerTech<CostComponents>): PerTech<real> {
    PerTech(c.solar.varOm, c.battery.varOm, c.diesel.varOm, c.ccgt.varOm, c.coal.varOm)
  }

  /** fixed_cost_usd: annualized capex plus fixed O&M. */
  function FixedCostColumn(c: PerTech<CostComponents>): PerTech<real> {
    PerTech(c.solar.capexAnnualized + c.solar.fixedOm, c.battery.capexAnnualized + c.battery.fixedOm,
            c.diesel.capexAnnualized + c.diesel.fixedOm, c.ccgt.capexAnnualized + c.ccgt.fixedOm,
            c.coal.capexAnnualized + c.coal.fixedOm)
  }

  /** The summary of a run; the source reads the first and last timestamps,
      which fails on an empty horizon. */
  function Summarize(input: ModelInput, p: Params, out: SolverOutcome, d: Dispatch): (r: Result<Summary, Error>)
    ensures r.Ok? <==> d.hourly != []
    ensures r.Err? ==> r.error == EmptyHorizon
  {
    if d.hourly == [] then Err(EmptyHorizon)
    else
      var demandTotal := TotalDemand(d.hourly);
      var unservedTotal := Sum(d.unserved);
      var served := Served(demandTotal, unservedTotal);
      var ag := Annual(d);
      var shares := SharesOf(ag, served);
      var objective := out.objective.GetOr(0.0);
      var capacity := Capacities(out);
      var costs := CostTable(p, capacity, ag);
      var variable := map[Solar := costs.solar.varOm, Diesel := costs.diesel.varOm,
                          Ccgt := costs.ccgt.varOm, Coal := costs.coal.varOm];
      Ok(Summary(
        input.scenarioName, out.status, objective, Lcoe(objective, served),
        demandTotal, served, unservedTotal, ClampShare(input.minNonFossilShare),
        shares.fossil, shares.nonFossil, shares.solar,
        capacity, ag, costs,
        SumTechs(CapexColumn(costs)), SumTechs(FixedOmColumn(costs)), SumTechs(VarOmColumn(costs)),
        PenaltyCost(unservedTotal, input.voll),
        FixedCostColumn(costs), variable,
        SumTechs(FixedCostColumn(costs)),
        costs.solar.varOm + costs.diesel.varOm + costs.ccgt.varOm + costs.coal.varOm,
        input.voll, p, |d.hourly|,
        d.hourly[0].timestamp, d.hourly[|d.hourly| - 1].timestamp))
  }

  // ---------------------------------------------------------------------
  // What the summary promises.

  /** Served energy is floored at 1e-9 and is otherwise demand minus
      unserved energy. */
  lemma ServedFloor(input: ModelInput, p: Params, out: SolverOutcome, d: Dispatch)
    requires Summarize(input, p, out, d).Ok?
    ensures var r := Summarize(input, p, out, d).value;
      && r.served >= 0.000000001
      && r.served >= r.totalDemand - r.unserved
      && (r.totalDemand - r.unserved >= 0.000000001 ==> r.served == r.totalDemand - r.unserved)
  {
  }

  /** Each technology's total in a cost table is its three components, and
      the battery and, with zero per-MWh cost, solar have no variable cost. */
  lemma CostTableFacts(p: Params, capacity: PerTech<real>, ag: AnnualGeneration)
    ensures var c := CostTable(p, capacity, ag);
      && (forall t: Tech :: c.Of(t).total == c.Of(t).capexAnnualized + c.Of(t).fixedOm + c.Of(t).varOm)
      && c.battery.varOm == 0.0
      && (p.Of(Solar).varOm == 0.0 ==> c.solar.varOm == 0.0)
  {
  }

  /** The same for the summary's cost table. */
  lemma ComponentsAddUp(input: ModelInput, p: Params, out: SolverOutcome, d: Dispatch)
    requires Summarize(input, p, out, d).Ok?
    ensures var c := Summarize(input, p, out, d).value.components;
      && (forall t: Tech :: c.Of(t).total == c.Of(t).capexAnnualized + c.Of(t).fixedOm + c.Of(t).varOm)
      && c.battery.varOm == 0.0
      && (p.Of(Solar).varOm == 0.0 ==> c.solar.varOm == 0.0)
  {
    SummaryCostFields(input, p, out, d);
    CostTableFacts(p, Capacities(out), Annual(d));
  }

  /** Fixed plus variable cost is capex plus fixed O&M plus var O&M when the
      battery has no variable cost. */
  lemma SplitArithmetic(c: PerTech<CostComponents>)
    requires c.battery.varOm == 0.0
    ensures SumTechs(FixedCostColumn(c)) + (c.solar.varOm + c.diesel.varOm + c.ccgt.varOm + c.coal.varOm)
         == SumTechs(CapexColumn(c)) + SumTechs(FixedOmColumn(c)) + SumTechs(VarOmColumn(c))
  {
  }

  /** The fixed/variable split covers the same costs as the component
      totals. */
  lemma CostSplitsAgree(input: ModelInput, p: Params, out: SolverOutcome, d: Dispatch)
    requires Summarize(input, p, out, d).Ok?
    ensures var r := Summarize(input, p, out, d).value;
      r.totalFixedCost + r.totalVariableCost == r.capexTotal + r.fixedOmTotal + r.varOmTotal
  {
    SummaryCostFields(input, p, out, d);
    CostTableFacts(p, Capacities(out), Annual(d));
    SplitArithmetic(Summarize(input, p, out, d).value.components);
  }

  /** Cost of one technology's capacity: the objective's coefficient splits
      into the annualized capex and the fixed O&M component. */
  lemma FixedSplit(capacity: real, tp: TechParams)
    ensures (1000.0 * tp.FixedCost()) * capacity
         == capacity * 1000.0 * tp.annualizedCapex + capacity * 1000.0 * tp.fixedOm
  {
  }

  /** One technology's share of the objective's capacity part. */
  lemma TechFixedMatches(p: Params, out: SolverOutcome, ag: AnnualGeneration, t: Tech)
    ensures var c := TechComponents(p, Capacities(out), ag, t);
      FixedCostValue(p, Solution(out), t) == c.capexAnnualized + c.fixedOm
  {
    assert Capacities(out).Of(t) == Solution(out)(Capacity(t));
    FixedSplit(Solution(out)(Capacity(t)), p.Of(t));
  }

  /** The objective's capacity part is the capex and fixed O&M totals. */
  lemma FixedPartMatches(p: Params, out: SolverOutcome, ag: AnnualGeneration)
    ensures var costs := CostTable(p, Capacities(out), ag);
      FixedCostTotal(p, Solution(out)) == SumTechs(CapexColumn(costs)) + SumTechs(FixedOmColumn(costs))
  {
    TechFixedMatches(p, out, ag, Solar);
    TechFixedMatches(p, out, ag, Battery);
    TechFixedMatches(p, out, ag, Diesel);
    TechFixedMatches(p, out, ag, Ccgt);
    TechFixedMatches(p, out, ag, Coal);
  }

  /** The objective's generation part is the variable O&M total; the battery
      contributes nothing. */
  lemma VariablePartMatches(p: Params, capacity: PerTech<real>, x: Assignment, hours: nat)
    ensures var ag := AnnualGeneration(
              Total(x, GenOf(Solar), hours), Total(x, GenOf(Diesel), hours),
              Total(x, GenOf(Ccgt), hours), Total(x, GenOf(Coal), hours),
              Total(x, ChargeOf, hours), Total(x, DischargeOf, hours));
      VarCostTotal(p, x, hours) == SumTechs(VarOmColumn(CostTable(p, capacity, ag)))
  {
  }

  /** The annual figures read from the dispatch table are the series'
      totals under the solution. */
  lemma AnnualReads(input: ModelInput, out: SolverOutcome, d: Dispatch)
    requires ReadsSolution(input, out, d)
    ensures var x, hours := Solution(out), Hours(input);
      && Annual(d) == AnnualGeneration(
           Total(x, GenOf(Solar), hours), Total(x, GenOf(Diesel), hours),
           Total(x, GenOf(Ccgt), hours), Total(x, GenOf(Coal), hours),
           Total(x, ChargeOf, hours), Total(x, DischargeOf, hours))
      && Sum(d.unserved) == Total(x, UnservedOf, hours)
  {
    var x, hours := Solution(out), Hours(input);
    SumColumn(x, GenOf(Solar), hours);
    SumColumn(x, GenOf(Diesel), hours);
    SumColumn(x, GenOf(Ccgt), hours);
    SumColumn(x, GenOf(Coal), hours);
    SumColumn(x, ChargeOf, hours);
    SumColumn(x, DischargeOf, hours);
    SumColumn(x, UnservedOf, hours);
  }

  /** The objective at the solution is the capex, fixed O&M and variable
      O&M totals of the cost table the dispatch table determines, plus the
      unserved-energy penalty. */
  lemma ObjectiveParts(input: ModelInput, p: Params, out: SolverOutcome, d: Dispatch)
    requires ReadsSolution(input, out, d)
    ensures var costs := CostTable(p, Capacities(out), Annual(d));
      Eval(ObjectiveTerms(input, p), Solution(out))
      == SumTechs(CapexColumn(costs)) + SumTechs(FixedOmColumn(costs)) + SumTechs(VarOmColumn(costs))
       + PenaltyCost(Sum(d.unserved), input.voll)
  {
    ObjectiveValue(input, p, Solution(out));
    AnnualReads(input, out, d);
    FixedPartMatches(p, out, Annual(d));
    VariablePartMatches(p, Capacities(out), Solution(out), Hours(input));
  }

  /** A summary reports the solver's objective, or zero when there is none. */
  lemma SummaryObjective(input: ModelInput, p: Params, out: SolverOutcome, d: Dispatch)
    requires Summarize(input, p, out, d).Ok?
    ensures Summarize(input, p, out, d).value.objective == out.objective.GetOr(0.0)
  {
  }

  /** A summary's penalty is the unserved energy times the value of lost
      load. */
  lemma SummaryPenalty(input: ModelInput, p: Params, out: SolverOutcome, d: Dispatch)
    requires Summarize(input, p, out, d).Ok?
    ensures Summarize(input, p, out, d).value.unservedPenalty == PenaltyCost(Sum(d.unserved), input.voll)
  {
  }

  /** When the reported objective is the objective's value at the reported
      solution, it is exactly the sum of the cost component totals: annualized
      capex, fixed O&M, variable O&M and the unserved-energy penalty. */
  lemma ObjectiveDecomposes(input: ModelInput, p: Params, out: SolverOutcome, d: Dispatch)
    requires ReadsSolution(input, out, d) && Summarize(input, p, out, d).Ok?
    requires out.objective == Some(Eval(ObjectiveTerms(input, p), Solution(out)))
    ensures var r := Summarize(input, p, out, d).value;
      r.objective == r.capexTotal + r.fixedOmTotal + r.varOmTotal + r.unservedPenalty
  {
    ObjectiveParts(input, p, out, d);
    SummaryCostFields(input, p, out, d);
    SummaryObjective(input, p, out, d);
    SummaryPenalty(input, p, out, d);
  }

  /** The arithmetic behind the target: a fossil total within (1 - share)
      of demand minus unserved leaves a non-fossil share of at least `share`
      of any larger served total. */
  lemma ShareBound(ag: AnnualGeneration, share: real, net: real, served: real)
    requires 0.0 <= share <= 1.0 && served > 0.0 && served >= net
    requires WithinFossilCap(ag.diesel + ag.ccgt + ag.coal, share, net)
    ensures SharesOf(ag, served).nonFossil >= share
  {
    assert (1.0 - share) * net <= (1.0 - share) * served by {
      assert (1.0 - share) * served - (1.0 - share) * net == (1.0 - share) * (served - net);
    }
    DivideBound(ag.diesel + ag.ccgt + ag.coal, 1.0 - share, served);
  }

  /** The summary reports the annual totals, the shares and the clamped
      target that the dispatch table determines. */
  lemma SummaryFields(input: ModelInput, p: Params, out: SolverOutcome, d: Dispatch)
    requires Summarize(input, p, out, d).Ok?
    ensures var r := Summarize(input, p, out, d).value;
      && r.annualGeneration == Annual(d)
      && r.served == Served(TotalDemand(d.hourly), Sum(d.unserved))
      && r.nonFossilShare == SharesOf(Annual(d), r.served).nonFossil
      && r.minNonFossilShareTarget == ClampShare(input.minNonFossilShare)
  {
  }

  /** The cost fields of a summary, read off its cost table. */
  lemma SummaryCostFields(input: ModelInput, p: Params, out: SolverOutcome, d: Dispatch)
    requires Summarize(input, p, out, d).Ok?
    ensures var r := Summarize(input, p, out, d).value;
      var c := r.components;
      && r.capexTotal == SumTechs(CapexColumn(c))
      && r.fixedOmTotal == SumTechs(FixedOmColumn(c))
      && r.varOmTotal == SumTechs(VarOmColumn(c))
      && r.totalFixedCost == SumTechs(FixedCostColumn(c))
      && r.totalVariableCost == c.solar.varOm + c.diesel.varOm + c.ccgt.varOm + c.coal.varOm
      && c == CostTable(p, Capacities(out), Annual(d))
  {
  }

  /** A solution within the fossil cap gives the dispatch table a non-fossil
      share of served energy of at least the clamped target. */
  lemma WithinCapMeetsTarget(input: ModelInput, out: SolverOutcome, d: Dispatch)
    requires ReadsSolution(input, out, d)
    requires var x, hours := Solution(out), Hours(input);
      WithinFossilCap(FossilTotal(x, hours), ClampShare(input.minNonFossilShare), TotalDemand(input.hourly) - Total(x, UnservedOf, hours))
    ensures SharesOf(Annual(d), Served(TotalDemand(d.hourly), Sum(d.unserved))).nonFossil
         >= ClampShare(input.minNonFossilShare)
  {
    var x, hours := Solution(out), Hours(input);
    AnnualReads(input, out, d);
    var ag := Annual(d);
    assert FossilTotal(x, hours) == ag.diesel + ag.ccgt + ag.coal;
    ShareBound(ag, ClampShare(input.minNonFossilShare), TotalDemand(d.hourly) - Sum(d.unserved),
               Served(TotalDemand(d.hourly), Sum(d.unserved)));
  }

  /** Under a feasible solution the achieved non-fossil share of served
      energy meets the clamped target whenever the fossil cap is imposed. */
  lemma TargetMet(input: ModelInput, p: Params, out: SolverOutcome, d: Dispatch)
    requires p.etaDischarge > 0.0 && Feasible(input, p, Solution(out))
    requires ReadsSolution(input, out, d) && Summarize(input, p, out, d).Ok?
    requires ClampShare(input.minNonFossilShare) > 0.0
    ensures var r := Summarize(input, p, out, d).value;
      r.nonFossilShare >= r.minNonFossilShareTarget
  {
    FeasibleFossilCap(input, p, Solution(out));
    WithinCapMeetsTarget(input, out, d);
    SummaryFields(input, p, out, d);
  }

  lemma DivideBound(a: real, c: real, b: real)
    requires b > 0.0 && a <= c * b
    ensures a / b <= c
  {
    var q := a / b;
    assert q * b == a;
    assert (q - c) * b == q * b - c * b;
  }

  /** Under a feasible solution the annual totals balance: generation plus
      the battery's net discharge plus unserved energy is the year's demand. */
  lemma AnnualTotalsBalance(input: ModelInput, p: Params, out: SolverOutcome, d: Dispatch)
    requires p.etaDischarge > 0.0 && Feasible(input, p, Solution(out))
    requires ReadsSolution(input, out, d) && Summarize(input, p, out, d).Ok?
    ensures var r := Summarize(input, p, out, d).value;
      var g := r.annualGeneration;
      g.solar + g.diesel + g.ccgt + g.coal + g.batteryDischarge - g.batteryCharge + r.unserved == r.totalDemand
  {
    AnnualReads(input, out, d);
    AnnualBalance(input, p, Solution(out), Hours(input));
    assert input.hourly[..Hours(input)] == input.hourly;
  }

  /** A solution whose discharge is the round-trip efficiency times its
      charge gives annual battery totals in that ratio. */
  lemma StorageTotalsRead(input: ModelInput, eff: real, out: SolverOutcome, d: Dispatch)
    requires ReadsSolution(input, out, d)
    requires var x, hours := Solution(out), Hours(input);
      RoundTrip(Total(x, ChargeOf, hours), Total(x, DischargeOf, hours), eff)
    ensures RoundTripHolds(Annual(d), eff)
  {
    AnnualReads(input, out, d);
  }

  /** A solution whose discharge is the round-trip efficiency times its
      charge reports annual battery totals in that ratio. */
  lemma StorageReported(input: ModelInput, p: Params, out: SolverOutcome, d: Dispatch)
    requires ReadsSolution(input, out, d) && Summarize(input, p, out, d).Ok?
    requires var x, hours := Solution(out), Hours(input);
      RoundTrip(Total(x, ChargeOf, hours), Total(x, DischargeOf, hours), p.batteryEff)
    ensures RoundTripHolds(Summarize(input, p, out, d).value.annualGeneration, p.batteryEff)
  {
    StorageTotalsRead(input, p.batteryEff, out, d);
    SummaryFields(input, p, out, d);
  }

  /** Under a feasible solution the battery's annual discharge is its
      round-trip efficiency times its annual charge. */
  lemma AnnualStorageBalance(input: ModelInput, p: Params, out: SolverOutcome, d: Dispatch)
    requires p.etaDischarge > 0.0 && Feasible(input, p, Solution(out))
    requires p.etaCharge * p.etaDischarge == p.batteryEff
    requires ReadsSolution(input, out, d) && Summarize(input, p, out, d).Ok?
    ensures RoundTripHolds(Summarize(input, p, out, d).value.annualGeneration, p.batteryEff)
  {
    StorageRoundTrip(input, p, Solution(out));
    StorageReported(input, p, out, d);
  }
}
