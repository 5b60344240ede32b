/** The linear program `build_and_solve` hands to the solver, written out
    explicitly: every constraint is a list of (variable, coefficient) terms,
    a relation and a right-hand side, with the variables moved to the left
    the way the solver library normalizes them. */
module LinearProgram {
  import opened Economics

  /** The decision variables: capacity per technology, and per hour the
      generation of each generating technology, the battery's charge,
      discharge, state of charge and net flow, and unserved energy. */
  datatype Var =
    | Capacity(tech: Tech)
    | Gen(tech: Tech, hour: nat)
    | Charge(hour: nat)
    | Discharge(hour: nat)
    | Soc(hour: nat)
    | Net(hour: nat)
    | Unserved(hour: nat)

  datatype Term = Term(v: Var, coef: real)

  datatype Rel = Le | Eq

  /** The constraint names the source gives, e.g. `balance_{h}`. */
  datatype Name =
    | Balance(h: nat)
    | Cap(t: Tech, h: nat)              // solar_cap_{h}, diesel_cap_{h}, ccgt_cap_{h}, coal_cap_{h}
    | BatteryChargeCap(h: nat)
    | BatteryDischargeCap(h: nat)
    | BatteryEnergyCap(h: nat)
    | BatterySocBalance(h: nat)
    | BatteryNet(h: nat)
    | MaximumFossilShare
    | RampUp(t: Tech, h: nat)           // ramp_up_{tech}_{h}, battery included
    | RampDown(t: Tech, h: nat)

  /** `sum(coef * v for v, coef in terms) rel rhs` */
  datatype Constraint = Constraint(name: Name, terms: seq<Term>, rel: Rel, rhs: real)

  /** One row of the hourly table. */
  datatype HourRow = HourRow(timestamp: string, solarProfile: real, demandMwh: real)

  /** The inputs of `build_and_solve` besides the assumption sheet. */
  datatype ModelInput = ModelInput(
    hourly: seq<HourRow>,
    voll: real,
    minNonFossilShare: real,
    scenarioName: string)

  function Hours(input: ModelInput): nat {
    |input.hourly|
  }

  function Demand(input: ModelInput, h: nat): real
    requires h < Hours(input)
  {
    input.hourly[h].demandMwh
  }

  /** The share target clamped to [0, 1]. */
  function ClampShare(share: real): (s: real)
    ensures 0.0 <= s <= 1.0
    ensures 0.0 <= share <= 1.0 ==> s == share
    ensures share < 0.0 ==> s == 0.0
    ensures share > 1.0 ==> s == 1.0
  {
    Max(0.0, Min(1.0, share))
  }

  /** `prev_h`: the state of charge wraps from the first hour to the last. */
  function SocPredecessor(h: nat, hours: nat): (prev: nat)
    requires h < hours
    ensures prev < hours
    ensures h > 0 ==> prev == h - 1
    ensures h == 0 ==> prev == hours - 1
  {
    if h > 0 then h - 1 else hours - 1
  }

  // ---------------------------------------------------------------------
  // The ten constraints of one hour, in the order the source adds them.

  function BalanceConstraint(input: ModelInput, h: nat): Constraint
    requires h < Hours(input)
  {
    Constraint(Balance(h),
      [Term(Gen(Solar, h), 1.0), Term(Gen(Diesel, h), 1.0), Term(Gen(Ccgt, h), 1.0), Term(Gen(Coal, h), 1.0),
       Term(Discharge(h), 1.0), Term(Charge(h), -1.0), Term(Unserved(h), 1.0)],
      Eq, Demand(input, h))
  }

  /** gen <= capacity, solar's capacity scaled by its profile and availability. */
  function CapConstraint(input: ModelInput, p: Params, t: Tech, h: nat): Constraint
    requires h < Hours(input) && t != Battery
  {
    var scale := if t == Solar then input.hourly[h].solarProfile * p.solarAvailable else 1.0;
    Constraint(Cap(t, h), [Term(Gen(t, h), 1.0), Term(Capacity(t), -scale)], Le, 0.0)
  }

  function ChargeCapConstraint(h: nat): Constraint {
    Constraint(BatteryChargeCap(h), [Term(Charge(h), 1.0), Term(Capacity(Battery), -1.0)], Le, 0.0)
  }

  function DischargeCapConstraint(h: nat): Constraint {
    Constraint(BatteryDischargeCap(h), [Term(Discharge(h), 1.0), Term(Capacity(Battery), -1.0)], Le, 0.0)
  }

  /** soc <= capacity * duration * energy availability */
  function EnergyCapConstraint(p: Params, h: nat): Constraint {
    Constraint(BatteryEnergyCap(h),
      [Term(Soc(h), 1.0), Term(Capacity(Battery), -(p.batteryDuration * p.batteryEnergyAvailable))], Le, 0.0)
  }

  /** soc[h] == soc[prev] + eta_c * charge[h] - (1 / eta_d) * discharge[h] */
  function SocConstraint(p: Params, h: nat, hours: nat): Constraint
    requires h < hours && p.etaDischarge > 0.0
  {
    Constraint(BatterySocBalance(h),
      [Term(Soc(h), 1.0), Term(Soc(SocPredecessor(h, hours)), -1.0),
       Term(Charge(h), -p.etaCharge), Term(Discharge(h), 1.0 / p.etaDischarge)],
      Eq, 0.0)
  }

  /** net[h] == discharge[h] - charge[h] */
  function NetConstraint(h: nat): Constraint {
    Constraint(BatteryNet(h), [Term(Net(h), 1.0), Term(Discharge(h), -1.0), Term(Charge(h), 1.0)], Eq, 0.0)
  }

  function HourConstraints(input: ModelInput, p: Params, h: nat): seq<Constraint>
    requires h < Hours(input) && p.etaDischarge > 0.0
  {
    [BalanceConstraint(input, h),
     CapConstraint(input, p, Solar, h), CapConstraint(input, p, Diesel, h),
     CapConstraint(input, p, Ccgt, h), CapConstraint(input, p, Coal, h),
     ChargeCapConstraint(h), DischargeCapConstraint(h), EnergyCapConstraint(p, h),
     SocConstraint(p, h, Hours(input)), NetConstraint(h)]
  }

  /** The hourly blocks of hours 0 .. k-1. */
  function HourBlocks(input: ModelInput, p: Params, k: nat): seq<Constraint>
    requires k <= Hours(input) && p.etaDischarge > 0.0
  {
    if k == 0 then [] else HourBlocks(input, p, k - 1) + HourConstraints(input, p, k - 1)
  }

  // ---------------------------------------------------------------------
  // The fossil cap.

  function TotalDemand(hourly: seq<HourRow>): real {
    if hourly == [] then 0.0 else TotalDemand(hourly[..|hourly| - 1]) + hourly[|hourly| - 1].demandMwh
  }

  /** Per hour: diesel, CCGT and coal generation, and unserved energy weighted
      by (1 - share), which the served-energy side of the cap moves left. */
  function FossilTerms(share: real, k: nat): seq<Term> {
    if k == 0 then []
    else FossilTerms(share, k - 1)
         + [Term(Gen(Diesel, k - 1), 1.0), Term(Gen(Ccgt, k - 1), 1.0), Term(Gen(Coal, k - 1), 1.0),
            Term(Unserved(k - 1), 1.0 - share)]
  }

  /** sum(fossil gen) <= (1 - share) * sum(demand - unserved) */
  function FossilCapConstraint(input: ModelInput, share: real): Constraint {
    Constraint(MaximumFossilShare, FossilTerms(share, Hours(input)), Le, (1.0 - share) * TotalDemand(input.hourly))
  }

  /** The policy constraint, present only for a positive clamped share. */
  function FossilBlock(input: ModelInput): seq<Constraint> {
    var share := ClampShare(input.minNonFossilShare);
    if share > 0.0 then [FossilCapConstraint(input, share)] else []
  }

  // ---------------------------------------------------------------------
  // Ramping.

  /** The series a technology's ramp limits: generation, or the battery's
      net flow. */
  function RampVar(t: Tech, h: nat): Var {
    if t == Battery then Net(h) else Gen(t, h)
  }

  /** x[h] - x[h-1] <= ramp * capacity, or the reverse difference. */
  function RampConstraint(p: Params, t: Tech, h: nat, up: bool): Constraint
    requires h >= 1
  {
    var (later, earlier) := (RampVar(t, h), RampVar(t, h - 1));
    Constraint(if up then RampUp(t, h) else RampDown(t, h),
      [Term(if up then later else earlier, 1.0), Term(if up then earlier else later, -1.0),
       Term(Capacity(t), -p.Of(t).rampPerHour)],
      Le, 0.0)
  }

  function RampPair(p: Params, t: Tech, h: nat): seq<Constraint>
    requires h >= 1
  {
    [RampConstraint(p, t, h, true), RampConstraint(p, t, h, false)]
  }

  /** The pairs of the technologies `ts`, in order. */
  function RampPairs(p: Params, ts: seq<Tech>, h: nat): seq<Constraint>
    requires h >= 1
  {
    if ts == [] then [] else RampPairs(p, ts[..|ts| - 1], h) + RampPair(p, ts[|ts| - 1], h)
  }

  /** The ramp constraints of hour h: the generating technologies, then the
      battery's net flow. */
  function RampsAt(p: Params, h: nat): seq<Constraint>
    requires h >= 1
  {
    RampPairs(p, GenTechs, h) + RampPair(p, Battery, h)
  }

  /** The ramp constraints of hours 1 .. k-1. */
  function RampBlocks(p: Params, k: nat): seq<Constraint> {
    if k <= 1 then [] else RampBlocks(p, k - 1) + RampsAt(p, k - 1)
  }

  /** Every constraint, in the order `build_and_solve` adds them. */
  function ModelConstraints(input: ModelInput, p: Params): seq<Constraint>
    requires p.etaDischarge > 0.0
  {
    HourBlocks(input, p, Hours(input)) + FossilBlock(input) + RampBlocks(p, Hours(input))
  }

  // ---------------------------------------------------------------------
  // The objective.

  /** capacity[t] * 1000 * fixed_cost_kw_year[t] for the technologies `ts`. */
  function FixedTerms(p: Params, ts: seq<Tech>): seq<Term> {
    if ts == [] then [] else [Term(Capacity(ts[0]), 1000.0 * p.Of(ts[0]).FixedCost())] + FixedTerms(p, ts[1..])
  }

  /** gen[t][h] * var_om_mwh[t] for hours 0 .. k-1. */
  function GenCostTerms(p: Params, t: Tech, k: nat): seq<Term> {
    if k == 0 then [] else GenCostTerms(p, t, k - 1) + [Term(Gen(t, k - 1), p.Of(t).varOm)]
  }

  function VariableTerms(p: Params, ts: seq<Tech>, hours: nat): seq<Term> {
    if ts == [] then [] else GenCostTerms(p, ts[0], hours) + VariableTerms(p, ts[1..], hours)
  }

  /** unserved[h] * voll for hours 0 .. k-1. */
  function PenaltyTerms(voll: real, k: nat): seq<Term> {
    if k == 0 then [] else PenaltyTerms(voll, k - 1) + [Term(Unserved(k - 1), voll)]
  }

  /** fixed_cost_term + variable_cost_term + unserved_penalty_term */
  function ObjectiveTerms(input: ModelInput, p: Params): seq<Term> {
    FixedTerms(p, AllTechs) + VariableTerms(p, GenTechs, Hours(input)) + PenaltyTerms(input.voll, Hours(input))
  }

  // ---------------------------------------------------------------------
  // The problem object the source fills in.

  /** A minimization problem: the objective and the constraints in the order
      they were added. */
  class LpProblem {
    var objective: seq<Term>
    var constraints: seq<Constraint>

    constructor ()
      ensures objective == [] && constraints == []
    {
      objective := [];
      constraints := [];
    }

    /** `problem += expression` */
    method SetObjective(terms: seq<Term>)
      modifies this
      ensures objective == terms && constraints == old(constraints)
    {
      objective := terms;
    }

    /** `problem += constraint, name` */
    method AddConstraint(c: Constraint)
      modifies this
      ensures constraints == old(constraints) + [c] && objective == old(objective)
    {
      constraints := constraints + [c];
    }
  }

  lemma RampPairsStep(p: Params, ts: seq<Tech>, i: nat, h: nat)
    requires i < |ts| && h >= 1
    ensures RampPairs(p, ts[..i + 1], h) == RampPairs(p, ts[..i], h) + RampPair(p, ts[i], h)
  {
    assert ts[..i + 1][..i] == ts[..i];
  }

  /** Adds the ten constraints of hour `h`. */
  method AddHour(problem: LpProblem, input: ModelInput, p: Params, h: nat)
    requires h < Hours(input) && p.etaDischarge > 0.0
    modifies problem
    ensures problem.constraints == old(problem.constraints) + HourConstraints(input, p, h)
    ensures problem.objective == old(problem.objective)
  {
    problem.AddConstraint(BalanceConstraint(input, h));
    problem.AddConstraint(CapConstraint(input, p, Solar, h));
    problem.AddConstraint(CapConstraint(input, p, Diesel, h));
    problem.AddConstraint(CapConstraint(input, p, Ccgt, h));
    problem.AddConstraint(CapConstraint(input, p, Coal, h));
    problem.AddConstraint(ChargeCapConstraint(h));
    problem.AddConstraint(DischargeCapConstraint(h));
    problem.AddConstraint(EnergyCapConstraint(p, h));
    problem.AddConstraint(SocConstraint(p, h, Hours(input)));
    problem.AddConstraint(NetConstraint(h));
  }

  /** Adds the ramp constraints of hour `h >= 1`. */
  method AddRamps(problem: LpProblem, p: Params, h: nat)
    requires h >= 1
    modifies problem
    ensures problem.constraints == old(problem.constraints) + RampsAt(p, h)
    ensures problem.objective == old(problem.objective)
  {
    var i := 0;
    while i < |GenTechs|
      invariant 0 <= i <= |GenTechs|
      invariant problem.constraints == old(problem.constraints) + RampPairs(p, GenTechs[..i], h)
      invariant problem.objective == old(problem.objective)
    {
      var t := GenTechs[i];
      problem.AddConstraint(RampConstraint(p, t, h, true));
      problem.AddConstraint(RampConstraint(p, t, h, false));
      RampPairsStep(p, GenTechs, i, h);
      i := i + 1;
    }
    assert GenTechs[..i] == GenTechs;
    problem.AddConstraint(RampConstraint(p, Battery, h, true));
    problem.AddConstraint(RampConstraint(p, Battery, h, false));
  }

  /** The model-building part of `build_and_solve`: the objective, then the
      hourly constraints, the optional fossil cap and the ramp constraints. */
  method BuildProblem(input: ModelInput, p: Params) returns (problem: LpProblem)
    requires p.etaDischarge > 0.0
    ensures fresh(problem)
    ensures problem.objective == ObjectiveTerms(input, p)
    ensures problem.constraints == ModelConstraints(input, p)
  {
    problem := new LpProblem();
    problem.SetObjective(ObjectiveTerms(input, p));
    AddHourBlocks(problem, input, p);
    var share := ClampShare(input.minNonFossilShare);
    if share > 0.0 {
      problem.AddConstraint(FossilCapConstraint(input, share));
    }
    AddRampBlocks(problem, p, Hours(input));
  }

  /** The first loop of the model building: hour by hour, its ten constraints. */
  method AddHourBlocks(problem: LpProblem, input: ModelInput, p: Params)
    requires p.etaDischarge > 0.0
    modifies problem
    ensures problem.constraints == old(problem.constraints) + HourBlocks(input, p, Hours(input))
    ensures problem.objective == old(problem.objective)
  {
    var hours := Hours(input);
    var h := 0;
    while h < hours
      invariant 0 <= h <= hours
      invariant problem.constraints == old(problem.constraints) + HourBlocks(input, p, h)
      invariant problem.objective == old(problem.objective)
    {
      AddHour(problem, input, p, h);
      h := h + 1;
    }
  }

  /** The last loop of the model building: the ramp constraints of every hour
      after the first. */
  method AddRampBlocks(problem: LpProblem, p: Params, hours: nat)
    modifies problem
    ensures problem.constraints == old(problem.constraints) + RampBlocks(p, hours)
    ensures problem.objective == old(problem.objective)
  {
    var h := 1;
    while h < hours
      invariant 1 <= h
      invariant h <= hours || h == 1
      invariant problem.constraints == old(problem.constraints) + RampBlocks(p, h)
      invariant problem.objective == old(problem.objective)
    {
      AddRamps(problem, p, h);
      h := h + 1;
    }
    if hours == 0 {
      assert RampBlocks(p, h) == [] == RampBlocks(p, hours);
    }
  }
}
