/** What the constraint system means: the value of a linear expression under
    an assignment of the variables, when a constraint holds, and what every
    feasible assignment therefore satisfies, hour by hour and over the year. */
module LpSemantics {
  import opened Economics
  import opened LinearProgram
  import opened LpStructure

  /** A value for every variable. */
  type Assignment = Var -> real

  function TermValue(t: Term, x: Assignment): real {
    t.coef * x(t.v)
  }

  /** The value of a linear expression. */
  function Eval(terms: seq<Term>, x: Assignment): real {
    if terms == [] then 0.0 else Eval(terms[..|terms| - 1], x) + TermValue(terms[|terms| - 1], x)
  }

  predicate Holds(c: Constraint, x: Assignment) {
    match c.rel
    case Le => Eval(c.terms, x) <= c.rhs
    case Eq => Eval(c.terms, x) == c.rhs
  }

  /** `lowBound=0` on every declared variable except the battery's net flow. */
  ghost predicate WithinBounds(x: Assignment, hours: nat) {
    forall v :: Declared(v, hours) && !v.Net? ==> x(v) >= 0.0
  }

  /** An assignment the solver may return as a solution. */
  ghost predicate Feasible(input: ModelInput, p: Params, x: Assignment)
    requires p.etaDischarge > 0.0
  {
    && WithinBounds(x, Hours(input))
    && forall c :: c in ModelConstraints(input, p) ==> Holds(c, x)
  }

  // ---------------------------------------------------------------------
  // Evaluating expressions.

  lemma EvalConcat(a: seq<Term>, b: seq<Term>, x: Assignment)
    ensures Eval(a + b, x) == Eval(a, x) + Eval(b, x)
    decreases |b|
  {
    if b != [] {
      assert (a + b)[..|a + b| - 1] == a + b[..|b| - 1];
      assert (a + b)[|a + b| - 1] == b[|b| - 1];
      EvalConcat(a, b[..|b| - 1], x);
    } else {
      assert a + b == a;
    }
  }

  lemma Eval1(s: seq<Term>, x: Assignment)
    requires |s| == 1
    ensures Eval(s, x) == TermValue(s[0], x)
  {
    assert s[..0] == [];
  }

  lemma Eval2(s: seq<Term>, x: Assignment)
    requires |s| == 2
    ensures Eval(s, x) == TermValue(s[0], x) + TermValue(s[1], x)
  {
    Eval1(s[..1], x);
  }

  lemma Eval3(s: seq<Term>, x: Assignment)
    requires |s| == 3
    ensures Eval(s, x) == TermValue(s[0], x) + TermValue(s[1], x) + TermValue(s[2], x)
  {
    Eval2(s[..2], x);
  }

  lemma Eval4(s: seq<Term>, x: Assignment)
    requires |s| == 4
    ensures Eval(s, x) == TermValue(s[0], x) + TermValue(s[1], x) + TermValue(s[2], x) + TermValue(s[3], x)
  {
    Eval3(s[..3], x);
    assert Eval(s, x) == Eval(s[..3], x) + TermValue(s[3], x);
  }

  lemma Eval7(s: seq<Term>, x: Assignment)
    requires |s| == 7
    ensures Eval(s, x) == TermValue(s[0], x) + TermValue(s[1], x) + TermValue(s[2], x) + TermValue(s[3], x)
                        + TermValue(s[4], x) + TermValue(s[5], x) + TermValue(s[6], x)
  {
    assert s == s[..4] + s[4..];
    EvalConcat(s[..4], s[4..], x);
    Eval4(s[..4], x);
    Eval3(s[4..], x);
  }

  // ---------------------------------------------------------------------
  // Hourly series and their annual sums.

  /** The hourly series of the result table. */
  datatype Series = GenOf(t: Tech) | ChargeOf | DischargeOf | SocOf | NetOf | UnservedOf

  function At(s: Series, h: nat): Var {
    match s
    case GenOf(t) => Gen(t, h)
    case ChargeOf => Charge(h)
    case DischargeOf => Discharge(h)
    case SocOf => Soc(h)
    case NetOf => Net(h)
    case UnservedOf => Unserved(h)
  }

  /** The sum of a series over the first k hours. */
  function Total(x: Assignment, s: Series, k: nat): real {
    if k == 0 then 0.0 else Total(x, s, k - 1) + x(At(s, k - 1))
  }

  /** The left-hand side of the fossil cap is the annual fossil generation
      plus (1 - share) times the annual unserved energy. */
  lemma {:induction false} FossilTermsEval(share: real, k: nat, x: Assignment)
    ensures Eval(FossilTerms(share, k), x)
         == Total(x, GenOf(Diesel), k) + Total(x, GenOf(Ccgt), k) + Total(x, GenOf(Coal), k)
          + (1.0 - share) * Total(x, UnservedOf, k)
  {
    if k > 0 {
      FossilTermsEval(share, k - 1, x);
      var block := [Term(Gen(Diesel, k - 1), 1.0), Term(Gen(Ccgt, k - 1), 1.0), Term(Gen(Coal, k - 1), 1.0),
                    Term(Unserved(k - 1), 1.0 - share)];
      EvalConcat(FossilTerms(share, k - 1), block, x);
      Eval4(block, x);
    }
  }

  // ---------------------------------------------------------------------
  // Where the constraints are.

  lemma HourConstraintsInModel(input: ModelInput, p: Params, h: nat)
    requires p.etaDischarge > 0.0 && h < Hours(input)
    ensures forall j :: 0 <= j < 10 ==> HourConstraints(input, p, h)[j] in ModelConstraints(input, p)
  {
    HourSlicesInModel(input, p);
    var cs := ModelConstraints(input, p);
    assert cs[10 * h .. 10 * h + 10] == HourConstraints(input, p, h);
    forall j | 0 <= j < 10
      ensures HourConstraints(input, p, h)[j] in cs
    {
      assert cs[10 * h + j] == HourConstraints(input, p, h)[j];
    }
  }

  lemma RampsInModel(input: ModelInput, p: Params, h: nat)
    requires p.etaDischarge > 0.0 && 1 <= h < Hours(input)
    ensures |RampsAt(p, h)| == 10
    ensures forall j :: 0 <= j < 10 ==> RampsAt(p, h)[j] in ModelConstraints(input, p)
  {
    RampsAtNamed(p, h, Hours(input));
    RampSlicesInModel(input, p);
    var cs := ModelConstraints(input, p);
    var offset := 10 * Hours(input) + |FossilBlock(input)|;
    assert cs[offset + 10 * (h - 1) .. offset + 10 * (h - 1) + 10] == RampsAt(p, h);
    forall j | 0 <= j < 10
      ensures RampsAt(p, h)[j] in cs
    {
      assert cs[offset + 10 * (h - 1) + j] == RampsAt(p, h)[j];
    }
  }

  // ---------------------------------------------------------------------
  // What a feasible assignment satisfies.

  /** Hour h's energy balance. */
  lemma FeasibleBalance(input: ModelInput, p: Params, x: Assignment, h: nat)
    requires p.etaDischarge > 0.0 && Feasible(input, p, x) && h < Hours(input)
    ensures x(Gen(Solar, h)) + x(Gen(Diesel, h)) + x(Gen(Ccgt, h)) + x(Gen(Coal, h))
          + x(Discharge(h)) - x(Charge(h)) + x(Unserved(h)) == Demand(input, h)
  {
    FeasibleHourHolds(input, p, x, h, 0);
    var c := HourConstraints(input, p, h)[0];
    Eval7(c.terms, x);
  }

  /** Each of hour h's ten constraints holds. */
  lemma FeasibleHourHolds(input: ModelInput, p: Params, x: Assignment, h: nat, j: nat)
    requires p.etaDischarge > 0.0 && Feasible(input, p, x) && h < Hours(input) && j < 10
    ensures Holds(HourConstraints(input, p, h)[j], x)
  {
    HourConstraintsInModel(input, p, h);
  }

  /** A two-term bound `x(a) - k * x(b) <= 0`. */
  lemma BoundHolds(c: Constraint, x: Assignment)
    requires Holds(c, x) && c.rel == Le && c.rhs == 0.0 && |c.terms| == 2 && c.terms[0].coef == 1.0
    ensures x(c.terms[0].v) <= -c.terms[1].coef * x(c.terms[1].v)
  {
    Eval2(c.terms, x);
  }

  /** Hour h's capacity bounds: solar by capacity x profile x availability,
      the other plants by their capacity. */
  lemma FeasibleGenerationBounds(input: ModelInput, p: Params, x: Assignment, h: nat)
    requires p.etaDischarge > 0.0 && Feasible(input, p, x) && h < Hours(input)
    ensures x(Gen(Solar, h)) <= (input.hourly[h].solarProfile * p.solarAvailable) * x(Capacity(Solar))
    ensures forall t :: IsFossil(t) ==> x(Gen(t, h)) <= x(Capacity(t))
  {
    var cs := HourConstraints(input, p, h);
    FeasibleHourHolds(input, p, x, h, 1);
    FeasibleHourHolds(input, p, x, h, 2);
    FeasibleHourHolds(input, p, x, h, 3);
    FeasibleHourHolds(input, p, x, h, 4);
    BoundHolds(cs[1], x);
    BoundHolds(cs[2], x);
    BoundHolds(cs[3], x);
    BoundHolds(cs[4], x);
  }

  /** Hour h's battery bounds: both flows by its power rating and the state
      of charge by its usable energy. */
  lemma FeasibleBatteryBounds(input: ModelInput, p: Params, x: Assignment, h: nat)
    requires p.etaDischarge > 0.0 && Feasible(input, p, x) && h < Hours(input)
    ensures x(Charge(h)) <= x(Capacity(Battery)) && x(Discharge(h)) <= x(Capacity(Battery))
    ensures x(Soc(h)) <= (p.batteryDuration * p.batteryEnergyAvailable) * x(Capacity(Battery))
  {
    var cs := HourConstraints(input, p, h);
    FeasibleHourHolds(input, p, x, h, 5);
    FeasibleHourHolds(input, p, x, h, 6);
    FeasibleHourHolds(input, p, x, h, 7);
    BoundHolds(cs[5], x);
    BoundHolds(cs[6], x);
    BoundHolds(cs[7], x);
  }

  /** Hour h's storage recurrence and net flow. */
  lemma FeasibleStorage(input: ModelInput, p: Params, x: Assignment, h: nat)
    requires p.etaDischarge > 0.0 && Feasible(input, p, x) && h < Hours(input)
    ensures x(Soc(h)) == x(Soc(SocPredecessor(h, Hours(input)))) + p.etaCharge * x(Charge(h))
                         - (1.0 / p.etaDischarge) * x(Discharge(h))
    ensures x(Net(h)) == x(Discharge(h)) - x(Charge(h))
  {
    var cs := HourConstraints(input, p, h);
    FeasibleHourHolds(input, p, x, h, 8);
    FeasibleHourHolds(input, p, x, h, 9);
    Eval4(cs[8].terms, x);
    Eval3(cs[9].terms, x);
  }

  lemma RampConstraintInModel(input: ModelInput, p: Params, t: Tech, h: nat, up: bool)
    requires p.etaDischarge > 0.0 && 1 <= h < Hours(input)
    ensures RampConstraint(p, t, h, up) in ModelConstraints(input, p)
  {
    RampsAtExplicit(p, h);
    assert RampConstraint(p, t, h, up) in RampsAt(p, h);
    var hours := Hours(input);
    RampBlocksLength(p, hours);
    RampBlocksSlice(p, hours, h);
    var r := RampBlocks(p, hours);
    assert RampConstraint(p, t, h, up) in r by {
      var j :| 0 <= j < 10 && RampsAt(p, h)[j] == RampConstraint(p, t, h, up);
      assert r[10 * (h - 1) + j] == RampsAt(p, h)[j];
    }
  }

  /** Between consecutive hours each technology moves by at most its ramp
      rate times its capacity, in either direction. */
  lemma FeasibleRamp(input: ModelInput, p: Params, x: Assignment, t: Tech, h: nat)
    requires p.etaDischarge > 0.0 && Feasible(input, p, x) && 1 <= h < Hours(input)
    ensures x(RampVar(t, h)) - x(RampVar(t, h - 1)) <= p.Of(t).rampPerHour * x(Capacity(t))
    ensures x(RampVar(t, h - 1)) - x(RampVar(t, h)) <= p.Of(t).rampPerHour * x(Capacity(t))
  {
    RampConstraintInModel(input, p, t, h, true);
    RampConstraintInModel(input, p, t, h, false);
    var up := RampConstraint(p, t, h, true);
    var down := RampConstraint(p, t, h, false);
    assert Holds(up, x) && Holds(down, x);
    Eval3(up.terms, x);
    Eval3(down.terms, x);
  }

  /** The annual fossil generation of the first k hours. */
  function FossilTotal(x: Assignment, k: nat): real {
    Total(x, GenOf(Diesel), k) + Total(x, GenOf(Ccgt), k) + Total(x, GenOf(Coal), k)
  }

  lemma FossilCapInModel(input: ModelInput, p: Params)
    requires p.etaDischarge > 0.0 && ClampShare(input.minNonFossilShare) > 0.0
    ensures FossilCapConstraint(input, ClampShare(input.minNonFossilShare)) in ModelConstraints(input, p)
  {
    var c := FossilCapConstraint(input, ClampShare(input.minNonFossilShare));
    var hours := HourBlocks(input, p, Hours(input));
    assert FossilBlock(input) == [c];
    assert ModelConstraints(input, p)[|hours|] == c;
  }

  /** Fossil generation is at most (1 - share) of the served energy. */
  predicate WithinFossilCap(fossil: real, share: real, served: real) {
    fossil <= (1.0 - share) * served
  }

  lemma FossilCapArithmetic(share: real, fossil: real, unserved: real, demand: real, eval: real)
    requires eval == fossil + (1.0 - share) * unserved && eval <= (1.0 - share) * demand
    ensures WithinFossilCap(fossil, share, demand - unserved)
  {
    assert (1.0 - share) * (demand - unserved) == (1.0 - share) * demand - (1.0 - share) * unserved;
  }

  /** What the policy row says, read as totals. */
  lemma FossilCapRead(input: ModelInput, x: Assignment)
    requires var share := ClampShare(input.minNonFossilShare);
      Eval(FossilTerms(share, Hours(input)), x) <= (1.0 - share) * TotalDemand(input.hourly)
    ensures var share := ClampShare(input.minNonFossilShare);
      WithinFossilCap(FossilTotal(x, Hours(input)), share, TotalDemand(input.hourly) - Total(x, UnservedOf, Hours(input)))
  {
    var share := ClampShare(input.minNonFossilShare);
    FossilTermsEval(share, Hours(input), x);
    FossilCapArithmetic(share, FossilTotal(x, Hours(input)), Total(x, UnservedOf, Hours(input)),
                        TotalDemand(input.hourly), Eval(FossilTerms(share, Hours(input)), x));
  }

  /** With a positive clamped share, fossil generation is at most
      (1 - share) of the served energy, demand minus unserved. */
  lemma FeasibleFossilCap(input: ModelInput, p: Params, x: Assignment)
    requires p.etaDischarge > 0.0 && Feasible(input, p, x)
    requires ClampShare(input.minNonFossilShare) > 0.0
    ensures var share := ClampShare(input.minNonFossilShare);
      WithinFossilCap(FossilTotal(x, Hours(input)), share, TotalDemand(input.hourly) - Total(x, UnservedOf, Hours(input)))
  {
    FossilCapInModel(input, p);
    assert Holds(FossilCapConstraint(input, ClampShare(input.minNonFossilShare)), x);
    FossilCapRead(input, x);
  }

  /** Over the first k hours, the energy charged in (after the charge leg's
      loss) minus the energy discharged (before the discharge leg's loss) is
      the growth of the state of charge since the last hour of the year. */
  lemma {:induction false} StoragePrefix(input: ModelInput, p: Params, x: Assignment, k: nat)
    requires p.etaDischarge > 0.0 && Feasible(input, p, x) && 1 <= k <= Hours(input)
    ensures p.etaCharge * Total(x, ChargeOf, k) - (1.0 / p.etaDischarge) * Total(x, DischargeOf, k)
         == x(Soc(k - 1)) - x(Soc(Hours(input) - 1))
  {
    var h := k - 1;
    FeasibleStorage(input, p, x, h);
    var c, d := Total(x, ChargeOf, h), Total(x, DischargeOf, h);
    assert p.etaCharge * (c + x(Charge(h))) == p.etaCharge * c + p.etaCharge * x(Charge(h));
    assert (1.0 / p.etaDischarge) * (d + x(Discharge(h))) == (1.0 / p.etaDischarge) * d + (1.0 / p.etaDischarge) * x(Discharge(h));
    if k > 1 {
      StoragePrefix(input, p, x, k - 1);
    }
  }

  /** Over a stretch of time the charge leg stores exactly what the
      discharge leg draws: eta_charge times the energy charged equals the
      energy discharged divided by eta_discharge. */
  predicate CycleClosed(etaCharge: real, etaDischarge: real, charged: real, discharged: real)
    requires etaDischarge > 0.0
  {
    etaCharge * charged == (1.0 / etaDischarge) * discharged
  }

  /** The energy discharged is `eff` times the energy charged. */
  predicate RoundTrip(charged: real, discharged: real, eff: real) {
    discharged == eff * charged
  }

  /** Because the state of charge wraps around, the battery ends the year
      where it started. */
  lemma StorageCycleCloses(input: ModelInput, p: Params, x: Assignment)
    requires p.etaDischarge > 0.0 && Feasible(input, p, x) && Hours(input) >= 1
    ensures CycleClosed(p.etaCharge, p.etaDischarge, Total(x, ChargeOf, Hours(input)), Total(x, DischargeOf, Hours(input)))
  {
    StoragePrefix(input, p, x, Hours(input));
  }

  /** With legs whose product is the round-trip efficiency, the energy
      discharged over the year is that efficiency times the energy charged. */
  lemma StorageRoundTrip(input: ModelInput, p: Params, x: Assignment)
    requires p.etaDischarge > 0.0 && Feasible(input, p, x) && Hours(input) >= 1
    requires p.etaCharge * p.etaDischarge == p.batteryEff
    ensures RoundTrip(Total(x, ChargeOf, Hours(input)), Total(x, DischargeOf, Hours(input)), p.batteryEff)
  {
    StorageCycleCloses(input, p, x);
    RoundTripAlgebra(p.etaCharge, p.etaDischarge, p.batteryEff,
                     Total(x, ChargeOf, Hours(input)), Total(x, DischargeOf, Hours(input)));
  }

  lemma RoundTripAlgebra(etaCharge: real, etaDischarge: real, eff: real, charged: real, discharged: real)
    requires etaDischarge > 0.0 && etaCharge * etaDischarge == eff
    requires CycleClosed(etaCharge, etaDischarge, charged, discharged)
    ensures RoundTrip(charged, discharged, eff)
  {
    assert etaDischarge * (etaCharge * charged) == etaDischarge * ((1.0 / etaDischarge) * discharged);
    assert etaDischarge * ((1.0 / etaDischarge) * discharged) == discharged;
  }

  /** Annual supply of the first k hours: every generator, the battery's
      discharge minus its charge, and unserved energy. */
  function Supply(x: Assignment, k: nat): real {
    Total(x, GenOf(Solar), k) + Total(x, GenOf(Diesel), k) + Total(x, GenOf(Ccgt), k)
    + Total(x, GenOf(Coal), k) + Total(x, DischargeOf, k) - Total(x, ChargeOf, k)
    + Total(x, UnservedOf, k)
  }

  lemma SupplyStep(x: Assignment, h: nat)
    ensures Supply(x, h + 1) == Supply(x, h) + x(Gen(Solar, h)) + x(Gen(Diesel, h)) + x(Gen(Ccgt, h)) + x(Gen(Coal, h))
                                + x(Discharge(h)) - x(Charge(h)) + x(Unserved(h))
  {
  }

  /** The hourly balances add up to an annual one: supply over the year
      equals the year's demand. */
  lemma {:induction false} AnnualBalance(input: ModelInput, p: Params, x: Assignment, k: nat)
    requires p.etaDischarge > 0.0 && Feasible(input, p, x) && k <= Hours(input)
    ensures Supply(x, k) == TotalDemand(input.hourly[..k])
  {
    if k == 0 {
      assert input.hourly[..0] == [];
    } else {
      var h := k - 1;
      AnnualBalance(input, p, x, h);
      FeasibleBalance(input, p, x, h);
      SupplyStep(x, h);
      assert input.hourly[..k][..h] == input.hourly[..h];
    }
  }

  // ---------------------------------------------------------------------
  // The objective's value.

  lemma EvalCons(t: Term, s: seq<Term>, x: Assignment)
    ensures Eval([t] + s, x) == TermValue(t, x) + Eval(s, x)
  {
    EvalConcat([t], s, x);
    Eval1([t], x);
  }

  /** The fixed-cost part: capacity x 1000 x fixed cost per kW-yr. */
  function FixedCostValue(p: Params, x: Assignment, t: Tech): real {
    (1000.0 * p.Of(t).FixedCost()) * x(Capacity(t))
  }

  function FixedCostTotal(p: Params, x: Assignment): real {
    FixedCostValue(p, x, Solar) + FixedCostValue(p, x, Battery) + FixedCostValue(p, x, Diesel)
    + FixedCostValue(p, x, Ccgt) + FixedCostValue(p, x, Coal)
  }

  function FixedTerm(p: Params, t: Tech): Term {
    Term(Capacity(t), 1000.0 * p.Of(t).FixedCost())
  }

  lemma FixedTermsValue(p: Params, x: Assignment)
    ensures Eval(FixedTerms(p, AllTechs), x) == FixedCostTotal(p, x)
  {
    var t4 := FixedTerms(p, [Coal]);
    assert [Coal][1..] == [] && [Coal][0] == Coal;
    assert FixedTerms(p, []) == [];
    assert t4 == [FixedTerm(p, Coal)] + [];
    var t3 := FixedTerms(p, [Ccgt, Coal]);
    assert [Ccgt, Coal][1..] == [Coal];
    assert t3 == [FixedTerm(p, Ccgt)] + t4;
    var t2 := FixedTerms(p, [Diesel, Ccgt, Coal]);
    assert [Diesel, Ccgt, Coal][1..] == [Ccgt, Coal];
    assert t2 == [FixedTerm(p, Diesel)] + t3;
    var t1 := FixedTerms(p, [Battery, Diesel, Ccgt, Coal]);
    assert [Battery, Diesel, Ccgt, Coal][1..] == [Diesel, Ccgt, Coal];
    assert t1 == [FixedTerm(p, Battery)] + t2;
    assert AllTechs[1..] == [Battery, Diesel, Ccgt, Coal];
    assert FixedTerms(p, AllTechs) == [FixedTerm(p, Solar)] + t1;
    EvalCons(FixedTerm(p, Coal), [], x);
    EvalCons(FixedTerm(p, Ccgt), t4, x);
    EvalCons(FixedTerm(p, Diesel), t3, x);
    EvalCons(FixedTerm(p, Battery), t2, x);
    EvalCons(FixedTerm(p, Solar), t1, x);
  }

  /** One generator's variable cost: the per-MWh cost times its annual output. */
  lemma GenCostStep(p: Params, t: Tech, k: nat, x: Assignment)
    ensures Eval(GenCostTerms(p, t, k + 1), x) == Eval(GenCostTerms(p, t, k), x) + p.Of(t).varOm * x(Gen(t, k))
  {
    EvalConcat(GenCostTerms(p, t, k), [Term(Gen(t, k), p.Of(t).varOm)], x);
    Eval1([Term(Gen(t, k), p.Of(t).varOm)], x);
  }

  lemma VarCostStep(p: Params, t: Tech, k: nat, x: Assignment)
    ensures VarCostValue(p, x, t, k + 1) == VarCostValue(p, x, t, k) + p.Of(t).varOm * x(Gen(t, k))
  {
    var s := Total(x, GenOf(t), k);
    assert (s + x(Gen(t, k))) * p.Of(t).varOm == s * p.Of(t).varOm + p.Of(t).varOm * x(Gen(t, k));
  }

  /** The objective's terms for one generator and its variable cost grow by
      the same amount each hour. */
  lemma GenCostGap(p: Params, t: Tech, k: nat, x: Assignment)
    ensures Eval(GenCostTerms(p, t, k + 1), x) - VarCostValue(p, x, t, k + 1)
         == Eval(GenCostTerms(p, t, k), x) - VarCostValue(p, x, t, k)
  {
    GenCostStep(p, t, k, x);
    VarCostStep(p, t, k, x);
  }

  /** One generator's variable cost: the per-MWh cost times its annual output. */
  lemma {:induction false} GenCostValue(p: Params, t: Tech, k: nat, x: Assignment)
    ensures Eval(GenCostTerms(p, t, k), x) == VarCostValue(p, x, t, k)
  {
    if k > 0 {
      GenCostValue(p, t, k - 1, x);
      GenCostGap(p, t, k - 1, x);
    }
  }

  function VarCostValue(p: Params, x: Assignment, t: Tech, hours: nat): real {
    Total(x, GenOf(t), hours) * p.Of(t).varOm
  }

  function VarCostTotal(p: Params, x: Assignment, hours: nat): real {
    VarCostValue(p, x, Solar, hours) + VarCostValue(p, x, Diesel, hours)
    + VarCostValue(p, x, Ccgt, hours) + VarCostValue(p, x, Coal, hours)
  }

  lemma VariableTermsValue(p: Params, x: Assignment, hours: nat)
    ensures Eval(VariableTerms(p, GenTechs, hours), x) == VarCostTotal(p, x, hours)
  {
    var v4 := VariableTerms(p, [Coal], hours);
    assert [Coal][1..] == [] && [Coal][0] == Coal;
    assert VariableTerms(p, [], hours) == [];
    assert v4 == GenCostTerms(p, Coal, hours) + [];
    var v3 := VariableTerms(p, [Ccgt, Coal], hours);
    assert [Ccgt, Coal][1..] == [Coal];
    assert v3 == GenCostTerms(p, Ccgt, hours) + v4;
    var v2 := VariableTerms(p, [Diesel, Ccgt, Coal], hours);
    assert [Diesel, Ccgt, Coal][1..] == [Ccgt, Coal];
    assert v2 == GenCostTerms(p, Diesel, hours) + v3;
    assert GenTechs[1..] == [Diesel, Ccgt, Coal];
    assert VariableTerms(p, GenTechs, hours) == GenCostTerms(p, Solar, hours) + v2;
    EvalConcat(GenCostTerms(p, Coal, hours), [], x);
    EvalConcat(GenCostTerms(p, Ccgt, hours), v4, x);
    EvalConcat(GenCostTerms(p, Diesel, hours), v3, x);
    EvalConcat(GenCostTerms(p, Solar, hours), v2, x);
    GenCostValue(p, Solar, hours, x);
    GenCostValue(p, Diesel, hours, x);
    GenCostValue(p, Ccgt, hours, x);
    GenCostValue(p, Coal, hours, x);
  }

  lemma PenaltyStep(voll: real, k: nat, x: Assignment)
    ensures Eval(PenaltyTerms(voll, k + 1), x) == Eval(PenaltyTerms(voll, k), x) + voll * x(Unserved(k))
  {
    EvalConcat(PenaltyTerms(voll, k), [Term(Unserved(k), voll)], x);
    Eval1([Term(Unserved(k), voll)], x);
  }

  lemma PenaltyTotalStep(voll: real, k: nat, x: Assignment)
    ensures Total(x, UnservedOf, k + 1) * voll == Total(x, UnservedOf, k) * voll + voll * x(Unserved(k))
  {
    var s := Total(x, UnservedOf, k);
    assert (s + x(Unserved(k))) * voll == s * voll + voll * x(Unserved(k));
  }

  /** The unserved-energy penalty: the unserved energy times the value of
      lost load. */
  function PenaltyCost(unserved: real, voll: real): real {
    unserved * voll
  }

  lemma PenaltyGap(voll: real, k: nat, x: Assignment)
    ensures Eval(PenaltyTerms(voll, k + 1), x) - PenaltyCost(Total(x, UnservedOf, k + 1), voll)
         == Eval(PenaltyTerms(voll, k), x) - PenaltyCost(Total(x, UnservedOf, k), voll)
  {
    PenaltyStep(voll, k, x);
    PenaltyTotalStep(voll, k, x);
  }

  /** The penalty part: the value of lost load times the unserved energy. */
  lemma {:induction false} PenaltyValue(voll: real, k: nat, x: Assignment)
    ensures Eval(PenaltyTerms(voll, k), x) == PenaltyCost(Total(x, UnservedOf, k), voll)
  {
    if k > 0 {
      PenaltyValue(voll, k - 1, x);
      PenaltyGap(voll, k - 1, x);
    }
  }

  lemma ObjectiveSplit(input: ModelInput, p: Params, x: Assignment)
    ensures Eval(ObjectiveTerms(input, p), x)
         == Eval(FixedTerms(p, AllTechs), x) + Eval(VariableTerms(p, GenTechs, Hours(input)), x)
          + Eval(PenaltyTerms(input.voll, Hours(input)), x)
  {
    var hours := Hours(input);
    var a, b, c := FixedTerms(p, AllTechs), VariableTerms(p, GenTechs, hours), PenaltyTerms(input.voll, hours);
    EvalConcat(a + b, c, x);
    EvalConcat(a, b, x);
  }

  /** The objective is the fixed cost of the capacities, the variable cost
      of the generators' annual output and the penalty on unserved energy. */
  lemma ObjectiveValue(input: ModelInput, p: Params, x: Assignment)
    ensures Eval(ObjectiveTerms(input, p), x)
         == FixedCostTotal(p, x) + VarCostTotal(p, x, Hours(input)) + PenaltyCost(Total(x, UnservedOf, Hours(input)), input.voll)
  {
    ObjectiveSplit(input, p, x);
    FixedTermsValue(p, x);
    VariableTermsValue(p, x, Hours(input));
    PenaltyValue(input.voll, Hours(input), x);
  }
}
