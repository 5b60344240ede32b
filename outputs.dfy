/** The row lists `write_outputs` serialises: the cost breakdown (three rows
    per technology and one trailing penalty row) and the assumption audit
    rows, ordered case-insensitively by name. The files themselves are not
    modelled. */
module Outputs {
  import opened Text
  import opened Sorting
  import opened Economics
  import opened LinearProgram
  import opened Extraction

  /** One row of cost_breakdown.csv. */
  datatype CostRow = CostRow(bucket: string, technology: string, component: string, costUsd: real)

  /** The components listed per technology, in the order they are written. */
  const ComponentNames: seq<string> := ["capex_annualized", "fixed_om", "var_om"]

  /** `component_to_bucket`. */
  const ComponentToBucket: map<string, string> :=
    map["capex_annualized" := "fixed", "fixed_om" := "fixed", "var_om" := "variable"]

  /** `parts.get(f"{component}_usd", 0.0)` on one technology's components. */
  function Part(c: CostComponents, component: string): real {
    if component == "capex_annualized" then c.capexAnnualized
    else if component == "fixed_om" then c.fixedOm
    else if component == "var_om" then c.varOm
    else 0.0
  }

  function Row(t: Tech, c: CostComponents, component: string): CostRow
    requires component in ComponentToBucket
  {
    CostRow(ComponentToBucket[component], TechName(t), component, Part(c, component))
  }

  /** The three rows written for one technology. */
  function TechRows(t: Tech, c: CostComponents): seq<CostRow> {
    [Row(t, c, "capex_annualized"), Row(t, c, "fixed_om"), Row(t, c, "var_om")]
  }

  /** The rows written for the technologies `ts`, in their order. */
  function RowsFor(ts: seq<Tech>, c: PerTech<CostComponents>): seq<CostRow> {
    if ts == [] then [] else RowsFor(ts[..|ts| - 1], c) + TechRows(ts[|ts| - 1], c.Of(ts[|ts| - 1]))
  }

  /** The trailing row carrying the unserved-energy penalty. */
  function PenaltyRow(penalty: real): CostRow {
    CostRow("penalty", "system", "unserved_penalty", penalty)
  }

  /** The whole breakdown: every technology of ALL_TECHS in order, then the
      penalty row. */
  function CostRowsOf(c: PerTech<CostComponents>, penalty: real): seq<CostRow> {
    RowsFor(AllTechs, c) + [PenaltyRow(penalty)]
  }

  lemma RowsForStep(ts: seq<Tech>, c: PerTech<CostComponents>, i: nat)
    requires i < |ts|
    ensures RowsFor(ts[..i + 1], c) == RowsFor(ts[..i], c) + TechRows(ts[i], c.Of(ts[i]))
  {
    assert ts[..i + 1][..i] == ts[..i];
  }

  /** The nested loop of `write_outputs` that appends the breakdown rows. */
  method CostRows(c: PerTech<CostComponents>, penalty: real) returns (rows: seq<CostRow>)
    ensures rows == CostRowsOf(c, penalty)
  {
    rows := [];
    for i := 0 to |AllTechs|
      invariant rows == RowsFor(AllTechs[..i], c)
    {
      var t := AllTechs[i];
      var parts := c.Of(t);
      ghost var before := rows;
      for j := 0 to |ComponentNames|
        invariant rows == before + TechRows(t, parts)[..j]
      {
        var component := ComponentNames[j];
        TechRowsAt(t, parts, j);
        rows := rows + [CostRow(ComponentToBucket[component], TechName(t), component, Part(parts, component))];
        assert TechRows(t, parts)[..j + 1] == TechRows(t, parts)[..j] + [TechRows(t, parts)[j]];
      }
      assert TechRows(t, parts)[..3] == TechRows(t, parts);
      RowsForStep(AllTechs, c, i);
    }
    assert AllTechs[..|AllTechs|] == AllTechs;
    rows := rows + [PenaltyRow(penalty)];
  }

  // ---------------------------------------------------------------------
  // What the breakdown adds up to.

  /** The total of the rows in one bucket. */
  function BucketTotal(rows: seq<CostRow>, bucket: string): real {
    if rows == [] then 0.0
    else BucketTotal(rows[..|rows| - 1], bucket)
         + (if rows[|rows| - 1].bucket == bucket then rows[|rows| - 1].costUsd else 0.0)
  }

  /** The total of all rows. */
  function CostTotal(rows: seq<CostRow>): real {
    if rows == [] then 0.0 else CostTotal(rows[..|rows| - 1]) + rows[|rows| - 1].costUsd
  }

  lemma {:induction false} TotalsConcat(a: seq<CostRow>, b: seq<CostRow>, bucket: string)
    ensures BucketTotal(a + b, bucket) == BucketTotal(a, bucket) + BucketTotal(b, bucket)
    ensures CostTotal(a + b) == CostTotal(a) + CostTotal(b)
    decreases |b|
  {
    if b == [] {
      assert a + b == a;
    } else {
      TotalsConcat(a, b[..|b| - 1], bucket);
      assert (a + b)[..|a + b| - 1] == a + b[..|b| - 1];
    }
  }

  /** One technology's rows: capex and fixed O&M are fixed, var O&M is
      variable, and together they are the technology's total. */
  lemma TechRowsTotals(t: Tech, c: CostComponents)
    ensures BucketTotal(TechRows(t, c), "fixed") == c.capexAnnualized + c.fixedOm
    ensures BucketTotal(TechRows(t, c), "variable") == c.varOm
    ensures BucketTotal(TechRows(t, c), "penalty") == 0.0
    ensures CostTotal(TechRows(t, c)) == c.capexAnnualized + c.fixedOm + c.varOm
  {
    var r := TechRows(t, c);
    assert r[..2] == [r[0], r[1]] && r[..2][..1] == [r[0]] && [r[0]][..0] == [];
    assert r[0].bucket == "fixed" && r[1].bucket == "fixed" && r[2].bucket == "variable";
    assert r[0].costUsd == c.capexAnnualized && r[1].costUsd == c.fixedOm && r[2].costUsd == c.varOm;
    forall bucket
      ensures BucketTotal(r, bucket)
           == (if bucket == "fixed" then r[0].costUsd + r[1].costUsd else 0.0)
            + (if bucket == "variable" then r[2].costUsd else 0.0)
    {
      assert BucketTotal([r[0]][..0], bucket) == 0.0;
      assert BucketTotal(r[..2][..1], bucket) == (if bucket == "fixed" then r[0].costUsd else 0.0);
      assert BucketTotal(r[..2], bucket) == (if bucket == "fixed" then r[0].costUsd + r[1].costUsd else 0.0);
    }
    assert CostTotal(r[..2][..1]) == r[0].costUsd;
    assert CostTotal(r[..2]) == r[0].costUsd + r[1].costUsd;
  }

  lemma AllTechRows(c: PerTech<CostComponents>)
    ensures RowsFor(AllTechs, c)
         == TechRows(Solar, c.solar) + TechRows(Battery, c.battery) + TechRows(Diesel, c.diesel)
          + TechRows(Ccgt, c.ccgt) + TechRows(Coal, c.coal)
  {
    assert AllTechs[..4] == [Solar, Battery, Diesel, Ccgt];
    assert AllTechs[..4][..3] == [Solar, Battery, Diesel];
    assert AllTechs[..4][..3][..2] == [Solar, Battery];
    assert AllTechs[..4][..3][..2][..1] == [Solar];
    assert [Solar][..0] == [];
    assert RowsFor([Solar], c) == TechRows(Solar, c.solar);
    assert RowsFor([Solar, Battery], c) == TechRows(Solar, c.solar) + TechRows(Battery, c.battery);
    assert RowsFor([Solar, Battery, Diesel], c) == RowsFor([Solar, Battery], c) + TechRows(Diesel, c.diesel);
    assert RowsFor([Solar, Battery, Diesel, Ccgt], c) == RowsFor([Solar, Battery, Diesel], c) + TechRows(Ccgt, c.ccgt);
    assert RowsFor(AllTechs, c) == RowsFor([Solar, Battery, Diesel, Ccgt], c) + TechRows(Coal, c.coal);
  }

  lemma {:induction false} RowsForLength(ts: seq<Tech>, c: PerTech<CostComponents>)
    ensures |RowsFor(ts, c)| == 3 * |ts|
  {
    if ts != [] {
      RowsForLength(ts[..|ts| - 1], c);
    }
  }

  lemma {:induction false} RowsForAt(ts: seq<Tech>, c: PerTech<CostComponents>, i: nat, j: nat)
    requires i < |ts| && j < 3
    ensures 3 * i + j < |RowsFor(ts, c)|
    ensures RowsFor(ts, c)[3 * i + j] == TechRows(ts[i], c.Of(ts[i]))[j]
  {
    var init := ts[..|ts| - 1];
    RowsForLength(init, c);
    RowsForLength(ts, c);
    if i < |init| {
      RowsForAt(init, c, i, j);
      assert init[i] == ts[i];
    }
  }

  lemma TechRowsAt(t: Tech, c: CostComponents, j: nat)
    requires j < |ComponentNames|
    ensures ComponentNames[j] in ComponentToBucket
    ensures TechRows(t, c)[j] == Row(t, c, ComponentNames[j])
  {
  }

  /** The breakdown has three rows per technology in ALL_TECHS order, naming
      the technology, the component and its bucket, then the penalty row. */
  lemma CostRowsShape(c: PerTech<CostComponents>, penalty: real)
    ensures var rows := CostRowsOf(c, penalty);
      && |rows| == 3 * |AllTechs| + 1
      && (forall i, j :: 0 <= i < |AllTechs| && 0 <= j < |ComponentNames| ==>
            rows[3 * i + j]
            == CostRow(ComponentToBucket[ComponentNames[j]], TechName(AllTechs[i]), ComponentNames[j],
                       Part(c.Of(AllTechs[i]), ComponentNames[j])))
      && rows[|rows| - 1] == CostRow("penalty", "system", "unserved_penalty", penalty)
  {
    var rows := CostRowsOf(c, penalty);
    RowsForLength(AllTechs, c);
    forall i, j | 0 <= i < |AllTechs| && 0 <= j < |ComponentNames|
      ensures rows[3 * i + j]
           == CostRow(ComponentToBucket[ComponentNames[j]], TechName(AllTechs[i]), ComponentNames[j],
                      Part(c.Of(AllTechs[i]), ComponentNames[j]))
    {
      RowsForAt(AllTechs, c, i, j);
      TechRowsAt(AllTechs[i], c.Of(AllTechs[i]), j);
      assert rows[3 * i + j] == RowsFor(AllTechs, c)[3 * i + j];
    }
    assert rows[|rows| - 1] == PenaltyRow(penalty);
  }

  /** The fixed bucket sums every technology's capex and fixed O&M, the
      variable bucket its var O&M, the penalty bucket the penalty, and all
      rows together the cost component totals. */
  lemma {:induction false} CostRowsTotals(c: PerTech<CostComponents>, penalty: real)
    ensures var rows := CostRowsOf(c, penalty);
      && BucketTotal(rows, "fixed") == SumTechs(FixedCostColumn(c))
      && BucketTotal(rows, "variable") == SumTechs(VarOmColumn(c))
      && BucketTotal(rows, "penalty") == penalty
      && CostTotal(rows)
         == SumTechs(CapexColumn(c)) + SumTechs(FixedOmColumn(c)) + SumTechs(VarOmColumn(c)) + penalty
  {
    AllTechRows(c);
    var s, b, d, g, k := TechRows(Solar, c.solar), TechRows(Battery, c.battery), TechRows(Diesel, c.diesel),
                         TechRows(Ccgt, c.ccgt), TechRows(Coal, c.coal);
    forall bucket | bucket in {"fixed", "variable", "penalty"}
      ensures BucketTotal(CostRowsOf(c, penalty), bucket)
           == BucketTotal(s, bucket) + BucketTotal(b, bucket) + BucketTotal(d, bucket)
            + BucketTotal(g, bucket) + BucketTotal(k, bucket)
            + (if bucket == "penalty" then penalty else 0.0)
      ensures CostTotal(CostRowsOf(c, penalty))
           == CostTotal(s) + CostTotal(b) + CostTotal(d) + CostTotal(g) + CostTotal(k) + penalty
    {
      TotalsConcat(s, b, bucket);
      TotalsConcat(s + b, d, bucket);
      TotalsConcat(s + b + d, g, bucket);
      TotalsConcat(s + b + d + g, k, bucket);
      TotalsConcat(s + b + d + g + k, [PenaltyRow(penalty)], bucket);
      assert [PenaltyRow(penalty)][..0] == [];
    }
    TechRowsTotals(Solar, c.solar);
    TechRowsTotals(Battery, c.battery);
    TechRowsTotals(Diesel, c.diesel);
    TechRowsTotals(Ccgt, c.ccgt);
    TechRowsTotals(Coal, c.coal);
  }

  /** The breakdown against totals computed the way the summary computes
      them. */
  lemma BreakdownMatches(c: PerTech<CostComponents>, penalty: real,
                         fixedTotal: real, variableTotal: real, capex: real, fixedOm: real, varOm: real)
    requires capex == SumTechs(CapexColumn(c)) && fixedOm == SumTechs(FixedOmColumn(c))
    requires varOm == SumTechs(VarOmColumn(c)) && fixedTotal == SumTechs(FixedCostColumn(c))
    requires variableTotal == c.solar.varOm + c.diesel.varOm + c.ccgt.varOm + c.coal.varOm
    requires c.battery.varOm == 0.0
    ensures var rows := CostRowsOf(c, penalty);
      && BucketTotal(rows, "fixed") == fixedTotal
      && BucketTotal(rows, "variable") == variableTotal
      && BucketTotal(rows, "penalty") == penalty
      && CostTotal(rows) == capex + fixedOm + varOm + penalty
  {
    CostRowsTotals(c, penalty);
  }

  /** The breakdown written for a run agrees with its summary: the fixed
      bucket is the total fixed cost, the variable bucket the total variable
      cost, the penalty row the unserved-energy penalty, and all rows the
      cost component totals. */
  lemma SummaryRowsAgree(input: ModelInput, p: Params, out: SolverOutcome, d: Dispatch)
    requires Summarize(input, p, out, d).Ok?
    ensures var r := Summarize(input, p, out, d).value;
      var rows := CostRowsOf(r.components, r.unservedPenalty);
      && BucketTotal(rows, "fixed") == r.totalFixedCost
      && BucketTotal(rows, "variable") == r.totalVariableCost
      && BucketTotal(rows, "penalty") == r.unservedPenalty
      && CostTotal(rows) == r.capexTotal + r.fixedOmTotal + r.varOmTotal + r.unservedPenalty
  {
    var r := Summarize(input, p, out, d).value;
    SummaryCostFields(input, p, out, d);
    CostTableFacts(p, Capacities(out), Annual(d));
    BreakdownMatches(r.components, r.unservedPenalty, r.totalFixedCost, r.totalVariableCost,
                     r.capexTotal, r.fixedOmTotal, r.varOmTotal);
  }

  // ---------------------------------------------------------------------
  // The assumption audit rows.

  /** The sort key `x[0].lower()`. */
  function LowerName(item: (string, real)): string {
    Lower(item.0)
  }

  /** `sorted(assumptions.items(), key=lambda x: x[0].lower())`, with the
      items in the dictionary's insertion order. The rows are the items,
      ordered by lower-cased name. */
  function AssumptionRows(items: seq<(string, real)>): (rows: seq<(string, real)>)
    ensures multiset(rows) == multiset(items)
    ensures SortedBy(rows, LowerName)
  {
    SortBySorted(items, LowerName);
    SortBy(items, LowerName)
  }

  /** Names that differ only in case keep their order in the sheet. */
  lemma AssumptionRowsStable(items: seq<(string, real)>, name: string)
    ensures WithKey(AssumptionRows(items), LowerName, Lower(name)) == WithKey(items, LowerName, Lower(name))
  {
    SortByStable(items, LowerName, Lower(name));
  }
}
