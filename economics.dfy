/** The economic parameter derivation of `optimize_power_lp.py`: turning the
    assumption sheet (name -> number) into per-technology annualized costs,
    ramp limits, lifetimes and the battery's efficiency legs.

    Two library functions the source calls are parameters here:
    `sqrt` stands for `math.sqrt` and `pow` for Python's `**` on floats. */
module Economics {
  import opened Wrappers
  import opened Errors

  /** The technologies of ALL_TECHS; GEN_TECHS are all but the battery. */
  datatype Tech = Solar | Battery | Diesel | Ccgt | Coal

  const AllTechs: seq<Tech> := [Solar, Battery, Diesel, Ccgt, Coal]
  const GenTechs: seq<Tech> := [Solar, Diesel, Ccgt, Coal]

  /** Diesel, CCGT and coal burn fuel; solar and the battery do not. */
  predicate IsFossil(t: Tech) {
    t == Diesel || t == Ccgt || t == Coal
  }

  function TechName(t: Tech): string {
    match t
    case Solar => "solar"
    case Battery => "battery"
    case Diesel => "diesel"
    case Ccgt => "ccgt"
    case Coal => "coal"
  }

  /** The "Cost assumptions" sheet: assumption name -> value. */
  type Assumptions = map<string, real>

  function Max(x: real, y: real): real {
    if x >= y then x else y
  }

  function Min(x: real, y: real): real {
    if x <= y then x else y
  }

  /** `to_fraction`: a value above 1.0 is read as a percentage. */
  function ToFraction(value: real): (r: real)
    ensures value <= 1.0 ==> r == value
    ensures value > 1.0 ==> r * 100.0 == value
  {
    if value > 1.0 then value / 100.0 else value
  }

  /** A percentage up to 100 normalizes to a fraction, and normalizing that
      fraction again changes nothing; beyond 100 the rule is not idempotent
      (150 -> 1.5 -> 0.015). */
  lemma ToFractionSettles(value: real)
    ensures value <= 100.0 ==> ToFraction(value) <= 1.0 && ToFraction(ToFraction(value)) == ToFraction(value)
    ensures value > 100.0 ==> ToFraction(ToFraction(value)) != ToFraction(value)
  {
  }

  /** `b` raised to a natural power. */
  function Pow(b: real, n: nat): real {
    if n == 0 then 1.0 else b * Pow(b, n - 1)
  }

  /** `annualized_capex_per_kw`: the capital recovery factor applied to an
      upfront cost; `pow` is the float power `**`. */
  /** `annualized` is `capex` times the capital recovery factor
      wacc * g / (g - 1), written without the division. */
  predicate RecoveryFactorApplied(annualized: real, capex: real, wacc: real, g: real) {
    annualized * (g - 1.0) == capex * wacc * g
  }

  function AnnualizedCapexPerKw(capexPerKw: real, wacc: real, lifeYears: real, pow: (real, real) -> real)
    : (r: Result<real, Error>)
    ensures lifeYears <= 0.0 ==> r == Ok(0.0)
    ensures lifeYears > 0.0 && wacc == 0.0 ==> r.Ok? && r.value * lifeYears == capexPerKw
    ensures lifeYears > 0.0 && wacc != 0.0 ==>
      var g := pow(1.0 + wacc, lifeYears);
      && (r.Err? <==> g == 1.0)
      && (r.Err? ==> r.error == ZeroDivision)
      && (r.Ok? ==> RecoveryFactorApplied(r.value, capexPerKw, wacc, g))
  {
    if lifeYears <= 0.0 then Ok(0.0)
    else if wacc == 0.0 then Ok(capexPerKw / lifeYears)
    else
      var growth := pow(1.0 + wacc, lifeYears);
      if growth == 1.0 then Err(ZeroDivision)
      else
        var crf := (wacc * growth) / (growth - 1.0);
        Ok(capexPerKw * crf)
  }

  lemma {:induction false} PowAtLeastOne(b: real, n: nat)
    requires b >= 1.0
    ensures Pow(b, n) >= 1.0
    ensures b > 1.0 && n >= 1 ==> Pow(b, n) > 1.0
  {
    if n > 0 {
      PowAtLeastOne(b, n - 1);
      assert b * Pow(b, n - 1) >= Pow(b, n - 1);
      assert b > 1.0 ==> b * Pow(b, n - 1) > Pow(b, n - 1);
    }
  }

  /** Present value of one unit paid at the end of each of `n` years at
      discount rate `r`: the sum of 1 / (1 + r)^t for t = 1..n. */
  function AnnuityFactor(r: real, n: nat): real
    requires r >= 0.0
  {
    if n == 0 then 0.0
    else
      PowAtLeastOne(1.0 + r, n);
      AnnuityFactor(r, n - 1) + 1.0 / Pow(1.0 + r, n)
  }

  /** One induction step of the closed form, as plain algebra. */
  lemma AnnuityStep(r: real, p: real, x: real)
    requires r > 0.0 && p >= 1.0
    requires x * r == 1.0 - 1.0 / p
    ensures (x + 1.0 / ((1.0 + r) * p)) * r == 1.0 - 1.0 / ((1.0 + r) * p)
  {
    var q := 1.0 + r;
    var y := 1.0 / (q * p);
    assert y * q * p == 1.0;
    assert (1.0 / p) * p == 1.0;
    assert q * y == 1.0 / p by {
      assert (q * y) * p == 1.0;
    }
    assert y * r == 1.0 / p - y;
  }

  /** The annuity factor `a` at rate `r` over a horizon with growth `g`
      satisfies a * r == 1 - 1/g. */
  predicate AnnuityClosedForm(a: real, r: real, g: real)
    requires g != 0.0
  {
    a * r == 1.0 - 1.0 / g
  }

  lemma {:induction false} AnnuityFactorClosedForm(r: real, n: nat)
    requires r > 0.0
    ensures Pow(1.0 + r, n) >= 1.0
    ensures AnnuityClosedForm(AnnuityFactor(r, n), r, Pow(1.0 + r, n))
  {
    PowAtLeastOne(1.0 + r, n);
    if n > 0 {
      AnnuityFactorClosedForm(r, n - 1);
      AnnuityStep(r, Pow(1.0 + r, n - 1), AnnuityFactor(r, n - 1));
    }
  }

  lemma {:induction false} AnnuityFactorAtZero(n: nat)
    ensures AnnuityFactor(0.0, n) == n as real
  {
    if n > 0 {
      AnnuityFactorAtZero(n - 1);
      PowOfOne(n);
    }
  }

  lemma {:induction false} PowOfOne(n: nat)
    ensures Pow(1.0, n) == 1.0
  {
    if n > 0 {
      PowOfOne(n - 1);
    }
  }

  /** Paying `annual` each year with annuity factor `a` is worth `capex`
      today. */
  predicate PaysBack(annual: real, a: real, capex: real) {
    annual * a == capex
  }

  lemma ZeroRateAlgebra(capex: real, n: real, v: real, a: real)
    requires v * n == capex && a == n
    ensures PaysBack(v, a, capex)
  {
  }

  /** The last step of the round trip, as plain algebra. */
  lemma RecoveryAlgebra(capex: real, w: real, g: real, v: real, a: real)
    requires w > 0.0 && g > 1.0
    requires RecoveryFactorApplied(v, capex, w, g)
    requires AnnuityClosedForm(a, w, g)
    ensures PaysBack(v, a, capex)
  {
    assert (1.0 / g) * g == 1.0;
    assert a * w * g == g - 1.0;
    assert v * a * (g - 1.0) == capex * (g - 1.0) by {
      calc {
        v * a * (g - 1.0);
        a * (v * (g - 1.0));
        a * (capex * w * g);
        capex * (a * w * g);
      }
    }
  }

  /** The capital recovery factor does what it is for: paying the annualized
      cost every year for the whole life has the same present value as the
      upfront cost (for a non-negative rate and a whole number of years, where
      `**` is the ordinary power). */
  lemma CapitalRecoveryRoundTrip(capex: real, wacc: real, n: nat, pow: (real, real) -> real)
    requires wacc >= 0.0 && n >= 1
    requires pow(1.0 + wacc, n as real) == Pow(1.0 + wacc, n)
    ensures AnnualizedCapexPerKw(capex, wacc, n as real, pow).Ok?
    ensures PaysBack(AnnualizedCapexPerKw(capex, wacc, n as real, pow).value, AnnuityFactor(wacc, n), capex)
  {
    var r := AnnualizedCapexPerKw(capex, wacc, n as real, pow);
    if wacc == 0.0 {
      AnnuityFactorAtZero(n);
      ZeroRateAlgebra(capex, n as real, r.value, AnnuityFactor(wacc, n));
    } else {
      PowAtLeastOne(1.0 + wacc, n);
      AnnuityFactorClosedForm(wacc, n);
      RecoveryAlgebra(capex, wacc, Pow(1.0 + wacc, n), r.value, AnnuityFactor(wacc, n));
    }
  }

  /** `need`: the value stored under `key`, or KeyError when there is none. */
  function Need(a: Assumptions, key: string): (r: Result<real, Error>)
    ensures r.Ok? <==> key in a
    ensures r.Ok? ==> r.value == a[key]
    ensures r.Err? ==> r.error == MissingAssumption(key)
  {
    if key in a then Ok(a[key]) else Err(MissingAssumption(key))
  }

  const ProjectLifeKey: string := "Project life"
  const BatteryDurationKey: string := "Battery duration"
  const DefaultBatteryDuration: real := 4.0
  const WaccKey: string := "Discount rate (WACC)"
  const SolarDegradationKey: string := "Solar degradation"
  const BatteryRteKey: string := "Battery round-trip efficiency"
  const BatteryDegradationKey: string := "Battery degradation"

  function CapexKey(t: Tech): string {
    match t
    case Solar => "Solar PV capex"
    case Battery => "Battery capex"
    case Diesel => "Diesel capex"
    case Ccgt => "CCGT capex"
    case Coal => "Coal capex"
  }

  function FixedOmKey(t: Tech): string {
    match t
    case Solar => "Solar fixed O&M"
    case Battery => "Battery fixed O&M"
    case Diesel => "Diesel fixed O&M"
    case Ccgt => "CCGT fixed O&M"
    case Coal => "Coal fixed O&M"
  }

  function RampKey(t: Tech): string {
    match t
    case Solar => "Solar PV ramp rate"
    case Battery => "Battery ramp rate"
    case Diesel => "Diesel ramp rate"
    case Ccgt => "CCGT ramp rate"
    case Coal => "Coal ramp rate"
  }

  function LifetimeKey(t: Tech): string {
    match t
    case Solar => "Solar lifetime"
    case Battery => "Battery lifetime"
    case Diesel => "Diesel lifetime"
    case Ccgt => "CCGT lifetime"
    case Coal => "Coal lifetime"
  }

  function FuelKey(t: Tech): string
    requires IsFossil(t)
  {
    match t
    case Diesel => "Diesel variable O&M (fuel)"
    case Ccgt => "CCGT variable O&M (fuel)"
    case Coal => "Coal variable O&M (fuel)"
  }

  function OtherVarKey(t: Tech): string
    requires IsFossil(t)
  {
    match t
    case Diesel => "Diesel variable O&M (other)"
    case Ccgt => "CCGT variable O&M (other)"
    case Coal => "Coal variable O&M (other)"
  }

  /** The keys `need` reads before the lifetimes, in the order the source
      reads them. */
  const CostKeys: seq<string> := [
    CapexKey(Solar), FixedOmKey(Solar), SolarDegradationKey,
    CapexKey(Battery), BatteryRteKey, FixedOmKey(Battery), BatteryDegradationKey,
    CapexKey(Diesel), FixedOmKey(Diesel), FuelKey(Diesel), OtherVarKey(Diesel),
    CapexKey(Ccgt), FixedOmKey(Ccgt), FuelKey(Ccgt), OtherVarKey(Ccgt),
    CapexKey(Coal), FixedOmKey(Coal), FuelKey(Coal), OtherVarKey(Coal),
    WaccKey
  ]

  /** The per-technology lifetime keys, in ALL_TECHS order. */
  const LifetimeKeys: seq<string> :=
    [LifetimeKey(Solar), LifetimeKey(Battery), LifetimeKey(Diesel), LifetimeKey(Ccgt), LifetimeKey(Coal)]

  /** The ramp-rate keys, read after the lifetimes. */
  const RampKeys: seq<string> :=
    [RampKey(Solar), RampKey(Battery), RampKey(Diesel), RampKey(Ccgt), RampKey(Coal)]

  predicate AllPresent(a: Assumptions, keys: seq<string>) {
    forall i :: 0 <= i < |keys| ==> keys[i] in a
  }

  /** The position of the first key that is missing. */
  function FirstMissing(a: Assumptions, keys: seq<string>): (i: nat)
    requires !AllPresent(a, keys)
    ensures i < |keys| && keys[i] !in a
    ensures forall j :: 0 <= j < i ==> keys[j] in a
  {
    if keys[0] !in a then 0
    else
      var i := FirstMissing(a, keys[1..]);
      assert forall j :: 1 <= j < 1 + i ==> keys[j] == keys[1..][j - 1];
      1 + i
  }

  /** A run of `need` calls: the values in order, or the KeyError of the first
      missing key. */
  function NeedAll(a: Assumptions, keys: seq<string>): (r: Result<seq<real>, Error>)
    ensures r.Ok? <==> AllPresent(a, keys)
    ensures r.Ok? ==> |r.value| == |keys| && forall i :: 0 <= i < |keys| ==> r.value[i] == a[keys[i]]
    ensures r.Err? ==> r.error == MissingAssumption(keys[FirstMissing(a, keys)])
  {
    if keys == [] then Ok([])
    else
      var v :- Need(a, keys[0]);
      var vs :- NeedAll(a, keys[1..]);
      assert forall i :: 1 <= i < |keys| ==> keys[i] == keys[1..][i - 1];
      Ok([v] + vs)
  }

  /** The nested `get_lifetime`: the technology's own key, else "Project life". */
  function GetLifetime(a: Assumptions, techKey: string): (r: Result<real, Error>)
    ensures techKey in a ==> r == Ok(a[techKey])
    ensures techKey !in a && ProjectLifeKey in a ==> r == Ok(a[ProjectLifeKey])
    ensures r.Err? <==> techKey !in a && ProjectLifeKey !in a
    ensures r.Err? ==> r.error == MissingLifetime(techKey)
  {
    if techKey in a then Ok(a[techKey])
    else if ProjectLifeKey in a then Ok(a[ProjectLifeKey])
    else Err(MissingLifetime(techKey))
  }

  /** One value per technology, like the source's dictionaries keyed by
      ALL_TECHS. */
  datatype PerTech<T> = PerTech(solar: T, battery: T, diesel: T, ccgt: T, coal: T) {
    function Of(t: Tech): T {
      match t
      case Solar => solar
      case Battery => battery
      case Diesel => diesel
      case Ccgt => ccgt
      case Coal => coal
    }
  }

  /** `get_lifetime` for each key in turn; the first that cannot be resolved
      raises. */
  function GetLifetimes(a: Assumptions, keys: seq<string>): (r: Result<seq<real>, Error>)
    ensures r.Ok? <==> ProjectLifeKey in a || AllPresent(a, keys)
    ensures r.Ok? ==> |r.value| == |keys| && forall i :: 0 <= i < |keys| ==> GetLifetime(a, keys[i]) == Ok(r.value[i])
    ensures r.Err? ==> ProjectLifeKey !in a && r.error == MissingLifetime(keys[FirstMissing(a, keys)])
  {
    if keys == [] then Ok([])
    else
      var v :- GetLifetime(a, keys[0]);
      var vs :- GetLifetimes(a, keys[1..]);
      assert forall i :: 1 <= i < |keys| ==> keys[i] == keys[1..][i - 1];
      Ok([v] + vs)
  }

  /** `technology_lifetimes_years`, in ALL_TECHS order. */
  function Lifetimes(a: Assumptions): (r: Result<PerTech<real>, Error>)
    ensures r.Ok? <==> ProjectLifeKey in a || AllPresent(a, LifetimeKeys)
    ensures r.Ok? ==> forall t: Tech :: GetLifetime(a, LifetimeKey(t)) == Ok(r.value.Of(t))
    ensures r.Err? ==> ProjectLifeKey !in a && r.error == MissingLifetime(LifetimeKeys[FirstMissing(a, LifetimeKeys)])
  {
    var ls :- GetLifetimes(a, LifetimeKeys);
    assert LifetimeKeys[0] == LifetimeKey(Solar) && LifetimeKeys[1] == LifetimeKey(Battery);
    assert LifetimeKeys[2] == LifetimeKey(Diesel) && LifetimeKeys[3] == LifetimeKey(Ccgt) && LifetimeKeys[4] == LifetimeKey(Coal);
    Ok(PerTech(ls[0], ls[1], ls[2], ls[3], ls[4]))
  }

  /** `battery_duration`: read with a default of four hours. */
  function BatteryDuration(a: Assumptions): real {
    if BatteryDurationKey in a then a[BatteryDurationKey] else DefaultBatteryDuration
  }

  /** The upfront cost each technology annualizes: $/kW, or for the battery
      $/kWh times its duration in hours. */
  function CapexBasis(a: Assumptions): PerTech<real>
    requires AllPresent(a, CostKeys)
  {
    assert CostKeys[0] == CapexKey(Solar) && CostKeys[3] == CapexKey(Battery) && CostKeys[7] == CapexKey(Diesel);
    assert CostKeys[11] == CapexKey(Ccgt) && CostKeys[15] == CapexKey(Coal);
    PerTech(a[CapexKey(Solar)], a[CapexKey(Battery)] * BatteryDuration(a), a[CapexKey(Diesel)],
            a[CapexKey(Ccgt)], a[CapexKey(Coal)])
  }

  /** `annualized_capex_kw_year`: the capital recovery factor per technology,
      in order; a zero denominator raises. */
  function Annualize(capex: PerTech<real>, wacc: real, life: PerTech<real>, pow: (real, real) -> real)
    : (r: Result<PerTech<real>, Error>)
    ensures r.Ok? <==> forall t: Tech :: AnnualizedCapexPerKw(capex.Of(t), wacc, life.Of(t), pow).Ok?
    ensures r.Ok? ==> forall t: Tech :: AnnualizedCapexPerKw(capex.Of(t), wacc, life.Of(t), pow) == Ok(r.value.Of(t))
    ensures r.Err? ==> r.error == ZeroDivision
  {
    var solar :- AnnualizedCapexPerKw(capex.Of(Solar), wacc, life.Of(Solar), pow);
    var battery :- AnnualizedCapexPerKw(capex.Of(Battery), wacc, life.Of(Battery), pow);
    var diesel :- AnnualizedCapexPerKw(capex.Of(Diesel), wacc, life.Of(Diesel), pow);
    var ccgt :- AnnualizedCapexPerKw(capex.Of(Ccgt), wacc, life.Of(Ccgt), pow);
    var coal :- AnnualizedCapexPerKw(capex.Of(Coal), wacc, life.Of(Coal), pow);
    Ok(PerTech(solar, battery, diesel, ccgt, coal))
  }

  /** What the model needs to know about one technology. */
  datatype TechParams = TechParams(
    lifetimeYears: real,    // technology_lifetimes_years
    rampPerMinute: real,    // ramp rate as a fraction of capacity per minute
    rampPerHour: real,      // ramp_per_hour
    annualizedCapex: real,  // annualized_capex_kw_year, $/kW-yr
    fixedOm: real,          // fixed_om_kw_year, $/kW-yr
    varOm: real)            // var_om_mwh, $/MWh
  {
    /** fixed_cost_kw_year */
    function FixedCost(): real {
      annualizedCapex + fixedOm
    }
  }

  datatype Params = Params(
    wacc: real,
    projectLife: Option<real>,
    techs: PerTech<TechParams>,
    batteryDuration: real,
    batteryRte: real,
    solarAvailable: real,          // max(0, 1 - solar degradation)
    batteryEnergyAvailable: real,  // max(0, 1 - battery degradation)
    batteryEff: real,              // the round-trip efficiency clamped to [1e-6, 1]
    etaCharge: real,
    etaDischarge: real)
  {
    function Of(t: Tech): TechParams {
      techs.Of(t)
    }
  }

  /** `sqrt` behaves as the square root on positive numbers. */
  ghost predicate IsSqrt(sqrt: real -> real) {
    forall x {:trigger sqrt(x)} :: x > 0.0 ==> sqrt(x) > 0.0 && sqrt(x) * sqrt(x) == x
  }

  /** The float power grows on bases above one. */
  ghost predicate PowGrows(pow: (real, real) -> real) {
    forall b, e {:trigger pow(b, e)} :: b > 1.0 && e > 0.0 ==> pow(b, e) > 1.0
  }

  /** The fixed O&M per kW-yr: the battery's is quoted per kWh-yr and is
      scaled by the duration. */
  function FixedOmOf(a: Assumptions, t: Tech): real
    requires AllPresent(a, CostKeys)
  {
    assert CostKeys[1] == FixedOmKey(Solar) && CostKeys[5] == FixedOmKey(Battery) && CostKeys[8] == FixedOmKey(Diesel);
    assert CostKeys[12] == FixedOmKey(Ccgt) && CostKeys[16] == FixedOmKey(Coal);
    if t == Battery then a[FixedOmKey(t)] * BatteryDuration(a) else a[FixedOmKey(t)]
  }

  /** The variable O&M per MWh: fuel plus other for the fossil plants. */
  function VarOmOf(a: Assumptions, t: Tech): real
    requires AllPresent(a, CostKeys)
  {
    assert CostKeys[9] == FuelKey(Diesel) && CostKeys[10] == OtherVarKey(Diesel);
    assert CostKeys[13] == FuelKey(Ccgt) && CostKeys[14] == OtherVarKey(Ccgt);
    assert CostKeys[17] == FuelKey(Coal) && CostKeys[18] == OtherVarKey(Coal);
    if IsFossil(t) then a[FuelKey(t)] + a[OtherVarKey(t)] else 0.0
  }

  function TechParamsOf(a: Assumptions, t: Tech, life: real, annualized: real): TechParams
    requires AllPresent(a, CostKeys) && AllPresent(a, RampKeys)
  {
    assert RampKeys[0] == RampKey(Solar) && RampKeys[1] == RampKey(Battery) && RampKeys[2] == RampKey(Diesel);
    assert RampKeys[3] == RampKey(Ccgt) && RampKeys[4] == RampKey(Coal);
    var perMinute := ToFraction(a[RampKey(t)]);
    TechParams(life, perMinute, perMinute * 60.0, annualized, FixedOmOf(a, t), VarOmOf(a, t))
  }

  /** The battery's round-trip efficiency, clamped so that each leg is
      positive. */
  function ClampEfficiency(rte: real): (eff: real)
    ensures 0.000001 <= eff <= 1.0
    ensures 0.000001 <= rte <= 1.0 ==> eff == rte
  {
    Max(0.000001, Min(rte, 1.0))
  }

  /** The parameter set once every lookup has succeeded. */
  function Assemble(a: Assumptions, life: PerTech<real>, annualized: PerTech<real>, sqrt: real -> real): Params
    requires AllPresent(a, CostKeys) && AllPresent(a, RampKeys)
  {
    assert CostKeys[2] == SolarDegradationKey && CostKeys[4] == BatteryRteKey;
    assert CostKeys[6] == BatteryDegradationKey && CostKeys[19] == WaccKey;
    var rte := ToFraction(a[BatteryRteKey]);
    var eff := ClampEfficiency(rte);
    Params(
      ToFraction(a[WaccKey]),
      if ProjectLifeKey in a then Some(a[ProjectLifeKey]) else None,
      PerTech(
        TechParamsOf(a, Solar, life.solar, annualized.solar),
        TechParamsOf(a, Battery, life.battery, annualized.battery),
        TechParamsOf(a, Diesel, life.diesel, annualized.diesel),
        TechParamsOf(a, Ccgt, life.ccgt, annualized.ccgt),
        TechParamsOf(a, Coal, life.coal, annualized.coal)),
      BatteryDuration(a),
      rte,
      Max(0.0, 1.0 - ToFraction(a[SolarDegradationKey])),
      Max(0.0, 1.0 - ToFraction(a[BatteryDegradationKey])),
      eff,
      sqrt(eff),
      sqrt(eff))
  }

  /** The parameter block at the top of `build_and_solve`: every `need`, the
      lifetimes, the ramp conversion, annualization and the battery split,
      failing with the first exception the source raises. */
  function DeriveParameters(a: Assumptions, sqrt: real -> real, pow: (real, real) -> real)
    : (r: Result<Params, Error>)
    ensures !AllPresent(a, CostKeys) ==> r == Err(MissingAssumption(CostKeys[FirstMissing(a, CostKeys)]))
    ensures AllPresent(a, CostKeys) && ProjectLifeKey !in a && !AllPresent(a, LifetimeKeys) ==>
      r == Err(MissingLifetime(LifetimeKeys[FirstMissing(a, LifetimeKeys)]))
    ensures AllPresent(a, CostKeys) && (ProjectLifeKey in a || AllPresent(a, LifetimeKeys)) && !AllPresent(a, RampKeys) ==>
      r == Err(MissingAssumption(RampKeys[FirstMissing(a, RampKeys)]))
    ensures AllPresent(a, CostKeys) && (ProjectLifeKey in a || AllPresent(a, LifetimeKeys)) && AllPresent(a, RampKeys) ==>
      (r.Err? ==> r.error == ZeroDivision)
  {
    var _ :- NeedAll(a, CostKeys);
    var life :- Lifetimes(a);
    var _ :- NeedAll(a, RampKeys);
    assert CostKeys[19] == WaccKey;
    var annualized :- Annualize(CapexBasis(a), ToFraction(a[WaccKey]), life, pow);
    Ok(Assemble(a, life, annualized, sqrt))
  }

  /** How one technology's parameters follow from the assumption sheet. */
  ghost predicate TechDerivedFrom(a: Assumptions, p: Params, t: Tech, pow: (real, real) -> real)
    requires AllPresent(a, CostKeys) && AllPresent(a, RampKeys)
  {
    && RampKey(t) in a
    && GetLifetime(a, LifetimeKey(t)) == Ok(p.Of(t).lifetimeYears)
    && p.Of(t).rampPerMinute == ToFraction(a[RampKey(t)])
    && p.Of(t).rampPerHour == p.Of(t).rampPerMinute * 60.0
    && AnnualizedCapexPerKw(CapexBasis(a).Of(t), p.wacc, p.Of(t).lifetimeYears, pow) == Ok(p.Of(t).annualizedCapex)
    && p.Of(t).fixedOm == FixedOmOf(a, t)
    && p.Of(t).varOm == VarOmOf(a, t)
  }

  /** How every derived parameter follows from the assumption sheet. */
  ghost predicate DerivedFrom(a: Assumptions, p: Params, sqrt: real -> real, pow: (real, real) -> real) {
    && AllPresent(a, CostKeys) && AllPresent(a, RampKeys)
    && WaccKey in a && BatteryRteKey in a && SolarDegradationKey in a && BatteryDegradationKey in a
    && p.wacc == ToFraction(a[WaccKey])
    && p.batteryDuration == BatteryDuration(a)
    && p.batteryRte == ToFraction(a[BatteryRteKey])
    && p.solarAvailable == Max(0.0, 1.0 - ToFraction(a[SolarDegradationKey]))
    && p.batteryEnergyAvailable == Max(0.0, 1.0 - ToFraction(a[BatteryDegradationKey]))
    && p.batteryEff == ClampEfficiency(p.batteryRte)
    && p.etaCharge == p.etaDischarge == sqrt(p.batteryEff)
    && p.projectLife == (if ProjectLifeKey in a then Some(a[ProjectLifeKey]) else None)
    && forall t: Tech :: TechDerivedFrom(a, p, t, pow)
  }

  /** `Assemble` computes one technology's parameters as the source does. */
  lemma AssembleTech(a: Assumptions, life: PerTech<real>, annualized: PerTech<real>,
                     sqrt: real -> real, pow: (real, real) -> real, t: Tech)
    requires AllPresent(a, CostKeys) && AllPresent(a, RampKeys)
    requires GetLifetime(a, LifetimeKey(t)) == Ok(life.Of(t))
    requires AnnualizedCapexPerKw(CapexBasis(a).Of(t), Assemble(a, life, annualized, sqrt).wacc, life.Of(t), pow)
             == Ok(annualized.Of(t))
    ensures TechDerivedFrom(a, Assemble(a, life, annualized, sqrt), t, pow)
  {
    var p := Assemble(a, life, annualized, sqrt);
    assert p.Of(t) == TechParamsOf(a, t, life.Of(t), annualized.Of(t));
    assert RampKeys[0] == RampKey(Solar) && RampKeys[1] == RampKey(Battery) && RampKeys[2] == RampKey(Diesel);
    assert RampKeys[3] == RampKey(Ccgt) && RampKeys[4] == RampKey(Coal);
  }

  /** `Assemble` computes every parameter as the source does, given the
      lifetimes and annualized costs the earlier stages produced. */
  lemma AssembleDerived(a: Assumptions, life: PerTech<real>, annualized: PerTech<real>,
                        sqrt: real -> real, pow: (real, real) -> real)
    requires AllPresent(a, CostKeys) && AllPresent(a, RampKeys) && WaccKey in a
    requires forall t: Tech :: GetLifetime(a, LifetimeKey(t)) == Ok(life.Of(t))
    requires forall t: Tech ::
      AnnualizedCapexPerKw(CapexBasis(a).Of(t), ToFraction(a[WaccKey]), life.Of(t), pow) == Ok(annualized.Of(t))
    ensures DerivedFrom(a, Assemble(a, life, annualized, sqrt), sqrt, pow)
  {
    assert CostKeys[19] == WaccKey && CostKeys[4] == BatteryRteKey;
    assert CostKeys[2] == SolarDegradationKey && CostKeys[6] == BatteryDegradationKey;
    forall t: Tech
      ensures TechDerivedFrom(a, Assemble(a, life, annualized, sqrt), t, pow)
    {
      AssembleTech(a, life, annualized, sqrt, pow, t);
    }
  }

  /** A successful derivation computes every parameter as the source does. */
  lemma DeriveParametersSound(a: Assumptions, sqrt: real -> real, pow: (real, real) -> real)
    requires DeriveParameters(a, sqrt, pow).Ok?
    ensures DerivedFrom(a, DeriveParameters(a, sqrt, pow).value, sqrt, pow)
  {
    assert AllPresent(a, CostKeys) && AllPresent(a, RampKeys);
    assert CostKeys[19] == WaccKey;
    var life := Lifetimes(a).value;
    var annualized := Annualize(CapexBasis(a), ToFraction(a[WaccKey]), life, pow).value;
    assert DeriveParameters(a, sqrt, pow).value == Assemble(a, life, annualized, sqrt);
    AssembleDerived(a, life, annualized, sqrt, pow);
  }

  /** A successful derivation is an assembly of the sheet's values. */
  lemma DeriveParametersAssembles(a: Assumptions, sqrt: real -> real, pow: (real, real) -> real)
    requires DeriveParameters(a, sqrt, pow).Ok?
    ensures AllPresent(a, CostKeys) && AllPresent(a, RampKeys) && BatteryRteKey in a
    ensures exists life, annualized :: DeriveParameters(a, sqrt, pow).value == Assemble(a, life, annualized, sqrt)
  {
    assert AllPresent(a, CostKeys) && AllPresent(a, RampKeys);
    assert CostKeys[19] == WaccKey && CostKeys[4] == BatteryRteKey;
    var life := Lifetimes(a).value;
    var annualized := Annualize(CapexBasis(a), ToFraction(a[WaccKey]), life, pow).value;
    assert DeriveParameters(a, sqrt, pow).value == Assemble(a, life, annualized, sqrt);
  }

  /** Splitting a positive efficiency into two square-root legs. */
  lemma SquareRootLegs(eff: real, sqrt: real -> real)
    requires IsSqrt(sqrt) && eff > 0.0
    ensures sqrt(eff) > 0.0 && sqrt(eff) * sqrt(eff) == eff
  {
  }

  /** The round-trip efficiency lies in [1e-6, 1] and is split into two
      equal positive legs whose product is the round trip. */
  predicate BatteryLegsValid(p: Params) {
    && 0.000001 <= p.batteryEff <= 1.0
    && p.etaCharge == p.etaDischarge
    && p.etaDischarge > 0.0
    && p.etaCharge * p.etaDischarge == p.batteryEff
  }

  /** The battery legs: the clamped efficiency lies in [1e-6, 1] and is split
      into two equal legs whose product is the round trip, so 1/eta_discharge
      is always defined. */
  lemma BatteryLegsSplit(a: Assumptions, sqrt: real -> real, pow: (real, real) -> real)
    requires IsSqrt(sqrt)
    requires DeriveParameters(a, sqrt, pow).Ok?
    ensures BatteryLegsValid(DeriveParameters(a, sqrt, pow).value)
  {
    DeriveParametersAssembles(a, sqrt, pow);
    var life, annualized :| DeriveParameters(a, sqrt, pow).value == Assemble(a, life, annualized, sqrt);
    AssembledLegs(a, life, annualized, sqrt);
  }

  lemma AssembledLegs(a: Assumptions, life: PerTech<real>, annualized: PerTech<real>, sqrt: real -> real)
    requires IsSqrt(sqrt)
    requires AllPresent(a, CostKeys) && AllPresent(a, RampKeys)
    ensures BatteryLegsValid(Assemble(a, life, annualized, sqrt))
  {
    var p := Assemble(a, life, annualized, sqrt);
    SquareRootLegs(p.batteryEff, sqrt);
  }

  /** The derivation succeeds whenever every required key is present, each
      lifetime can be resolved, the rate is not negative and the power grows. */
  lemma DeriveParametersSucceeds(a: Assumptions, sqrt: real -> real, pow: (real, real) -> real)
    requires AllPresent(a, CostKeys) && AllPresent(a, RampKeys)
    requires ProjectLifeKey in a || AllPresent(a, LifetimeKeys)
    requires WaccKey in a && a[WaccKey] >= 0.0
    requires PowGrows(pow)
    ensures DeriveParameters(a, sqrt, pow).Ok?
  {
    var wacc := ToFraction(a[WaccKey]);
    assert wacc >= 0.0;
    forall capex: real, life: real
      ensures AnnualizedCapexPerKw(capex, wacc, life, pow).Ok?
    {
      if life > 0.0 && wacc != 0.0 {
        assert pow(1.0 + wacc, life) > 1.0;
      }
    }
  }
}
