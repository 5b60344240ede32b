/** Structural facts about the constraint system `build_and_solve` builds:
    how many constraints there are, where each hour's block sits, that the
    names are pairwise distinct (the solver library refuses duplicate
    names), that every variable refers to an hour of the horizon, and that
    only the storage recurrence wraps from the last hour to the first. */
module LpStructure {
  import opened Economics
  import opened LinearProgram

  /** The names of the ten per-hour constraints. */
  predicate IsHourly(n: Name) {
    n.Balance? || n.Cap? || n.BatteryChargeCap? || n.BatteryDischargeCap?
    || n.BatteryEnergyCap? || n.BatterySocBalance? || n.BatteryNet?
  }

  predicate IsRamp(n: Name) {
    n.RampUp? || n.RampDown?
  }

  predicate DistinctNames(cs: seq<Constraint>) {
    forall i, j :: 0 <= i < j < |cs| ==> cs[i].name != cs[j].name
  }

  /** Two lists with distinct names stay distinct when joined, provided a
      test on names holds for every name of the first and for none of the
      second. */
  lemma DistinctApart(a: seq<Constraint>, b: seq<Constraint>, inFirst: Name -> bool)
    requires DistinctNames(a) && DistinctNames(b)
    requires forall i :: 0 <= i < |a| ==> inFirst(a[i].name)
    requires forall j :: 0 <= j < |b| ==> !inFirst(b[j].name)
    ensures DistinctNames(a + b)
  {
    var cs := a + b;
    forall i, j | 0 <= i < j < |cs|
      ensures cs[i].name != cs[j].name
    {
      if j < |a| {
        assert cs[i] == a[i] && cs[j] == a[j];
      } else if i < |a| {
        assert cs[i] == a[i] && cs[j] == b[j - |a|];
      } else {
        assert cs[i] == b[i - |a|] && cs[j] == b[j - |a|];
      }
    }
  }

  /** The hour a constraint name refers to; -1 for the fossil cap. */
  function NameHour(n: Name): int {
    if n.MaximumFossilShare? then -1 else n.h
  }

  /** The names of `cs` carry consecutive keys starting at `offset`; a list
      keyed this way has no repeated name. */
  predicate Keyed(cs: seq<Constraint>, key: Name -> int, offset: int) {
    forall i :: 0 <= i < |cs| ==> key(cs[i].name) == offset + i
  }

  lemma KeyedDistinct(cs: seq<Constraint>, key: Name -> int, offset: int)
    requires Keyed(cs, key, offset)
    ensures DistinctNames(cs)
  {
    forall i, j | 0 <= i < j < |cs|
      ensures cs[i].name != cs[j].name
    {
      assert key(cs[i].name) != key(cs[j].name);
    }
  }

  lemma KeyedJoin(a: seq<Constraint>, b: seq<Constraint>, key: Name -> int, offset: int)
    requires Keyed(a, key, offset) && Keyed(b, key, offset + |a|)
    ensures Keyed(a + b, key, offset)
  {
    forall i | 0 <= i < |a + b|
      ensures key((a + b)[i].name) == offset + i
    {
      if i < |a| {
        assert (a + b)[i] == a[i];
      } else {
        assert (a + b)[i] == b[i - |a|];
      }
    }
  }

  /** The position of an hourly constraint within its hour's block. */
  function HourSlot(n: Name): int {
    match n
    case Balance(_) => 0
    case Cap(t, _) => if t == Solar then 1 else if t == Diesel then 2 else if t == Ccgt then 3 else 4
    case BatteryChargeCap(_) => 5
    case BatteryDischargeCap(_) => 6
    case BatteryEnergyCap(_) => 7
    case BatterySocBalance(_) => 8
    case BatteryNet(_) => 9
    case _ => 0
  }

  /** Where an hourly constraint sits among all hourly constraints. */
  function HourNameKey(n: Name): int {
    10 * NameHour(n) + HourSlot(n)
  }

  /** The position of a ramp constraint within its hour's ramp block. */
  function RampSlot(n: Name): int {
    match n
    case RampUp(t, _) => 2 * TechIndex(t)
    case RampDown(t, _) => 2 * TechIndex(t) + 1
    case _ => 0
  }

  /** The order of the ramp pairs: GEN_TECHS, then the battery. */
  function TechIndex(t: Tech): int {
    match t
    case Solar => 0
    case Diesel => 1
    case Ccgt => 2
    case Coal => 3
    case Battery => 4
  }

  /** Where a ramp constraint sits among all ramp constraints. */
  function RampNameKey(n: Name): int {
    10 * (NameHour(n) - 1) + RampSlot(n)
  }

  /** The hour a variable belongs to; -1 for the capacities. */
  function VarHour(v: Var): int {
    match v
    case Capacity(_) => -1
    case Gen(_, h) => h
    case Charge(h) => h
    case Discharge(h) => h
    case Soc(h) => h
    case Net(h) => h
    case Unserved(h) => h
  }

  /** A variable the source declares for a horizon of `hours` hours: hourly
      variables inside the horizon, and generation only for GEN_TECHS. */
  predicate Declared(v: Var, hours: nat) {
    match v
    case Capacity(_) => true
    case Gen(t, h) => t != Battery && h < hours
    case _ => VarHour(v) < hours
  }

  predicate TermsDeclared(terms: seq<Term>, hours: nat) {
    forall k :: 0 <= k < |terms| ==> Declared(terms[k].v, hours)
  }

  predicate MentionsHour(c: Constraint, hour: int) {
    exists k :: 0 <= k < |c.terms| && VarHour(c.terms[k].v) == hour
  }

  /** A ramp constraint of hour h touches only hours h-1 and h. */
  predicate RampLocal(c: Constraint)
    requires IsRamp(c.name)
  {
    forall k :: 0 <= k < |c.terms| ==>
      var hr := VarHour(c.terms[k].v);
      hr == -1 || hr == c.name.h || hr == c.name.h - 1
  }

  // ---------------------------------------------------------------------
  // The hourly blocks.

  /** Hour h's ten constraints are hourly constraints named after hour h,
      over declared variables. */
  lemma HourConstraintsNamed(input: ModelInput, p: Params, h: nat)
    requires h < Hours(input) && p.etaDischarge > 0.0
    ensures var cs := HourConstraints(input, p, h);
      && |cs| == 10
      && (forall i :: 0 <= i < 10 ==> IsHourly(cs[i].name) && cs[i].name.h == h)
      && (forall i :: 0 <= i < 10 ==> TermsDeclared(cs[i].terms, Hours(input)))
  {
    var cs := HourConstraints(input, p, h);
    assert SocPredecessor(h, Hours(input)) < Hours(input);
    forall i | 0 <= i < 10
      ensures TermsDeclared(cs[i].terms, Hours(input))
    {
    }
  }

  /** Hour h's ten constraints have pairwise distinct names. */
  lemma HourConstraintsDistinct(input: ModelInput, p: Params, h: nat)
    requires h < Hours(input) && p.etaDischarge > 0.0
    ensures DistinctNames(HourConstraints(input, p, h))
  {
    HourConstraintsKeyed(input, p, h);
    KeyedDistinct(HourConstraints(input, p, h), HourNameKey, 10 * h);
  }

  lemma HourConstraintsKeyed(input: ModelInput, p: Params, h: nat)
    requires h < Hours(input) && p.etaDischarge > 0.0
    ensures Keyed(HourConstraints(input, p, h), HourNameKey, 10 * h)
  {
  }

  lemma {:induction false} HourBlocksLength(input: ModelInput, p: Params, k: nat)
    requires k <= Hours(input) && p.etaDischarge > 0.0
    ensures |HourBlocks(input, p, k)| == 10 * k
  {
    if k > 0 {
      HourBlocksLength(input, p, k - 1);
    }
  }

  /** Every constraint of `cs` is an hourly constraint of an hour before
      `k`, over variables declared for a horizon of `hours` hours. */
  predicate HourlyBefore(cs: seq<Constraint>, k: nat, hours: nat) {
    forall i :: 0 <= i < |cs| ==>
      IsHourly(cs[i].name) && cs[i].name.h < k && TermsDeclared(cs[i].terms, hours)
  }

  /** Hours 0 .. k-1 contribute hourly constraints named after their hour,
      over declared variables. */
  lemma {:induction false} HourBlocksNamed(input: ModelInput, p: Params, k: nat)
    requires k <= Hours(input) && p.etaDischarge > 0.0
    ensures HourlyBefore(HourBlocks(input, p, k), k, Hours(input))
  {
    if k > 0 {
      HourBlocksNamed(input, p, k - 1);
      HourConstraintsNamed(input, p, k - 1);
      var a := HourBlocks(input, p, k - 1);
      var b := HourConstraints(input, p, k - 1);
      var cs := a + b;
      assert HourBlocks(input, p, k) == cs;
      forall i | 0 <= i < |cs|
        ensures IsHourly(cs[i].name) && cs[i].name.h < k && TermsDeclared(cs[i].terms, Hours(input))
      {
        if i < |a| {
          assert cs[i] == a[i];
        } else {
          assert cs[i] == b[i - |a|];
        }
      }
    }
  }

  /** The names of hours 0 .. k-1's constraints are pairwise distinct. */
  lemma HourBlocksDistinct(input: ModelInput, p: Params, k: nat)
    requires k <= Hours(input) && p.etaDischarge > 0.0
    ensures DistinctNames(HourBlocks(input, p, k))
  {
    HourBlocksKeyed(input, p, k);
    KeyedDistinct(HourBlocks(input, p, k), HourNameKey, 0);
  }

  lemma {:induction false} HourBlocksKeyed(input: ModelInput, p: Params, k: nat)
    requires k <= Hours(input) && p.etaDischarge > 0.0
    ensures Keyed(HourBlocks(input, p, k), HourNameKey, 0)
  {
    if k > 0 {
      HourBlocksKeyed(input, p, k - 1);
      HourBlocksLength(input, p, k - 1);
      HourConstraintsKeyed(input, p, k - 1);
      KeyedJoin(HourBlocks(input, p, k - 1), HourConstraints(input, p, k - 1), HourNameKey, 0);
    }
  }

  /** Hour h's block sits at positions 10h .. 10h+9. */
  lemma {:induction false} HourBlocksSlice(input: ModelInput, p: Params, k: nat, h: nat)
    requires h < k <= Hours(input) && p.etaDischarge > 0.0
    ensures 10 * h + 10 <= |HourBlocks(input, p, k)|
    ensures HourBlocks(input, p, k)[10 * h .. 10 * h + 10] == HourConstraints(input, p, h)
  {
    HourBlocksLength(input, p, k - 1);
    var a := HourBlocks(input, p, k - 1);
    var b := HourConstraints(input, p, k - 1);
    assert HourBlocks(input, p, k) == a + b;
    if h < k - 1 {
      HourBlocksSlice(input, p, k - 1, h);
      SliceOfJoin(a, b, 10 * h, 10 * h + 10);
    } else {
      assert |a| == 10 * h && |b| == 10;
      SliceOfJoinRight(a, b);
    }
  }

  // ---------------------------------------------------------------------
  // The ramp blocks.

  lemma RampsAtExplicit(p: Params, h: nat)
    requires h >= 1
    ensures RampsAt(p, h) ==
      RampPair(p, Solar, h) + RampPair(p, Diesel, h) + RampPair(p, Ccgt, h) + RampPair(p, Coal, h)
      + RampPair(p, Battery, h)
  {
    assert GenTechs[..3] == [Solar, Diesel, Ccgt];
    assert [Solar, Diesel, Ccgt][..2] == [Solar, Diesel];
    assert [Solar, Diesel][..1] == [Solar];
    assert [Solar][..0] == [];
    assert RampPairs(p, [Solar], h) == RampPair(p, Solar, h);
    assert RampPairs(p, [Solar, Diesel], h) == RampPairs(p, [Solar], h) + RampPair(p, Diesel, h);
    assert RampPairs(p, [Solar, Diesel, Ccgt], h) == RampPairs(p, [Solar, Diesel], h) + RampPair(p, Ccgt, h);
    assert RampPairs(p, GenTechs, h) == RampPairs(p, [Solar, Diesel, Ccgt], h) + RampPair(p, Coal, h);
  }

  lemma RampsAtLength(p: Params, h: nat)
    requires h >= 1
    ensures |RampsAt(p, h)| == 10
  {
    RampsAtExplicit(p, h);
  }

  /** A slice that lies inside the first of two joined lists. */
  lemma SliceOfJoin(a: seq<Constraint>, b: seq<Constraint>, lo: nat, hi: nat)
    requires lo <= hi <= |a|
    ensures (a + b)[lo .. hi] == a[lo .. hi]
  {
  }

  /** The second of two joined lists, sliced back out. */
  lemma SliceOfJoinRight(a: seq<Constraint>, b: seq<Constraint>)
    ensures (a + b)[|a| .. |a| + |b|] == b
  {
  }

  lemma RampConstraintShape(p: Params, t: Tech, h: nat, up: bool, hours: nat)
    requires 1 <= h < hours
    ensures var c := RampConstraint(p, t, h, up);
      && IsRamp(c.name) && c.name.h == h && c.name.t == t && (c.name.RampUp? <==> up)
      && RampLocal(c)
      && TermsDeclared(c.terms, hours)
  {
  }

  /** Hour h has ten ramp constraints, named after hour h, touching only
      hours h-1 and h, over declared variables. */
  lemma RampsAtNamed(p: Params, h: nat, hours: nat)
    requires 1 <= h < hours
    ensures var cs := RampsAt(p, h);
      && |cs| == 10
      && (forall i :: 0 <= i < 10 ==> IsRamp(cs[i].name) && cs[i].name.h == h)
      && (forall i :: 0 <= i < 10 ==> RampLocal(cs[i]) && TermsDeclared(cs[i].terms, hours))
  {
    RampsAtExplicit(p, h);
    forall t: Tech, up: bool
      ensures var c := RampConstraint(p, t, h, up);
        IsRamp(c.name) && c.name.h == h && c.name.t == t && (c.name.RampUp? <==> up)
        && RampLocal(c) && TermsDeclared(c.terms, hours)
    {
      RampConstraintShape(p, t, h, up, hours);
    }
  }

  /** Hour h's ramp constraints have pairwise distinct names. */
  lemma RampsAtDistinct(p: Params, h: nat)
    requires h >= 1
    ensures DistinctNames(RampsAt(p, h))
  {
    RampsAtKeyed(p, h);
    KeyedDistinct(RampsAt(p, h), RampNameKey, 10 * (h - 1));
  }

  lemma RampsAtKeyed(p: Params, h: nat)
    requires h >= 1
    ensures Keyed(RampsAt(p, h), RampNameKey, 10 * (h - 1))
  {
    RampsAtExplicit(p, h);
  }

  lemma {:induction false} RampBlocksLength(p: Params, k: nat)
    ensures |RampBlocks(p, k)| == (if k <= 1 then 0 else 10 * (k - 1))
  {
    if k > 1 {
      RampBlocksLength(p, k - 1);
      RampsAtLength(p, k - 1);
    }
  }

  /** Every constraint of `cs` is a ramp constraint of an hour in 1 .. k-1
      touching only that hour and the one before, over variables declared for
      a horizon of `hours` hours. */
  predicate RampsBefore(cs: seq<Constraint>, k: nat, hours: nat) {
    forall i :: 0 <= i < |cs| ==>
      IsRamp(cs[i].name) && 1 <= cs[i].name.h < k && RampLocal(cs[i]) && TermsDeclared(cs[i].terms, hours)
  }

  /** Hours 1 .. k-1 contribute ramp constraints named after their hour,
      touching only that hour and the one before, over declared variables. */
  lemma {:induction false} RampBlocksNamed(p: Params, k: nat, hours: nat)
    requires k <= hours
    ensures RampsBefore(RampBlocks(p, k), k, hours)
  {
    if k > 1 {
      RampBlocksNamed(p, k - 1, hours);
      RampsAtNamed(p, k - 1, hours);
      var a := RampBlocks(p, k - 1);
      var b := RampsAt(p, k - 1);
      var cs := a + b;
      assert RampBlocks(p, k) == cs;
      forall i | 0 <= i < |cs|
        ensures IsRamp(cs[i].name) && 1 <= cs[i].name.h < k
        ensures RampLocal(cs[i]) && TermsDeclared(cs[i].terms, hours)
      {
        if i < |a| {
          assert cs[i] == a[i];
        } else {
          assert cs[i] == b[i - |a|];
        }
      }
    }
  }

  /** The names of the ramp constraints of hours 1 .. k-1 are pairwise
      distinct. */
  lemma RampBlocksDistinct(p: Params, k: nat)
    ensures DistinctNames(RampBlocks(p, k))
  {
    RampBlocksKeyed(p, k);
    KeyedDistinct(RampBlocks(p, k), RampNameKey, 0);
  }

  lemma {:induction false} RampBlocksKeyed(p: Params, k: nat)
    ensures Keyed(RampBlocks(p, k), RampNameKey, 0)
  {
    if k > 1 {
      RampBlocksKeyed(p, k - 1);
      RampBlocksLength(p, k - 1);
      RampsAtKeyed(p, k - 1);
      KeyedJoin(RampBlocks(p, k - 1), RampsAt(p, k - 1), RampNameKey, 0);
    }
  }


  /** Hour h's ramp constraints sit at positions 10(h-1) .. 10(h-1)+9. */
  lemma {:induction false} RampBlocksSlice(p: Params, k: nat, h: nat)
    requires 1 <= h < k
    ensures 10 * h <= |RampBlocks(p, k)|
    ensures RampBlocks(p, k)[10 * (h - 1) .. 10 * h] == RampsAt(p, h)
  {
    RampBlocksLength(p, k - 1);
    RampsAtLength(p, k - 1);
    var a := RampBlocks(p, k - 1);
    var b := RampsAt(p, k - 1);
    assert RampBlocks(p, k) == a + b;
    if h < k - 1 {
      RampBlocksSlice(p, k - 1, h);
      SliceOfJoin(a, b, 10 * (h - 1), 10 * h);
    } else {
      assert |a| == 10 * (h - 1) && |b| == 10;
      SliceOfJoinRight(a, b);
    }
  }

  lemma {:induction false} FossilTermsDeclared(share: real, k: nat, hours: nat)
    requires k <= hours
    ensures TermsDeclared(FossilTerms(share, k), hours)
  {
    if k > 0 {
      FossilTermsDeclared(share, k - 1, hours);
      var a := FossilTerms(share, k - 1);
      var ts := FossilTerms(share, k);
      forall i | |a| <= i < |ts|
        ensures Declared(ts[i].v, hours)
      {
      }
    }
  }

  // ---------------------------------------------------------------------
  // The whole system.

  /** 10 constraints per hour, one fossil cap when the clamped share is
      positive, and 10 ramp constraints per hour after the first. */
  lemma ModelConstraintCount(input: ModelInput, p: Params)
    requires p.etaDischarge > 0.0
    ensures |ModelConstraints(input, p)|
         == 10 * Hours(input)
          + (if ClampShare(input.minNonFossilShare) > 0.0 then 1 else 0)
          + (if Hours(input) == 0 then 0 else 10 * (Hours(input) - 1))
  {
    HourBlocksLength(input, p, Hours(input));
    RampBlocksLength(p, Hours(input));
  }

  /** No two constraints share a name. */
  lemma ModelNamesDistinct(input: ModelInput, p: Params)
    requires p.etaDischarge > 0.0
    ensures DistinctNames(ModelConstraints(input, p))
  {
    var hours := Hours(input);
    HourBlocksNamed(input, p, hours);
    HourBlocksDistinct(input, p, hours);
    RampBlocksNamed(p, hours, hours);
    RampBlocksDistinct(p, hours);
    var a := HourBlocks(input, p, hours);
    var f := FossilBlock(input);
    var r := RampBlocks(p, hours);
    DistinctApart(a, f, IsHourly);
    forall i | 0 <= i < |a + f|
      ensures !IsRamp((a + f)[i].name)
    {
      if i < |a| {
        assert (a + f)[i] == a[i];
      } else {
        assert (a + f)[i] == f[i - |a|];
      }
    }
    DistinctApart(a + f, r, n => !IsRamp(n));
  }

  /** Every term of every constraint is over a declared variable. */
  lemma ModelVariablesDeclared(input: ModelInput, p: Params)
    requires p.etaDischarge > 0.0
    ensures forall c :: c in ModelConstraints(input, p) ==> TermsDeclared(c.terms, Hours(input))
  {
    var hours := Hours(input);
    HourBlocksNamed(input, p, hours);
    RampBlocksNamed(p, hours, hours);
    FossilTermsDeclared(ClampShare(input.minNonFossilShare), hours, hours);
    var a := HourBlocks(input, p, hours);
    var f := FossilBlock(input);
    var r := RampBlocks(p, hours);
    forall c: Constraint | c in a + f + r
      ensures TermsDeclared(c.terms, hours)
    {
      var i :| 0 <= i < |a + f + r| && (a + f + r)[i] == c;
      if i < |a| {
        assert c == a[i];
      } else if i < |a| + |f| {
        assert c == f[i - |a|];
      } else {
        assert c == r[i - |a| - |f|];
      }
    }
  }

  /** For every hour there is exactly one balance equation, at position 10h,
      and it is the hour's energy balance. */
  lemma ExactlyOneBalance(input: ModelInput, p: Params, h: nat)
    requires p.etaDischarge > 0.0 && h < Hours(input)
    ensures 10 * h < |ModelConstraints(input, p)|
    ensures ModelConstraints(input, p)[10 * h] == BalanceConstraint(input, h)
    ensures forall i :: 0 <= i < |ModelConstraints(input, p)| && ModelConstraints(input, p)[i].name == Balance(h) ==>
      i == 10 * h
  {
    var cs := ModelConstraints(input, p);
    var a := HourBlocks(input, p, Hours(input));
    HourBlocksSlice(input, p, Hours(input), h);
    assert cs[10 * h] == a[10 * h] == a[10 * h .. 10 * h + 10][0];
    ModelNamesDistinct(input, p);
  }

  /** Hour h's ten constraints are at 10h .. 10h+9. */
  lemma HourSlicesInModel(input: ModelInput, p: Params)
    requires p.etaDischarge > 0.0
    ensures var cs := ModelConstraints(input, p);
      forall h :: 0 <= h < Hours(input) ==>
        10 * h + 10 <= |cs| && cs[10 * h .. 10 * h + 10] == HourConstraints(input, p, h)
  {
    var hours := Hours(input);
    var a := HourBlocks(input, p, hours);
    var cs := a + FossilBlock(input) + RampBlocks(p, hours);
    HourBlocksLength(input, p, hours);
    forall h | 0 <= h < hours
      ensures 10 * h + 10 <= |cs| && cs[10 * h .. 10 * h + 10] == HourConstraints(input, p, h)
    {
      HourBlocksSlice(input, p, hours, h);
      assert cs[10 * h .. 10 * h + 10] == a[10 * h .. 10 * h + 10];
    }
  }

  /** The fossil cap, when imposed, directly follows the hourly blocks. */
  lemma FossilCapFollowsHours(input: ModelInput, p: Params)
    requires p.etaDischarge > 0.0 && ClampShare(input.minNonFossilShare) > 0.0
    ensures var cs := ModelConstraints(input, p);
      10 * Hours(input) < |cs| && cs[10 * Hours(input)] == FossilCapConstraint(input, ClampShare(input.minNonFossilShare))
  {
    var a := HourBlocks(input, p, Hours(input));
    HourBlocksLength(input, p, Hours(input));
    assert FossilBlock(input) == [FossilCapConstraint(input, ClampShare(input.minNonFossilShare))];
    assert ModelConstraints(input, p)[|a|] == FossilBlock(input)[0];
  }

  /** Hour h's ramps follow the hourly blocks and the fossil cap, ten per
      hour from hour 1. */
  lemma RampSlicesInModel(input: ModelInput, p: Params)
    requires p.etaDischarge > 0.0
    ensures var cs := ModelConstraints(input, p);
      var offset := 10 * Hours(input) + |FossilBlock(input)|;
      forall h :: 0 <= h < Hours(input) - 1 ==>
        offset + 10 * h + 10 <= |cs| && cs[offset + 10 * h .. offset + 10 * h + 10] == RampsAt(p, h + 1)
  {
    var hours := Hours(input);
    var a := HourBlocks(input, p, hours);
    var f := FossilBlock(input);
    var r := RampBlocks(p, hours);
    var cs := a + f + r;
    HourBlocksLength(input, p, hours);
    forall h | 0 <= h && h + 1 < hours
      ensures |a| + |f| + 10 * h + 10 <= |cs|
      ensures cs[|a| + |f| + 10 * h .. |a| + |f| + 10 * h + 10] == RampsAt(p, h + 1)
    {
      RampBlocksSlice(p, hours, h + 1);
      assert cs[|a| + |f| + 10 * h .. |a| + |f| + 10 * h + 10] == r[10 * h .. 10 * h + 10];
    }
  }

  /** Hour h's ten constraints are at 10h .. 10h+9; the fossil cap follows
      the hourly blocks when present; then the ramps of hours 1, 2, ..., ten
      per hour. */
  lemma ModelLayout(input: ModelInput, p: Params)
    requires p.etaDischarge > 0.0
    ensures var cs := ModelConstraints(input, p);
      var offset := 10 * Hours(input) + |FossilBlock(input)|;
      && (forall h :: 0 <= h < Hours(input) ==>
            10 * h + 10 <= |cs| && cs[10 * h .. 10 * h + 10] == HourConstraints(input, p, h))
      && (ClampShare(input.minNonFossilShare) > 0.0 ==>
            10 * Hours(input) < |cs|
            && cs[10 * Hours(input)] == FossilCapConstraint(input, ClampShare(input.minNonFossilShare)))
      && (forall h :: 0 <= h < Hours(input) - 1 ==>
            offset + 10 * h + 10 <= |cs| && cs[offset + 10 * h .. offset + 10 * h + 10] == RampsAt(p, h + 1))
  {
    HourSlicesInModel(input, p);
    if ClampShare(input.minNonFossilShare) > 0.0 {
      FossilCapFollowsHours(input, p);
    }
    RampSlicesInModel(input, p);
  }

  /** Storage continuity wraps: hour 0's state-of-charge equation refers to
      the state of charge of the last hour. */
  lemma StorageWraps(input: ModelInput, p: Params)
    requires p.etaDischarge > 0.0 && Hours(input) >= 1
    ensures var c := ModelConstraints(input, p)[8];
      && c.name == BatterySocBalance(0)
      && Term(Soc(Hours(input) - 1), -1.0) in c.terms
  {
    var cs := ModelConstraints(input, p);
    var a := HourBlocks(input, p, Hours(input));
    HourBlocksSlice(input, p, Hours(input), 0);
    assert cs[8] == a[0 .. 10][8];
  }

  /** Ramps do not wrap: every ramp constraint belongs to an hour h in
      [1, H-1] and touches only hours h-1 and h, so none links the last hour
      to the first once the horizon has three hours or more. */
  lemma RampsDoNotWrap(input: ModelInput, p: Params)
    requires p.etaDischarge > 0.0
    ensures forall c :: c in ModelConstraints(input, p) && IsRamp(c.name) ==>
      && 1 <= c.name.h < Hours(input)
      && RampLocal(c)
      && (Hours(input) >= 3 ==> !(MentionsHour(c, 0) && MentionsHour(c, Hours(input) - 1)))
  {
    var hours := Hours(input);
    HourBlocksNamed(input, p, hours);
    RampBlocksNamed(p, hours, hours);
    var a := HourBlocks(input, p, hours);
    var f := FossilBlock(input);
    var r := RampBlocks(p, hours);
    forall c: Constraint | c in a + f + r && IsRamp(c.name)
      ensures 1 <= c.name.h < hours && RampLocal(c)
      ensures hours >= 3 ==> !(MentionsHour(c, 0) && MentionsHour(c, hours - 1))
    {
      var i :| 0 <= i < |a + f + r| && (a + f + r)[i] == c;
      if i < |a| + |f| {
        assert false;
      }
      assert c == r[i - |a| - |f|];
    }
  }
}
