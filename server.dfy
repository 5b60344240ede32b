/** The scenario lookup of the dashboard server `frontend/server.py`: which
    result directories it offers, which one it opens by default, how a
    requested scenario id becomes a directory, how assumption labels are
    cleaned for display and which rows a page of the hourly table holds.

    The filesystem is a parameter: whether a path exists, whether it is a
    directory, the names inside the scenario root, and the scenario index
    file as read (or `None`). Paths are sequences of components. */
module Server {
  import opened Wrappers
  import opened Text
  import opened Sorting

  type Path = seq<string>

  /** The directory layout: OUTPUT_DIR (an environment setting) and the
      scenario root beneath it. */
  datatype Layout = Layout(outputDir: Path) {
    function ScenarioRoot(): Path {
      outputDir + ["scenarios"]
    }
  }

  /** The fields of a scenario index row the server passes on unchanged;
      `row.get(key)` is `None` for a missing key. */
  datatype IndexDetails = IndexDetails(
    minNonFossilShare: Option<real>,
    thresholdNonFossilShare: Option<real>,
    enforcedMinNonFossilShare: Option<real>,
    achievedNonFossilShare: Option<real>,
    achievedNonFossilShareServedPrimary: Option<real>,
    achievedFossilShareServedPrimary: Option<real>,
    achievedSolarShareServed: Option<real>,
    status: Option<string>,
    lcoeUsdPerMwhServed: Option<real>)

  /** One row of the index's "scenarios" list; `id` is `str(row["id"])`. */
  datatype IndexRow = IndexRow(id: Option<string>, labelText: Option<string>, details: IndexDetails)

  /** What the server sees on disk. `index` is `None` when the index file is
      missing, is not valid JSON or holds a falsy value (such as `{}`, `[]`
      or `null`), and otherwise its "scenarios" list (empty when the key is
      absent). */
  datatype Disk = Disk(
    present: Path -> bool,
    isDir: Path -> bool,
    rootExists: bool,
    rootEntries: seq<string>,
    index: Option<seq<IndexRow>>)

  datatype Source = Outputs | ScenarioIndex | ScenarioScan

  /** A scenario offered by the dashboard. */
  datatype ScenarioEntry = ScenarioEntry(
    id: string, labelText: string, source: Source, path: Path, details: Option<IndexDetails>)

  /** `_files_for_dir`: the three result files of a directory. */
  function FilesForDir(base: Path): (files: (Path, Path, Path))
    ensures files.0 == base + ["summary.json"]
    ensures files.1 == base + ["hourly_dispatch.csv"]
    ensures files.2 == base + ["cost_breakdown.csv"]
    ensures files.0 != files.1 && files.1 != files.2 && files.0 != files.2
  {
    var files := (base + ["summary.json"], base + ["hourly_dispatch.csv"], base + ["cost_breakdown.csv"]);
    assert files.0[|base|] != files.1[|base|] && files.1[|base|] != files.2[|base|] && files.0[|base|] != files.2[|base|];
    files
  }

  /** `_scenario_exists`: all three result files are present. */
  predicate ScenarioExists(present: Path -> bool, base: Path) {
    var files := FilesForDir(base);
    present(files.0) && present(files.1) && present(files.2)
  }

  // ---------------------------------------------------------------------
  // Discovery.

  function BaseEntry(layout: Layout): ScenarioEntry {
    ScenarioEntry("base", "Base case", Outputs, layout.outputDir, None)
  }

  /** The entry for an index row, when its stripped id is not blank and its
      directory holds the results. */
  function IndexEntry(layout: Layout, disk: Disk, row: IndexRow): Option<ScenarioEntry> {
    var id := Strip(row.id.GetOr(""));
    var dir := layout.ScenarioRoot() + [id];
    if id == [] || !ScenarioExists(disk.present, dir) then None
    else Some(ScenarioEntry(id, row.labelText.GetOr(id), ScenarioIndex, dir, Some(row.details)))
  }

  /** The entry for a name found in the scenario root, when it is a
      directory that holds the results. */
  function ScanEntry(layout: Layout, disk: Disk, name: string): Option<ScenarioEntry> {
    var sub := layout.ScenarioRoot() + [name];
    if !disk.isDir(sub) || !ScenarioExists(disk.present, sub) then None
    else Some(ScenarioEntry(name, name, ScenarioScan, sub, None))
  }

  function IndexEntries(layout: Layout, disk: Disk, rows: seq<IndexRow>): seq<ScenarioEntry> {
    if rows == [] then []
    else
      var last := IndexEntry(layout, disk, rows[|rows| - 1]);
      IndexEntries(layout, disk, rows[..|rows| - 1]) + (if last.Some? then [last.value] else [])
  }

  function ScanEntries(layout: Layout, disk: Disk, names: seq<string>): seq<ScenarioEntry> {
    if names == [] then []
    else
      var last := ScanEntry(layout, disk, names[|names| - 1]);
      ScanEntries(layout, disk, names[..|names| - 1]) + (if last.Some? then [last.value] else [])
  }

  /** `sorted(SCENARIO_ROOT.iterdir())`: the children of one directory,
      ordered by name. */
  function SortedNames(names: seq<string>): seq<string> {
    SortBy(names, (name: string) => name)
  }

  /** The list `_discover_scenarios` builds before de-duplicating: the base
      case when its outputs exist, then the index rows, or, without an
      index, the scanned directories. */
  function Candidates(layout: Layout, disk: Disk): seq<ScenarioEntry> {
    (if ScenarioExists(disk.present, layout.outputDir) then [BaseEntry(layout)] else [])
    + (if disk.index.Some? then IndexEntries(layout, disk, disk.index.value)
       else if disk.rootExists then ScanEntries(layout, disk, SortedNames(disk.rootEntries))
       else [])
  }

  function Ids(s: seq<ScenarioEntry>): set<string> {
    set e | e in s :: e.id
  }

  /** De-duplication by id, keeping the first entry for each id. */
  function Dedup(s: seq<ScenarioEntry>): seq<ScenarioEntry> {
    if s == [] then []
    else
      var kept := Dedup(s[..|s| - 1]);
      if s[|s| - 1].id in Ids(kept) then kept else kept + [s[|s| - 1]]
  }

  lemma DedupStep(s: seq<ScenarioEntry>, i: nat)
    requires i < |s|
    ensures Dedup(s[..i + 1]) == (if s[i].id in Ids(Dedup(s[..i])) then Dedup(s[..i]) else Dedup(s[..i]) + [s[i]])
  {
    assert s[..i + 1][..i] == s[..i];
  }

  lemma IndexEntriesStep(layout: Layout, disk: Disk, rows: seq<IndexRow>, k: nat)
    requires k < |rows|
    ensures IndexEntries(layout, disk, rows[..k + 1])
      == IndexEntries(layout, disk, rows[..k])
         + (if IndexEntry(layout, disk, rows[k]).Some? then [IndexEntry(layout, disk, rows[k]).value] else [])
  {
    assert rows[..k + 1][..k] == rows[..k];
  }

  lemma ScanEntriesStep(layout: Layout, disk: Disk, names: seq<string>, k: nat)
    requires k < |names|
    ensures ScanEntries(layout, disk, names[..k + 1])
      == ScanEntries(layout, disk, names[..k])
         + (if ScanEntry(layout, disk, names[k]).Some? then [ScanEntry(layout, disk, names[k]).value] else [])
  {
    assert names[..k + 1][..k] == names[..k];
  }

  /** The index branch of `_discover_scenarios`. */
  method CollectIndexed(layout: Layout, disk: Disk, rows: seq<IndexRow>) returns (found: seq<ScenarioEntry>)
    ensures found == IndexEntries(layout, disk, rows)
  {
    found := [];
    for k := 0 to |rows|
      invariant found == IndexEntries(layout, disk, rows[..k])
    {
      IndexEntriesStep(layout, disk, rows, k);
      var scenarioId := Strip(rows[k].id.GetOr(""));
      if scenarioId == [] {
        continue;
      }
      var scenarioDir := layout.ScenarioRoot() + [scenarioId];
      if !ScenarioExists(disk.present, scenarioDir) {
        continue;
      }
      found := found + [ScenarioEntry(scenarioId, rows[k].labelText.GetOr(scenarioId), ScenarioIndex,
                                      scenarioDir, Some(rows[k].details))];
    }
    assert rows[..|rows|] == rows;
  }

  /** The scan branch of `_discover_scenarios`, over the sorted names. */
  method CollectScanned(layout: Layout, disk: Disk, names: seq<string>) returns (found: seq<ScenarioEntry>)
    ensures found == ScanEntries(layout, disk, names)
  {
    found := [];
    for k := 0 to |names|
      invariant found == ScanEntries(layout, disk, names[..k])
    {
      ScanEntriesStep(layout, disk, names, k);
      var sub := layout.ScenarioRoot() + [names[k]];
      if !disk.isDir(sub) || !ScenarioExists(disk.present, sub) {
        continue;
      }
      found := found + [ScenarioEntry(names[k], names[k], ScenarioScan, sub, None)];
    }
    assert names[..|names|] == names;
  }

  /** The first half of `_discover_scenarios`: the list before
      de-duplication. */
  method GatherScenarios(layout: Layout, disk: Disk) returns (scenarios: seq<ScenarioEntry>)
    ensures scenarios == Candidates(layout, disk)
  {
    scenarios := [];
    if ScenarioExists(disk.present, layout.outputDir) {
      scenarios := scenarios + [BaseEntry(layout)];
    }
    if disk.index.Some? {
      var found := CollectIndexed(layout, disk, disk.index.value);
      scenarios := scenarios + found;
    } else if disk.rootExists {
      var found := CollectScanned(layout, disk, SortedNames(disk.rootEntries));
      scenarios := scenarios + found;
    }
  }

  /** The second half: the `seen` set and the `deduped` list. */
  method DedupById(scenarios: seq<ScenarioEntry>) returns (deduped: seq<ScenarioEntry>)
    ensures deduped == Dedup(scenarios)
  {
    deduped := [];
    var seen: set<string> := {};
    for i := 0 to |scenarios|
      invariant deduped == Dedup(scenarios[..i]) && seen == Ids(deduped)
    {
      DedupStep(scenarios, i);
      var sid := scenarios[i].id;
      if sid in seen {
        continue;
      }
      seen := seen + {sid};
      IdsSnoc(deduped, scenarios[i]);
      deduped := deduped + [scenarios[i]];
    }
    assert scenarios[..|scenarios|] == scenarios;
  }

  /** `_discover_scenarios` */
  method DiscoverScenarios(layout: Layout, disk: Disk) returns (deduped: seq<ScenarioEntry>)
    ensures deduped == Dedup(Candidates(layout, disk))
  {
    var scenarios := GatherScenarios(layout, disk);
    deduped := DedupById(scenarios);
  }

  // ---------------------------------------------------------------------
  // What discovery promises.

  /** The entries whose id has not appeared earlier in `s`: a reference
      definition of "first appearance" in terms of the input alone. */
  function FirstAppearances(s: seq<ScenarioEntry>): seq<ScenarioEntry> {
    if s == [] then []
    else
      var init := s[..|s| - 1];
      FirstAppearances(init) + (if s[|s| - 1].id in Ids(init) then [] else [s[|s| - 1]])
  }

  lemma IdsSnoc(s: seq<ScenarioEntry>, e: ScenarioEntry)
    ensures Ids(s + [e]) == Ids(s) + {e.id}
  {
    assert forall x :: x in s + [e] <==> x in s || x == e;
  }

  /** De-duplication keeps every id of its input and no other. */
  lemma {:induction false} DedupKeepsIds(s: seq<ScenarioEntry>)
    ensures Ids(Dedup(s)) == Ids(s)
  {
    if s != [] {
      var init := s[..|s| - 1];
      DedupKeepsIds(init);
      assert s == init + [s[|s| - 1]];
      IdsSnoc(init, s[|s| - 1]);
      IdsSnoc(Dedup(init), s[|s| - 1]);
    }
  }

  /** It keeps exactly the first appearance of each id, in input order. */
  lemma {:induction false} DedupFirstAppearances(s: seq<ScenarioEntry>)
    ensures Dedup(s) == FirstAppearances(s)
  {
    if s != [] {
      DedupFirstAppearances(s[..|s| - 1]);
      DedupKeepsIds(s[..|s| - 1]);
    }
  }

  /** The ids it keeps are pairwise distinct. */
  predicate DistinctIds(d: seq<ScenarioEntry>) {
    forall i, j :: 0 <= i < j < |d| ==> d[i].id != d[j].id
  }

  lemma {:induction false} DedupDistinct(s: seq<ScenarioEntry>)
    ensures DistinctIds(Dedup(s))
  {
    if s != [] {
      var init := s[..|s| - 1];
      DedupDistinct(init);
      var kept := Dedup(init);
      if s[|s| - 1].id !in Ids(kept) {
        var d := kept + [s[|s| - 1]];
        assert Dedup(s) == d;
        forall i, j | 0 <= i < j < |d|
          ensures d[i].id != d[j].id
        {
          assert d[i] == kept[i];
          if j == |d| - 1 {
            assert d[j] == s[|s| - 1];
            assert kept[i] in kept;
            assert kept[i].id in Ids(kept);
          } else {
            assert d[j] == kept[j];
          }
        }
      }
    }
  }

  lemma {:induction false} DedupPrefix(a: seq<ScenarioEntry>, b: seq<ScenarioEntry>)
    ensures |Dedup(a)| <= |Dedup(a + b)| && Dedup(a + b)[..|Dedup(a)|] == Dedup(a)
    decreases |b|
  {
    if b == [] {
      assert a + b == a;
    } else {
      var init := b[..|b| - 1];
      DedupPrefix(a, init);
      assert (a + b)[..|a + b| - 1] == a + init;
    }
  }

  /** When the base case's outputs exist, it is offered first. */
  lemma BaseOfferedFirst(layout: Layout, disk: Disk)
    requires ScenarioExists(disk.present, layout.outputDir)
    ensures var d := Dedup(Candidates(layout, disk));
      |d| >= 1 && d[0] == BaseEntry(layout)
  {
    var rest := if disk.index.Some? then IndexEntries(layout, disk, disk.index.value)
                else if disk.rootExists then ScanEntries(layout, disk, SortedNames(disk.rootEntries))
                else [];
    DedupPrefix([BaseEntry(layout)], rest);
    assert Dedup([BaseEntry(layout)]) == [BaseEntry(layout)] by {
      assert [BaseEntry(layout)][..0] == [];
    }
  }

  lemma {:induction false} IndexEntriesValid(layout: Layout, disk: Disk, rows: seq<IndexRow>)
    ensures forall e :: e in IndexEntries(layout, disk, rows) ==>
      && e.id != [] && NoOuterSpace(e.id) && e.source == ScenarioIndex
      && e.path == layout.ScenarioRoot() + [e.id] && ScenarioExists(disk.present, e.path)
  {
    if rows != [] {
      IndexEntriesValid(layout, disk, rows[..|rows| - 1]);
    }
  }

  lemma {:induction false} ScanEntriesValid(layout: Layout, disk: Disk, names: seq<string>)
    ensures forall e :: e in ScanEntries(layout, disk, names) ==>
      && e.source == ScenarioScan && e.id in names
      && e.path == layout.ScenarioRoot() + [e.id] && disk.isDir(e.path) && ScenarioExists(disk.present, e.path)
  {
    if names != [] {
      ScanEntriesValid(layout, disk, names[..|names| - 1]);
    }
  }

  /** Every offered scenario's results exist. Index rows give non-blank
      stripped ids in the scenario root, the scan is used only without an
      index and gives directories there, and the base case is OUTPUT_DIR. */
  lemma OfferedScenariosExist(layout: Layout, disk: Disk)
    ensures forall e :: e in Candidates(layout, disk) ==>
      && ScenarioExists(disk.present, e.path)
      && (e.source == Outputs ==> e == BaseEntry(layout))
      && (e.source == ScenarioIndex ==> disk.index.Some? && e.id != [] && NoOuterSpace(e.id)
                                        && e.path == layout.ScenarioRoot() + [e.id])
      && (e.source == ScenarioScan ==> disk.index.None? && disk.rootExists
                                       && e.path == layout.ScenarioRoot() + [e.id] && disk.isDir(e.path))
  {
    if disk.index.Some? {
      IndexEntriesValid(layout, disk, disk.index.value);
    } else if disk.rootExists {
      ScanEntriesValid(layout, disk, SortedNames(disk.rootEntries));
    }
  }

  lemma {:induction false} DedupSubset(s: seq<ScenarioEntry>)
    ensures forall e :: e in Dedup(s) ==> e in s
  {
    if s != [] {
      DedupSubset(s[..|s| - 1]);
    }
  }

  // ---------------------------------------------------------------------
  // The default scenario.

  /** The id `_default_scenario_id` picks: none without scenarios, else the
      first id other than "base", else the first id. */
  function DefaultIdOf(s: seq<ScenarioEntry>): Option<string> {
    if s == [] then None
    else if s[0].id != "base" then Some(s[0].id)
    else if DefaultIdOf(s[1..]).Some? then DefaultIdOf(s[1..])
    else Some(s[0].id)
  }

  /** The loop with its early return. */
  method DefaultScenarioId(scenarios: seq<ScenarioEntry>) returns (r: Option<string>)
    ensures r == DefaultIdOf(scenarios)
  {
    if scenarios == [] {
      return None;
    }
    for k := 0 to |scenarios|
      invariant forall j :: 0 <= j < k ==> scenarios[j].id == "base"
      invariant DefaultIdOf(scenarios) ==
        (if DefaultIdOf(scenarios[k..]).Some? then DefaultIdOf(scenarios[k..]) else Some(scenarios[0].id))
    {
      assert scenarios[k..][1..] == scenarios[k + 1..];
      if scenarios[k].id != "base" {
        return Some(scenarios[k].id);
      }
    }
    return Some(scenarios[0].id);
  }

  /** The default is the first id other than "base" when there is one, and
      otherwise the first id; there is none only without scenarios. */
  lemma {:induction false} DefaultIdChoice(s: seq<ScenarioEntry>)
    ensures DefaultIdOf(s).None? <==> s == []
    ensures (exists k :: 0 <= k < |s| && s[k].id != "base") ==>
      exists k :: 0 <= k < |s| && DefaultIdOf(s) == Some(s[k].id) && s[k].id != "base"
                  && forall j :: 0 <= j < k ==> s[j].id == "base"
    ensures s != [] && (forall k :: 0 <= k < |s| ==> s[k].id == "base") ==> DefaultIdOf(s) == Some(s[0].id)
  {
    if s != [] && s[0].id == "base" {
      DefaultIdChoice(s[1..]);
      if exists k :: 0 <= k < |s| && s[k].id != "base" {
        var k :| 0 <= k < |s| && s[k].id != "base";
        assert s[1..][k - 1].id != "base";
        var m :| 0 <= m < |s[1..]| && DefaultIdOf(s[1..]) == Some(s[1..][m].id) && s[1..][m].id != "base"
                 && forall j :: 0 <= j < m ==> s[1..][j].id == "base";
        assert s[m + 1] == s[1..][m];
        forall j | 0 <= j < m + 1
          ensures s[j].id == "base"
        {
          if j > 0 {
            assert s[j] == s[1..][j - 1];
          }
        }
      }
    }
  }

  // ---------------------------------------------------------------------
  // Resolving a requested scenario.

  /** The HTTP 404s `_resolve_scenario_dir` raises. */
  datatype LookupError =
    | NoOutputs                       // nothing to default to
    | ScenarioNotFound(id: string)    // the directory lacks a result file

  /** "base" is OUTPUT_DIR; any other id is a directory of the scenario
      root. */
  function ScenarioDir(layout: Layout, id: string): Path {
    if id == "base" then layout.outputDir else layout.ScenarioRoot() + [id]
  }

  /** `_resolve_scenario_dir`: a blank request falls back to the default
      scenario of what discovery offers. */
  function ResolveScenarioDir(layout: Layout, disk: Disk, scenario: Option<string>)
    : (r: Result<(string, Path), LookupError>)
    ensures r.Ok? ==> r.value.1 == ScenarioDir(layout, r.value.0) && ScenarioExists(disk.present, r.value.1)
    ensures var id := Strip(scenario.GetOr(""));
      id != [] ==>
        r == (if ScenarioExists(disk.present, ScenarioDir(layout, id)) then Ok((id, ScenarioDir(layout, id)))
              else Err(ScenarioNotFound(id)))
    ensures var d := DefaultIdOf(Dedup(Candidates(layout, disk)));
      Strip(scenario.GetOr("")) == [] ==>
        r == (if d.None? then Err(NoOutputs)
              else if ScenarioExists(disk.present, ScenarioDir(layout, d.value)) then Ok((d.value, ScenarioDir(layout, d.value)))
              else Err(ScenarioNotFound(d.value)))
  {
    var requested := Strip(scenario.GetOr(""));
    var id :-
      if requested != [] then Ok(requested)
      else
        match DefaultIdOf(Dedup(Candidates(layout, disk)))
        case None => Err(NoOutputs)
        case Some(d) => Ok(d);
    var base := ScenarioDir(layout, id);
    if !ScenarioExists(disk.present, base) then Err(ScenarioNotFound(id)) else Ok((id, base))
  }

  /** A blank request fails only when nothing is offered. */
  lemma BlankRequestWithoutScenarios(layout: Layout, disk: Disk, scenario: Option<string>)
    requires Strip(scenario.GetOr("")) == []
    ensures ResolveScenarioDir(layout, disk, scenario) == Err(NoOutputs)
        <==> Dedup(Candidates(layout, disk)) == []
  {
    DefaultIdChoice(Dedup(Candidates(layout, disk)));
  }

  /** Requesting an offered scenario other than "base" by its id opens the
      directory discovery found for it. */
  lemma OfferedScenarioResolves(layout: Layout, disk: Disk, e: ScenarioEntry)
    requires e in Dedup(Candidates(layout, disk))
    requires e.id != "base" && e.id != [] && NoOuterSpace(e.id)
    ensures ResolveScenarioDir(layout, disk, Some(e.id)) == Ok((e.id, e.path))
  {
    DedupSubset(Candidates(layout, disk));
    OfferedScenariosExist(layout, disk);
    StripNoOuterSpace(e.id);
  }

  // ---------------------------------------------------------------------
  // Assumption labels.

  /** A label cell: `None` or NaN, or the text `str(value)` gives. */
  datatype LabelCell = Missing | Text(text: string)

  predicate IsAscii(c: char) {
    c < 128 as char
  }

  predicate AsciiText(s: string) {
    forall k :: 0 <= k < |s| ==> IsAscii(s[k])
  }

  /** `.encode("ascii", "ignore").decode("ascii")` */
  function AsciiOnly(s: string): (r: string)
    ensures AsciiText(r)
    ensures AsciiText(s) ==> r == s
  {
    if s == [] then []
    else AsciiOnly(s[..|s| - 1]) + (if IsAscii(s[|s| - 1]) then [s[|s| - 1]] else [])
  }

  function DropSpace(s: string): (r: string)
    ensures |r| <= |s| && r == s[|s| - |r|..]
    ensures r == [] || !IsSpace(r[0])
  {
    if s != [] && IsSpace(s[0]) then DropSpace(s[1..]) else s
  }

  /** `re.sub(r"\s+", " ", text)`: every run of whitespace becomes one
      space. */
  function CollapseSpace(s: string): (r: string)
    ensures |r| <= |s|
    decreases |s|
  {
    if s == [] then []
    else if IsSpace(s[0]) then " " + CollapseSpace(DropSpace(s))
    else [s[0]] + CollapseSpace(s[1..])
  }

  /** Whitespace only as single spaces between other characters. */
  predicate SingleSpaced(s: string) {
    && (forall k :: 0 <= k < |s| && IsSpace(s[k]) ==> s[k] == ' ')
    && (forall k :: 0 <= k < |s| - 1 ==> !(IsSpace(s[k]) && IsSpace(s[k + 1])))
  }

  /** `_clean_assumption_label` */
  function CleanAssumptionLabel(value: LabelCell): string {
    match value
    case Missing => ""
    case Text(text) =>
      var cleaned := Strip(CollapseSpace(AsciiOnly(text)));
      if Lower(cleaned) == "nan" then "" else cleaned
  }

  lemma {:induction false} CollapseSpaceShape(s: string)
    ensures SingleSpaced(CollapseSpace(s))
    ensures AsciiText(s) ==> AsciiText(CollapseSpace(s))
    ensures CollapseSpace(s) != [] && IsSpace(CollapseSpace(s)[0]) ==> s != [] && IsSpace(s[0])
    decreases |s|
  {
    if s != [] {
      if IsSpace(s[0]) {
        var rest := DropSpace(s);
        CollapseSpaceShape(rest);
        assert rest == s[|s| - |rest|..];
      } else {
        CollapseSpaceShape(s[1..]);
      }
    }
  }

  /** A single-spaced string is left alone by the collapse. */
  lemma {:induction false} CollapseSpaceFixed(s: string)
    requires SingleSpaced(s)
    ensures CollapseSpace(s) == s
    decreases |s|
  {
    if s != [] {
      if IsSpace(s[0]) {
        assert |s| > 1 ==> !IsSpace(s[1]);
        assert DropSpace(s) == s[1..] by {
          assert DropSpace(s) == DropSpace(s[1..]);
        }
      }
      assert SingleSpaced(s[1..]) by {
        forall k | 0 <= k < |s[1..]| - 1
          ensures !(IsSpace(s[1..][k]) && IsSpace(s[1..][k + 1]))
        {
          assert s[1..][k] == s[k + 1] && s[1..][k + 1] == s[k + 2];
        }
      }
      CollapseSpaceFixed(s[1..]);
    }
  }

  lemma SliceKeepsShape(s: string, a: nat, b: nat)
    requires a <= b <= |s|
    requires SingleSpaced(s) && AsciiText(s)
    ensures SingleSpaced(s[a..b]) && AsciiText(s[a..b])
  {
    var r := s[a..b];
    forall k | 0 <= k < |r| - 1
      ensures !(IsSpace(r[k]) && IsSpace(r[k + 1]))
    {
      assert r[k] == s[a + k] && r[k + 1] == s[a + k + 1];
    }
    forall k | 0 <= k < |r|
      ensures IsAscii(r[k]) && (IsSpace(r[k]) ==> r[k] == ' ')
    {
      assert r[k] == s[a + k];
    }
  }

  lemma StripKeepsShape(s: string)
    requires SingleSpaced(s) && AsciiText(s)
    ensures SingleSpaced(Strip(s)) && AsciiText(Strip(s))
  {
    StripIsSlice(s);
    var off := LeadingSpace(s);
    var r := Strip(s);
    SliceKeepsShape(s, off, off + |r|);
    assert r == s[off..off + |r|];
  }

  /** A cleaned label is plain ASCII, has no outer whitespace and no runs of
      whitespace, and is never "nan" in any case. */
  lemma CleanLabelShape(value: LabelCell)
    ensures var r := CleanAssumptionLabel(value);
      && AsciiText(r)
      && NoOuterSpace(r)
      && SingleSpaced(r)
      && Lower(r) != "nan"
  {
    if value.Text? {
      var a := AsciiOnly(value.text);
      CollapseSpaceShape(a);
      StripKeepsShape(CollapseSpace(a));
    }
  }

  /** Cleaning a cleaned label changes nothing. */
  lemma CleanLabelIdempotent(value: LabelCell)
    ensures var r := CleanAssumptionLabel(value);
      CleanAssumptionLabel(Text(r)) == r
  {
    var r := CleanAssumptionLabel(value);
    CleanLabelShape(value);
    assert AsciiOnly(r) == r;
    CollapseSpaceFixed(r);
    StripNoOuterSpace(r);
    assert Strip(CollapseSpace(AsciiOnly(r))) == r;
  }

  // ---------------------------------------------------------------------
  // The hourly page.

  /** A page of the hourly table: empty when `start` is past the end, and
      otherwise the rows `start` to `end`. */
  datatype Page<T> = PastEnd(totalRows: nat) | Window(totalRows: nat, start: nat, end: nat, rows: seq<T>)

  /** The window arithmetic of `api_hourly`; the query validation gives
      `start >= 0` and `1 <= length <= 8784`. */
  function HourlyWindow<T>(table: seq<T>, start: nat, length: Option<nat>): (page: Page<T>)
    requires length.Some? ==> 1 <= length.value <= 8784
    ensures page.totalRows == |table|
    ensures page.PastEnd? <==> start >= |table|
    ensures page.Window? ==>
      && page.start == start < page.end <= |table|
      && (length.None? ==> page.end == |table|)
      && (length.Some? ==> page.end - start <= length.value
                           && (page.end == |table| || page.end - start == length.value))
      && page.rows == table[start..page.end]
  {
    var end := if length.None? then |table| else if |table| <= start + length.value then |table| else start + length.value;
    if start >= |table| then PastEnd(|table|) else Window(|table|, start, end, table[start..end])
  }

  /** The rows of successive pages of `length` rows from `start` on. */
  function PagesFrom<T>(table: seq<T>, start: nat, length: nat): seq<T>
    requires 1 <= length <= 8784
    decreases |table| - start
  {
    match HourlyWindow(table, start, Some(length))
    case PastEnd(_) => []
    case Window(_, _, end, rows) => rows + PagesFrom(table, end, length)
  }

  /** Paging through the table from the first row returns every row once,
      in order. */
  lemma {:induction false} PagesCoverTable<T>(table: seq<T>, start: nat, length: nat)
    requires 1 <= length <= 8784 && start <= |table|
    ensures PagesFrom(table, start, length) == table[start..]
    decreases |table| - start
  {
    var page := HourlyWindow(table, start, Some(length));
    if page.Window? {
      PagesCoverTable(table, page.end, length);
      assert table[start..] == table[start..page.end] + table[page.end..];
    }
  }
}
