/** The refactoring planner: plan metrics, scoring and classification of
    issues, hotspot and quick-win selection, the phased roadmap and the
    health verdict of the executive summary.

    Priority scores are kept in tenths of the source's float scores: 100,
    50 and 10, scaled by 1.2 or 1.1, are exactly 1000, 500 and 100, scaled
    by 12/10 or 11/10. */
module Planner {
  import opened Wrappers
  import opened Text
  import opened Seqs
  import opened StyleRules
  import Project

  // ---------------------------------------------------------------------
  // Metrics
  // ---------------------------------------------------------------------

  /** `PlanMetric`, without the float `average_complexity_score`. */
  datatype PlanMetric = PlanMetric(totalFiles: nat, totalFunctions: nat, totalIssues: nat,
                                   criticalCount: nat, warningCount: nat, infoCount: nat,
                                   duplicateCount: nat)

  function FileOf(i: Issue): string { i.file }

  /** The string key the planner builds for a function. */
  function KeyOf(i: Issue): string { i.file + ":" + i.functionName }

  /** The (file, function) pair the key stands for. */
  function PairOf(i: Issue): (string, string) { (i.file, i.functionName) }

  predicate IsCritical(i: Issue) { i.severity == Critical }
  predicate IsWarn(i: Issue) { i.severity == Warn }
  predicate IsInfo(i: Issue) { i.severity == Info }

  /** `_calculate_metrics`. */
  function CalculateMetrics(issues: seq<Issue>, analysis: Option<Project.ProjectAnalysis>): (m: PlanMetric)
    ensures m.totalIssues == |issues|
    ensures m.totalFiles <= |issues| && m.totalFunctions <= |issues|
    ensures m.totalFiles == 0 <==> |issues| == 0
    ensures analysis.None? ==> m.duplicateCount == 0
    ensures analysis.Some? ==> m.duplicateCount == |analysis.value.duplicates|
  {
    PlanMetric(|Image(issues, FileOf)|, |Image(issues, KeyOf)|, |issues|,
               Count(issues, IsCritical), Count(issues, IsWarn), Count(issues, IsInfo),
               if analysis.Some? then |analysis.value.duplicates| else 0)
  }

  /** Every issue has exactly one of the three severities, so the three
      counters add up to the issue count. */
  lemma {:induction false} SeverityCountsAddUp(issues: seq<Issue>)
    ensures var m := CalculateMetrics(issues, None);
            m.criticalCount + m.warningCount + m.infoCount == m.totalIssues
  {
    if |issues| > 0 {
      SeverityCountsAddUp(issues[1..]);
    }
  }

  /** When the key `file:name` reappears, the colon after the file sits
      inside the function name of one of the two. */
  lemma ColonInName(a: string, f1: string, b: string, f2: string)
    requires a + ":" + f1 == b + ":" + f2
    requires |a| < |b|
    ensures ':' in f1
  {
    var s := a + ":" + f1;
    assert s[|b|] == ':';
    assert f1[|b| - |a| - 1] == s[|b|];
  }

  /** Function names are identifiers, which hold no colon; then the key
      determines the file and the function. */
  lemma KeyDeterminesPair(a: string, f1: string, b: string, f2: string)
    requires ':' !in f1 && ':' !in f2
    requires a + ":" + f1 == b + ":" + f2
    ensures a == b && f1 == f2
  {
    if |a| < |b| {
      ColonInName(a, f1, b, f2);
      assert false;
    } else if |b| < |a| {
      ColonInName(b, f2, a, f1);
      assert false;
    } else {
      var s := a + ":" + f1;
      assert a == s[..|a|];
      assert f1 == s[|a| + 1..];
    }
  }

  /** With colon-free function names, `total_functions` is the number of
      distinct (file, function) pairs, so it lies between the number of
      files and the number of issues. */
  lemma FunctionsBetweenFilesAndIssues(issues: seq<Issue>, analysis: Option<Project.ProjectAnalysis>)
    requires forall k :: 0 <= k < |issues| ==> ':' !in issues[k].functionName
    ensures var m := CalculateMetrics(issues, analysis);
            && m.totalFunctions == |Image(issues, PairOf)|
            && m.totalFiles <= m.totalFunctions <= m.totalIssues
  {
    forall i, j | 0 <= i < |issues| && 0 <= j < |issues|
      ensures PairOf(issues[i]) == PairOf(issues[j]) <==> KeyOf(issues[i]) == KeyOf(issues[j])
    {
      if KeyOf(issues[i]) == KeyOf(issues[j]) {
        KeyDeterminesPair(issues[i].file, issues[i].functionName, issues[j].file, issues[j].functionName);
      }
    }
    ImageSameSize(issues, PairOf, KeyOf);
    ImageCoarser(issues, PairOf, FileOf);
  }

  // ---------------------------------------------------------------------
  // Scoring and classification
  // ---------------------------------------------------------------------

  datatype Level = Low | Medium | High
  {
    function Label(): string {
      match this
      case Low => "Low"
      case Medium => "Medium"
      case High => "High"
    }
  }

  /** The base score by severity, in tenths. */
  function BaseScore(s: Severity): nat {
    match s
    case Critical => 1000
    case Warn => 500
    case Info => 100
  }

  /** `priority_score` in tenths: the base score, times 1.2 for deep
      nesting or 1.1 for too many parameters. */
  function Score(i: Issue): nat {
    if i.ruleName == NestingRule then BaseScore(i.severity) * 12 / 10
    else if i.ruleName == ParamsRule then BaseScore(i.severity) * 11 / 10
    else BaseScore(i.severity)
  }

  /** The nine possible scores, and their order: severity first, then the
      rule (nesting above parameters above any other rule). */
  lemma ScoreTable(i: Issue)
    ensures i.severity == Critical ==> Score(i) in {1000, 1100, 1200}
    ensures i.severity == Warn ==> Score(i) in {500, 550, 600}
    ensures i.severity == Info ==> Score(i) in {100, 110, 120}
    ensures i.ruleName == NestingRule ==> Score(i) * 10 == BaseScore(i.severity) * 12
    ensures i.ruleName == ParamsRule ==> Score(i) * 10 == BaseScore(i.severity) * 11
  {
  }

  /** A more severe issue always outranks a less severe one, whatever the
      rules. */
  lemma SeverityDominatesScore(i: Issue, j: Issue)
    requires i.severity.Rank() > j.severity.Rank()
    ensures Score(i) > Score(j)
  {
  }

  /** `details.get("length", 0)`, with missing details as `{}`. */
  function DetailLength(i: Issue): int {
    if i.details.Some? && "length" in i.details.value then i.details.value["length"] else 0
  }

  /** The quick-win test: INFO, or a length issue under 40 lines. */
  predicate IsQuickWin(i: Issue) {
    i.severity == Info || (i.ruleName == LengthRule && DetailLength(i) < 40)
  }

  /** The effort the scoring loop settles on. */
  function Effort(i: Issue): (e: Level)
    ensures e == Low <==> IsQuickWin(i)
    ensures e == High <==> !IsQuickWin(i) && (i.ruleName == NestingRule
                                              || (i.ruleName != ParamsRule && i.severity == Critical))
    ensures !IsQuickWin(i) && i.ruleName == ParamsRule ==> e == Medium
  {
    var bySeverity := if i.severity == Critical then High else Medium;
    var byRule := if i.ruleName == NestingRule then High
                  else if i.ruleName == ParamsRule then Medium
                  else bySeverity;
    if IsQuickWin(i) then Low else byRule
  }

  /** Impact follows the severity alone. */
  function Impact(i: Issue): (e: Level)
    ensures e.Label() == (match i.severity case Critical => "High" case Warn => "Medium" case Info => "Low")
  {
    match i.severity
    case Critical => High
    case Warn => Medium
    case Info => Low
  }

  /** `RefactorItem`. */
  datatype RefactorItem = RefactorItem(priorityScore: nat, issue: Issue, filePath: string,
                                       functionName: string, description: string,
                                       effort: Level, impact: Level)
  {
    /** `__lt__`: an item sorts before another with a lower score. */
    predicate Lt(other: RefactorItem) { priorityScore > other.priorityScore }
  }

  /** `__lt__` is a strict order, and a sequence in which no item is
      "less" than an earlier one is ordered by descending score. */
  lemma LtOrder(a: RefactorItem, b: RefactorItem, c: RefactorItem, s: seq<RefactorItem>)
    ensures !a.Lt(a)
    ensures a.Lt(b) ==> !b.Lt(a)
    ensures a.Lt(b) && b.Lt(c) ==> a.Lt(c)
    ensures a.Lt(b) <==> ScoreOf(a) > ScoreOf(b)
    ensures (forall i, j :: 0 <= i < j < |s| ==> !s[j].Lt(s[i])) <==> SortedDesc(s, ScoreOf)
  {
  }

  function ScoreOf(x: RefactorItem): int { x.priorityScore }

  function MakeItem(i: Issue): (r: RefactorItem)
    ensures r.issue == i && r.filePath == i.file && r.functionName == i.functionName
    ensures r.description == i.message
    ensures r.priorityScore == Score(i) && r.effort == Effort(i) && r.impact == Impact(i)
  {
    RefactorItem(Score(i), i, i.file, i.functionName, i.message, Effort(i), Impact(i))
  }

  /** `_prioritize_issues`: one item per issue, in issue order. */
  function PrioritizeIssues(issues: seq<Issue>): (r: seq<RefactorItem>)
    ensures |r| == |issues|
    ensures forall k :: 0 <= k < |r| ==> r[k] == MakeItem(issues[k])
  {
    seq(|issues|, k requires 0 <= k < |issues| => MakeItem(issues[k]))
  }

  // ---------------------------------------------------------------------
  // Selection
  // ---------------------------------------------------------------------

  const TopCount := 5

  /** `sorted(items, key=score, reverse=True)[:5]`. */
  function Hotspots(items: seq<RefactorItem>): (r: seq<RefactorItem>)
    ensures |r| == if |items| < TopCount then |items| else TopCount
    ensures SortedDesc(r, ScoreOf)
    ensures forall x :: x in r ==> x in items
  {
    TopN(items, ScoreOf, TopCount)
  }

  predicate IsLowEffort(x: RefactorItem) { x.effort == Low }

  /** `_identify_quick_wins`: the low-effort items, best first, at most
      five. */
  function QuickWins(items: seq<RefactorItem>): (r: seq<RefactorItem>)
    ensures |r| == if Count(items, IsLowEffort) < TopCount then Count(items, IsLowEffort) else TopCount
    ensures SortedDesc(r, ScoreOf)
    ensures forall x :: x in r ==> x in items && x.effort == Low
  {
    CountIsFilterLength(items, IsLowEffort);
    FilterMembers(items, IsLowEffort);
    TopN(Filter(items, IsLowEffort), ScoreOf, TopCount)
  }

  /** No item left out of the hotspots scores higher than one chosen; and
      among items of equal score, the chosen ones are the earliest. */
  lemma HotspotsAreTop(items: seq<RefactorItem>)
    ensures var r := Hotspots(items);
            var sorted := SortDesc(items, ScoreOf);
            && r == sorted[..|r|]
            && (forall x, y :: x in r && y in sorted[|r|..] ==> x.priorityScore >= y.priorityScore)
            && (forall v :: KeyClass(sorted, ScoreOf, v) == KeyClass(items, ScoreOf, v))
  {
    var sorted := SortDesc(items, ScoreOf);
    TopKeysDominate(items, ScoreOf, |Hotspots(items)|);
  }

  /** The same for quick wins, among the low-effort items. */
  lemma QuickWinsAreTop(items: seq<RefactorItem>)
    ensures var r := QuickWins(items);
            var sorted := SortDesc(Filter(items, IsLowEffort), ScoreOf);
            && r == sorted[..|r|]
            && (forall x, y :: x in r && y in sorted[|r|..] ==> x.priorityScore >= y.priorityScore)
            && (forall y :: y in items && y.effort == Low ==> y in sorted)
  {
    var low := Filter(items, IsLowEffort);
    var sorted := SortDesc(low, ScoreOf);
    CountIsFilterLength(items, IsLowEffort);
    TopKeysDominate(low, ScoreOf, |QuickWins(items)|);
    forall y | y in items && y.effort == Low ensures y in sorted {
      assert y in multiset(low);
    }
  }

  // ---------------------------------------------------------------------
  // Roadmap and summary
  // ---------------------------------------------------------------------

  /** A roadmap line: `Phase <k>` and its text. */
  function PhaseLine(k: nat, text: string): (r: string)
    requires k <= 9
    ensures PhaseOf(r) == k
  {
    var r := "Phase " + [DigitChar(k)] + text;
    assert r[6] == DigitChar(k);
    r
  }

  /** The phase number a roadmap line announces (its seventh character). */
  function PhaseOf(line: string): int {
    if |line| > 6 && IsDigit(line[6]) then DigitValue(line[6]) as int else -1
  }

  function Phase1(groups: nat): string {
    PhaseLine(1, ": Architecture - Consolidate " + NatToString(groups) + " duplicate groups.")
  }

  function Phase2(wins: nat): string {
    PhaseLine(2, ": Quick Wins - Fix " + NatToString(wins) + " low-effort issues to build momentum.")
  }

  const Phase3 := PhaseLine(3, ": Deep Dives - Refactor the top critical hotspots.")
  const Phase4 := PhaseLine(4, ": Maintenance - Address remaining lower priority warnings.")

  /** The number of duplicate groups, when there is a project analysis. */
  function GroupTotal(analysis: Option<Project.ProjectAnalysis>): nat {
    if analysis.Some? then |analysis.value.duplicates| else 0
  }

  /** The phase numbers of a roadmap: each optional phase in order, then
      phase 4. */
  function PhaseNumbers(one: bool, two: bool, three: bool): (ps: seq<int>)
    ensures 1 <= |ps| <= 4 && ps[|ps| - 1] == 4
    ensures forall k :: 0 <= k < |ps| ==> 1 <= ps[k] <= 4
    ensures forall i, j :: 0 <= i < j < |ps| ==> ps[i] < ps[j]
    ensures 1 in ps <==> one
    ensures 2 in ps <==> two
    ensures 3 in ps <==> three
  {
    (if one then [1] else []) + (if two then [2] else []) + (if three then [3] else []) + [4]
  }

  /** The roadmap line of phase `k`. */
  function PhaseText(k: int, groups: nat, wins: nat): (r: string)
    ensures 1 <= k <= 4 ==> PhaseOf(r) == k
  {
    if k == 1 then Phase1(groups)
    else if k == 2 then Phase2(wins)
    else if k == 3 then Phase3
    else Phase4
  }

  /** `_generate_roadmap`. */
  function Roadmap(analysis: Option<Project.ProjectAnalysis>, hotspots: seq<RefactorItem>,
                   quickWins: seq<RefactorItem>): (r: seq<string>)
    ensures 1 <= |r| <= 4
    ensures PhaseOf(r[|r| - 1]) == 4
    ensures forall i, j :: 0 <= i < j < |r| ==> PhaseOf(r[i]) < PhaseOf(r[j])
    ensures (exists k :: 0 <= k < |r| && PhaseOf(r[k]) == 1) <==> GroupTotal(analysis) > 0
    ensures (exists k :: 0 <= k < |r| && PhaseOf(r[k]) == 2) <==> |quickWins| > 0
    ensures (exists k :: 0 <= k < |r| && PhaseOf(r[k]) == 3) <==> |hotspots| > 0
  {
    var groups, wins := GroupTotal(analysis), |quickWins|;
    var ps := PhaseNumbers(groups > 0, wins > 0, |hotspots| > 0);
    var r := Map(ps, k => PhaseText(k, groups, wins));
    assert forall k :: 0 <= k < |r| ==> PhaseOf(r[k]) == ps[k];
    r
  }

  datatype Health = Good | NeedsAttention | CriticalHealth
  {
    function Label(): string {
      match this
      case Good => "Good"
      case NeedsAttention => "Needs Attention"
      case CriticalHealth => "Critical"
    }

    function Rank(): nat {
      match this
      case Good => 0
      case NeedsAttention => 1
      case CriticalHealth => 2
    }
  }

  /** The health verdict, from the number of critical issues. */
  function HealthOf(critical: nat): (h: Health)
    ensures h == Good <==> critical == 0
    ensures h == NeedsAttention <==> 1 <= critical <= 10
    ensures h == CriticalHealth <==> critical > 10
  {
    var h := if critical > 0 then NeedsAttention else Good;
    if critical > 10 then CriticalHealth else h
  }

  /** More critical issues never give a better verdict. */
  lemma HealthMonotone(c1: nat, c2: nat)
    requires c1 <= c2
    ensures HealthOf(c1).Rank() <= HealthOf(c2).Rank()
  {
  }

  /** `_generate_summary`. */
  function Summary(m: PlanMetric): (r: string)
    ensures StartsWith(r, "Analyzed " + NatToString(m.totalFiles) + " files. ")
    ensures EndsWith(r, "Codebase Health: " + HealthOf(m.criticalCount).Label() + ".")
    ensures var head := "Analyzed " + NatToString(m.totalFiles) + " files. ";
            var tail := "Codebase Health: " + HealthOf(m.criticalCount).Label() + ".";
            |head| + |tail| <= |r| && r[|head|..|r| - |tail|] == "Found " + NatToString(m.totalIssues) + " issues. "
  {
    var head := "Analyzed " + NatToString(m.totalFiles) + " files. ";
    var mid := "Found " + NatToString(m.totalIssues) + " issues. ";
    var tail := "Codebase Health: " + HealthOf(m.criticalCount).Label() + ".";
    var r := head + mid + tail;
    assert r[..|head|] == head;
    assert r[|r| - |tail|..] == tail;
    assert r[|head|..|r| - |tail|] == mid;
    r
  }

  // ---------------------------------------------------------------------
  // The plan
  // ---------------------------------------------------------------------

  /** `RefactorPlan`, without the optional LLM advice. */
  datatype RefactorPlan = RefactorPlan(executiveSummary: string, metrics: PlanMetric,
                                       criticalHotspots: seq<RefactorItem>, quickWins: seq<RefactorItem>,
                                       strategicRoadmap: seq<string>)

  /** `generate_plan` without LLM advice. */
  function GeneratePlan(issues: seq<Issue>, analysis: Option<Project.ProjectAnalysis>): (p: RefactorPlan)
    ensures p.metrics == CalculateMetrics(issues, analysis)
    ensures |p.criticalHotspots| == if |issues| < TopCount then |issues| else TopCount
    ensures |p.quickWins| <= TopCount && |p.quickWins| <= |issues|
    ensures forall x :: x in p.criticalHotspots + p.quickWins ==> x.issue in issues
    ensures forall x :: x in p.quickWins ==> IsQuickWin(x.issue)
    ensures 1 <= |p.strategicRoadmap| <= 4
    ensures p.criticalHotspots == Hotspots(PrioritizeIssues(issues))
    ensures p.quickWins == QuickWins(PrioritizeIssues(issues))
    ensures p.executiveSummary == Summary(p.metrics)
    ensures p.strategicRoadmap == Roadmap(analysis, p.criticalHotspots, p.quickWins)
  {
    var items := PrioritizeIssues(issues);
    var hotspots := Hotspots(items);
    var wins := QuickWins(items);
    assert forall x :: x in items ==> x.issue in issues && (x.effort == Low ==> IsQuickWin(x.issue));
    RefactorPlan(Summary(CalculateMetrics(issues, analysis)), CalculateMetrics(issues, analysis),
                 hotspots, wins, Roadmap(analysis, hotspots, wins))
  }

  /** An issue list without critical or warning issues yields only
      low-effort items: every item is a quick-win candidate. */
  lemma InfoOnlyAllQuickWins(issues: seq<Issue>)
    requires forall k :: 0 <= k < |issues| ==> issues[k].severity == Info
    ensures var items := PrioritizeIssues(issues);
            Count(items, IsLowEffort) == |items|
  {
  }
}
